/** The inventory account against the stock: what each event moves in goods it moves in value, at the unit cost on record. */
module InventoryValue {
  import opened Wrappers
  import opened Int64
  import opened Tables
  import opened Sums
  import opened Checkout
  import opened StockCounts
  import opened Receipts
  import opened GoodsReceipts
  import opened Events
  import opened Integrity
  import opened SalesBooks
  import opened Balances
  import OrderBooks
  import Ledger

  // ---------- unit costs on record ----------

  function SaleCosts(lines: seq<SaleLine>): Movement -> int {
    (m: Movement) => if m.source.line.Some? && m.source.line.value < |lines| then lines[m.source.line.value].costPrice else 0
  }

  function OrderCosts(olines: seq<OrderLine>): Movement -> int {
    (m: Movement) => if m.product in ByProduct(olines) then ByProduct(olines)[m.product].unitCost else 0
  }

  function FixedCost(cost: int): Movement -> int {
    (m: Movement) => cost
  }

  /** The cost an event values its movements at: the sale's, the order's, or the product's own. */
  function CostsOf(s: Store, e: Event): Movement -> int
    requires Addressed(s, e)
  {
    match e
    case Sell(_, _, _, sale, _) => SaleCosts(sale.lines)
    case VoidSale(id, _, _) => SaleCosts(s.sales[id].lines)
    case Receive(r, _, _) => OrderCosts(s.orders[r.order].lines)
    case Adjust(req, _, _) => FixedCost(s.products[req.product].costPrice)
    case _ => FixedCost(0)
  }

  function Valued(costs: Movement -> int): Movement -> int {
    (m: Movement) => costs(m) * m.delta
  }

  // ---------- the value of the movements ----------

  lemma Turned(a: int, b: int)
    ensures a * -b == -(a * b)
  {
  }

  lemma {:induction false} SaleMovesCogs(id: nat, lines: seq<SaleLine>, doc: DocType, at: int, n: nat)
    requires n <= |lines|
    ensures Sum(SaleMovements(id, lines, doc, at)[..n], Valued(SaleCosts(lines))) ==
            if doc == POS_SALE then -Sum(lines[..n], LineCost()) else Sum(lines[..n], LineCost())
  {
    if n > 0 {
      var ms, i := SaleMovements(id, lines, doc, at), n - 1;
      SaleMovesCogs(id, lines, doc, at, i);
      assert ms[..n][..i] == ms[..i] && lines[..n][..i] == lines[..i];
      Turned(lines[i].costPrice, lines[i].quantity);
      assert Valued(SaleCosts(lines))(ms[i]) == if doc == POS_SALE then -LineCost()(lines[i]) else LineCost()(lines[i]);
    }
  }

  lemma {:induction false} ReceiptMovesValuation(olines: seq<OrderLine>, id: nat, lines: seq<ReceiptLine>, at: int)
    requires forall l <- lines :: l.accepted >= 0
    ensures Sum(ReceiptMovements(id, lines, at), Valued(OrderCosts(olines))) == Valuation(olines, lines)
  {
    if |lines| > 0 {
      var n := |lines| - 1;
      var rest, last := ReceiptMovements(id, lines[..n], at), lines[n];
      ReceiptMovesValuation(olines, id, lines[..n], at);
      var m := Movement(last.product, last.accepted, IN, Source(GOODS_RECEIPT, id, Some(n)), at);
      assert Valued(OrderCosts(olines))(m) == ValueAt(olines)(last);
      if last.accepted > 0 {
        SumAppend(rest, m, Valued(OrderCosts(olines)));
      } else {
        assert rest + [] == rest;
      }
    }
  }

  // ---------- the journals ----------

  lemma {:induction false} SaleOnInventory(id: nat, total: int, cogs: int, payment: PaymentMethod, day: int)
    ensures EntryNet(Ledger.INVENTORY)(Ledger.SaleEntry(id, total, cogs, payment, day)) == -cogs
    ensures EntryNet(Ledger.INVENTORY)(Ledger.VoidEntry(id, total, cogs, payment, day)) == cogs
  {
    var n, v := Ledger.SaleEntry(id, total, cogs, payment, day).lines, Ledger.VoidEntry(id, total, cogs, payment, day).lines;
    SumOfFour(n[0], n[1], n[2], n[3], NetOn(Ledger.INVENTORY));
    SumOfFour(v[0], v[1], v[2], v[3], NetOn(Ledger.INVENTORY));
  }

  lemma {:induction false} ReceiptOnInventory(id: nat, value: int, day: int)
    ensures EntryNet(Ledger.INVENTORY)(Ledger.ReceiptEntry(id, value, day)) == value
  {
    var n := Ledger.ReceiptEntry(id, value, day).lines;
    SumOfTwo(n[0], n[1], NetOn(Ledger.INVENTORY));
  }

  /** A stock correction moves inventory by its worth, up or down, against the shrinkage account. */
  lemma {:induction false} AdjustmentOnInventory(id: nat, delta: int, cost: int64, day: int)
    ensures var e := Ledger.AdjustmentEntry(id, delta, Ledger.Worth(delta, cost), day);
            EntryNet(Ledger.INVENTORY)(e) == cost * delta && EntryNet(Ledger.SHRINKAGE)(e) == -(cost * delta)
  {
    var n := Ledger.AdjustmentEntry(id, delta, Ledger.Worth(delta, cost), day).lines;
    SumOfTwo(n[0], n[1], NetOn(Ledger.INVENTORY));
    SumOfTwo(n[0], n[1], NetOn(Ledger.SHRINKAGE));
    Turned(cost, delta);
  }

  /** What the new journals of an event put on the inventory account. */
  function Booked(s: Store, e: Event): int
    requires Addressed(s, e)
  {
    Sum(NewEntries(s, e), EntryNet(Ledger.INVENTORY))
  }

  lemma {:induction false} SellBooksCogs(s: Store, e: Event)
    requires e.Sell? && Addressed(s, e)
    ensures Booked(s, e) == -Cogs(e.sale) == Sum(NewMovements(s, e), Valued(CostsOf(s, e)))
  {
    var sale := e.sale;
    var ms := SaleMovements(|s.sales|, sale.lines, POS_SALE, e.at);
    SumOfOne(Ledger.SaleEntry(|s.sales|, sale.total, Cogs(sale), sale.payment, sale.day), EntryNet(Ledger.INVENTORY));
    SaleOnInventory(|s.sales|, sale.total, Cogs(sale), sale.payment, sale.day);
    SaleMovesCogs(|s.sales|, sale.lines, POS_SALE, e.at, |sale.lines|);
    assert ms[..|sale.lines|] == ms && sale.lines[..|sale.lines|] == sale.lines;
  }

  lemma {:induction false} VoidBooksCogs(s: Store, e: Event)
    requires e.VoidSale? && Addressed(s, e)
    ensures Booked(s, e) == Cogs(s.sales[e.sold]) == Sum(NewMovements(s, e), Valued(CostsOf(s, e)))
  {
    var sale := s.sales[e.sold];
    var ms := SaleMovements(e.sold, sale.lines, POS_VOID, e.at);
    SumOfOne(Ledger.VoidEntry(e.sold, sale.total, Cogs(sale), sale.payment, e.day), EntryNet(Ledger.INVENTORY));
    SaleOnInventory(e.sold, sale.total, Cogs(sale), sale.payment, e.day);
    SaleMovesCogs(e.sold, sale.lines, POS_VOID, e.at, |sale.lines|);
    assert ms[..|sale.lines|] == ms && sale.lines[..|sale.lines|] == sale.lines;
  }

  lemma {:induction false} ReceiptBooksValue(s: Store, e: Event)
    requires e.Receive? && Addressed(s, e) && (forall l <- e.receipt.lines :: l.accepted >= 0)
    requires Valuation(s.orders[e.receipt.order].lines, e.receipt.lines) >= 0
    ensures Booked(s, e) == Sum(NewMovements(s, e), Valued(CostsOf(s, e)))
  {
    var r, olines := e.receipt, s.orders[e.receipt.order].lines;
    var value := Valuation(olines, r.lines);
    ReceiptMovesValuation(olines, |s.receipts|, r.lines, e.at);
    if value > 0 {
      SumOfOne(Ledger.ReceiptEntry(|s.receipts|, value, e.day), EntryNet(Ledger.INVENTORY));
      ReceiptOnInventory(|s.receipts|, value, e.day);
    }
  }

  lemma {:induction false} AdjustmentBooksWorth(s: Store, e: Event)
    requires e.Adjust? && Addressed(s, e) && s.products[e.adjustment.product].costPrice >= 0
    ensures Booked(s, e) == Sum(NewMovements(s, e), Valued(CostsOf(s, e)))
  {
    var req := e.adjustment;
    var delta, cost := DeltaFor(req.kind, req.quantity, s.stock.onHand[req.product]), s.products[req.product].costPrice;
    WorthSign(delta, cost);
    AdjustmentOnInventory(|s.adjustments|, delta, cost, e.day);
    SumOfOne(AdjustmentMovement(|s.adjustments|, req.product, delta, e.at), Valued(FixedCost(cost)));
    SumOfOne(Ledger.AdjustmentEntry(|s.adjustments|, delta, Ledger.Worth(delta, cost), e.day), EntryNet(Ledger.INVENTORY));
  }

  /** Selling, voiding, receiving and correcting move the inventory account by exactly the value, at recorded unit cost,
      of the stock they move. Manual entries move it freely, and a new product's opening stock is not booked at all. */
  lemma {:induction false} InventoryFollowsStock(s: Store, e: Event)
    requires Intact(s) && Enabled(s, e) && !e.PostEntry? && !e.ReverseEntry?
    ensures !e.AddProduct? ==>
              Balance(Apply(s, e).entries, Ledger.INVENTORY) - Balance(s.entries, Ledger.INVENTORY)
              == Sum(NewMovements(s, e), Valued(CostsOf(s, e)))
    ensures e.AddProduct? ==> Balance(Apply(s, e).entries, Ledger.INVENTORY) == Balance(s.entries, Ledger.INVENTORY)
  {
    ApplyPosts(s, e);
    SumConcat(s.entries, NewEntries(s, e), EntryNet(Ledger.INVENTORY));
    if e.Sell? {
      SellBooksCogs(s, e);
    } else if e.VoidSale? {
      VoidBooksCogs(s, e);
    } else if e.Receive? {
      OrderBooks.ReceivedValueNonNegative(s, e);
      ReceiptBooksValue(s, e);
    } else if e.Adjust? {
      AdjustmentBooksWorth(s, e);
    }
  }
}
