/** What partial receipts add up to: the order's total, in accepted goods and in the payables ledger. */
module Payables {
  import opened Wrappers
  import opened Tables
  import opened Sums
  import opened PurchaseOrders
  import opened Receipts
  import opened Integrity
  import opened OrderBooks
  import opened Balances
  import Ledger

  // ---------- over the receipts of one order ----------

  function ValueOn(olines: seq<OrderLine>, k: nat): Receipt -> int {
    (r: Receipt) => if r.order == k then Valuation(olines, r.lines) else 0
  }

  function CostReceived(receipts: seq<Receipt>, k: nat): OrderLine -> int {
    (l: OrderLine) => l.unitCost * Received(receipts, k, l.product)
  }

  function CostOn(r: Receipt, k: nat): OrderLine -> int {
    (l: OrderLine) => if r.order == k then CostAccepted(r.lines)(l) else 0
  }

  lemma CostOnAccepted(r: Receipt, k: nat, l: OrderLine)
    ensures CostOn(r, k)(l) == l.unitCost * AcceptedIn(k, l.product)(r)
  {
    var a := AcceptedIn(k, l.product)(r);
    if r.order == k {
      assert a == AcceptedFor(l.product, r.lines);
      assert CostOn(r, k)(l) == CostAccepted(r.lines)(l);
    } else {
      assert a == 0;
    }
  }

  /** Valuing receipt by receipt is valuing the received quantities at the order's costs. */
  lemma {:induction false} ReceiptsAddUp(olines: seq<OrderLine>, receipts: seq<Receipt>, k: nat)
    requires DistinctProducts(olines)
    ensures Sum(receipts, ValueOn(olines, k)) == Sum(olines, CostReceived(receipts, k))
  {
    if |receipts| == 0 {
      SumZero(olines, CostReceived(receipts, k));
    } else {
      var rest, r := receipts[..|receipts| - 1], receipts[|receipts| - 1];
      ReceiptsAddUp(olines, rest, k);
      forall l | l in olines
        ensures CostReceived(receipts, k)(l) == Plus(CostReceived(rest, k), CostOn(r, k))(l)
      {
        assert Received(receipts, k, l.product) == Received(rest, k, l.product) + AcceptedIn(k, l.product)(r);
        AddedCost(l.unitCost, Received(rest, k, l.product), AcceptedIn(k, l.product)(r));
        CostOnAccepted(r, k, l);
      }
      SumCongruent(olines, CostReceived(receipts, k), Plus(CostReceived(rest, k), CostOn(r, k)));
      SumPlus(olines, CostReceived(rest, k), CostOn(r, k));
      CostOnIsValue(olines, r, k);
    }
  }

  lemma CostOnIsValue(olines: seq<OrderLine>, r: Receipt, k: nat)
    requires DistinctProducts(olines)
    ensures Sum(olines, CostOn(r, k)) == ValueOn(olines, k)(r)
  {
    if r.order == k {
      SumCongruent(olines, CostOn(r, k), CostAccepted(r.lines));
      ValueByOrderLine(olines, r.lines);
    } else {
      SumZero(olines, CostOn(r, k));
    }
  }

  /** Whatever is received belongs to a receipt, and an order that lists a product twice has none. */
  lemma {:induction false} ReceivedMeansDistinct(s: Store, k: nat, p: nat)
    requires RowsSound(s) && k < |s.orders| && Received(s.receipts, k, p) != 0
    ensures DistinctProducts(s.orders[k].lines)
  {
    if !exists r <- s.receipts :: r.order == k {
      SumZero(s.receipts, AcceptedIn(k, p));
    } else {
      var r :| r in s.receipts && r.order == k;
      assert ReceiptRowSound(s, r);
    }
  }

  /** A fully received order was received for exactly its total; an open one for at most that. */
  lemma {:induction false} ReceivedForItsTotal(s: Store, k: nat)
    requires Filed(s) && k < |s.orders|
    ensures s.orders[k].status == RECEIVED ==> Sum(s.receipts, ValueOn(s.orders[k].lines, k)) == s.orders[k].total
    ensures 0 <= Sum(s.receipts, ValueOn(s.orders[k].lines, k)) <= s.orders[k].total
  {
    var o := s.orders[k];
    assert o in s.orders && OrderSafe(s, k);
    if Nothing(ReceivedOn(s.receipts, k)) {
      assert o.lines[0] in o.lines && LineSound(o.lines[0]);
      NoValueYet(s, k);
    } else {
      var p :| Received(s.receipts, k, p) != 0;
      ReceivedMeansDistinct(s, k, p);
      ReceiptsAddUp(o.lines, s.receipts, k);
      forall l | l in o.lines
        ensures 0 <= CostReceived(s.receipts, k)(l) <= SubtotalOf()(l)
        ensures o.status == RECEIVED ==> CostReceived(s.receipts, k)(l) == SubtotalOf()(l)
      {
        assert LineSound(l);
        ProductAtMost(l.unitCost, 0, Received(s.receipts, k, l.product));
        ProductAtMost(l.unitCost, Received(s.receipts, k, l.product), l.quantity);
      }
      SumAtMost(o.lines, CostReceived(s.receipts, k), SubtotalOf());
      SumNonNegative(o.lines, CostReceived(s.receipts, k));
      if o.status == RECEIVED { SumCongruent(o.lines, CostReceived(s.receipts, k), SubtotalOf()); }
    }
  }

  lemma {:induction false} NoValueYet(s: Store, k: nat)
    requires RowsSound(s) && k < |s.orders| && Nothing(ReceivedOn(s.receipts, k))
    ensures Sum(s.receipts, ValueOn(s.orders[k].lines, k)) == 0
  {
    var o := s.orders[k];
    if exists r <- s.receipts :: r.order == k {
      var r :| r in s.receipts && r.order == k;
      assert ReceiptRowSound(s, r);
      ReceiptsAddUp(o.lines, s.receipts, k);
      assert forall l <- o.lines :: ReceivedOn(s.receipts, k)(l.product) == 0;
      SumZero(o.lines, CostReceived(s.receipts, k));
    } else {
      SumZero(s.receipts, ValueOn(o.lines, k));
    }
  }

  // ---------- over the journals of one order ----------

  /** What the goods-receipt journals of order k credit to payables. */
  function OrderCredits(receipts: seq<Receipt>, k: nat): Entry -> int {
    (e: Entry) => if e.doc == GOODS_RECEIPT && e.docId.Some? && e.docId.value < |receipts| && receipts[e.docId.value].order == k
                  then Sum(e.lines, CreditOn(Ledger.PAYABLE)) else 0
  }

  function CreditTable(receipts: seq<Receipt>, k: nat): (nat, Entry) -> int {
    (i: nat, e: Entry) => if i < |receipts| && receipts[i].order == k then PayableFor(i)(e) else 0
  }

  function ValueAtIndex(receipts: seq<Receipt>, olines: seq<OrderLine>, k: nat): nat -> int {
    (i: nat) => if i < |receipts| then ValueOn(olines, k)(receipts[i]) else 0
  }

  lemma {:induction false} ValuesOverIndices(receipts: seq<Receipt>, olines: seq<OrderLine>, k: nat, n: nat)
    requires n <= |receipts|
    ensures Sum(Indices(n), ValueAtIndex(receipts, olines, k)) == Sum(receipts[..n], ValueOn(olines, k))
  {
    if n > 0 {
      ValuesOverIndices(receipts, olines, k, n - 1);
      assert Indices(n)[..n - 1] == Indices(n - 1);
      assert receipts[..n][..n - 1] == receipts[..n - 1];
    }
  }

  lemma {:induction false} CreditsAreValues(s: Store, k: nat)
    requires Filed(s) && k < |s.orders|
    ensures Sum(s.entries, OrderCredits(s.receipts, k)) == Sum(s.receipts, ValueOn(s.orders[k].lines, k))
  {
    var ix, w, olines := Indices(|s.receipts|), CreditTable(s.receipts, k), s.orders[k].lines;
    forall e | e in s.entries
      ensures ColumnSum<nat, Entry>(ix, w)(e) == OrderCredits(s.receipts, k)(e)
    {
      CreditColumn(s.receipts, k, e);
    }
    SumCongruent(s.entries, ColumnSum<nat, Entry>(ix, w), OrderCredits(s.receipts, k));
    SumSwap<nat, Entry>(ix, s.entries, w);
    forall i | i in ix
      ensures RowSum<nat, Entry>(s.entries, w)(i) == ValueAtIndex(s.receipts, olines, k)(i)
    {
      CreditRow(s, k, i);
    }
    SumCongruent(ix, RowSum<nat, Entry>(s.entries, w), ValueAtIndex(s.receipts, olines, k));
    ValuesOverIndices(s.receipts, olines, k, |s.receipts|);
    assert s.receipts[..|s.receipts|] == s.receipts;
  }

  lemma {:induction false} CreditColumn(receipts: seq<Receipt>, k: nat, e: Entry)
    ensures ColumnSum<nat, Entry>(Indices(|receipts|), CreditTable(receipts, k))(e) == OrderCredits(receipts, k)(e)
  {
    var f := FixSecond<nat, Entry>(CreditTable(receipts, k), e);
    forall i | 0 <= i < |receipts|
      ensures f(Indices(|receipts|)[i]) == if receipts[i].order == k then PayableFor(i)(e) else 0
    {
    }
    if e.doc == GOODS_RECEIPT && e.docId.Some? && e.docId.value < |receipts| {
      SumOneHit(Indices(|receipts|), e.docId.value, f);
    } else {
      SumZero(Indices(|receipts|), f);
    }
  }

  lemma {:induction false} CreditRow(s: Store, k: nat, i: nat)
    requires Filed(s) && k < |s.orders| && i < |s.receipts|
    ensures RowSum<nat, Entry>(s.entries, CreditTable(s.receipts, k))(i) == ValueAtIndex(s.receipts, s.orders[k].lines, k)(i)
  {
    var f := Fix<nat, Entry>(CreditTable(s.receipts, k), i);
    assert s.receipts[i] in s.receipts && ReceiptBooked(s, i);
    if s.receipts[i].order == k {
      SumCongruent(s.entries, f, PayableFor(i));
      assert ValueOn(s.orders[k].lines, k)(s.receipts[i]) == ReceiptValue(s, s.receipts[i]);
    } else {
      SumZero(s.entries, f);
      assert ValueOn(s.orders[k].lines, k)(s.receipts[i]) == 0;
    }
  }

  /** The goods-receipt journals credit payables with exactly the order's total once it is received, and never more. */
  lemma {:induction false} ReceivedOrderIsPayable(s: Store, k: nat)
    requires Filed(s) && k < |s.orders|
    ensures s.orders[k].status == RECEIVED ==> Sum(s.entries, OrderCredits(s.receipts, k)) == s.orders[k].total
    ensures 0 <= Sum(s.entries, OrderCredits(s.receipts, k)) <= s.orders[k].total
    ensures s.orders[k].status == CANCELLED ==> Sum(s.entries, OrderCredits(s.receipts, k)) == 0
  {
    CreditsAreValues(s, k);
    ReceivedForItsTotal(s, k);
    assert OrderSafe(s, k);
    if s.orders[k].status == CANCELLED { NoValueYet(s, k); }
  }

  /** Credits on 2010 that the goods-receipt journals of order k posted. */
  function CreditedFor(receipts: seq<Receipt>, k: nat): Entry -> int {
    (e: Entry) => if e.doc == GOODS_RECEIPT && e.docId.Some? && e.docId.value < |receipts| && receipts[e.docId.value].order == k
                  then Sum(e.lines, (l: Line) => if l.account == 2010 then l.credit else 0) else 0
  }

  /** The same by account number: for an order's receipts 2010 is credited with the order's total once it is RECEIVED, with nothing
      while it is ISSUED or once it is CANCELLED, and in between with at most the total. */
  lemma {:induction false} OwedByNumber(s: Store, k: nat)
    requires Filed(s) && k < |s.orders|
    ensures var owed := Sum(s.entries, CreditedFor(s.receipts, k));
            && 0 <= owed <= s.orders[k].total
            && (s.orders[k].status == RECEIVED ==> owed == s.orders[k].total)
            && (s.orders[k].status in {ISSUED, CANCELLED} ==> owed == 0)
  {
    ReceivedOrderIsPayable(s, k);
    forall e | e in s.entries
      ensures CreditedFor(s.receipts, k)(e) == OrderCredits(s.receipts, k)(e)
    {
      SumCongruent(e.lines, CreditOn(Ledger.PAYABLE), (l: Line) => if l.account == 2010 then l.credit else 0);
    }
    SumCongruent(s.entries, CreditedFor(s.receipts, k), OrderCredits(s.receipts, k));
    assert OrderSafe(s, k);
    if s.orders[k].status == ISSUED {
      CreditsAreValues(s, k);
      NoValueYet(s, k);
    }
  }

  /** One receipt's journal credits 2010 with what its accepted goods cost at the order's prices. */
  lemma {:induction false} ReceiptOwedByNumber(s: Store, i: nat)
    requires Filed(s) && i < |s.receipts|
    ensures s.receipts[i].order < |s.orders|
    ensures Sum(s.entries, (e: Entry) => if e.doc == GOODS_RECEIPT && e.docId == Some(i)
                                         then Sum(e.lines, (l: Line) => if l.account == 2010 then l.credit else 0) else 0)
            == Sum(s.orders[s.receipts[i].order].lines,
                   (o: OrderLine) => o.unitCost * Sum(s.receipts[i].lines, (l: ReceiptLine) => if l.product == o.product then l.accepted else 0))
  {
    var r := s.receipts[i];
    assert r in s.receipts && ReceiptRowSound(s, r) && ReceiptBooked(s, i);
    var olines := s.orders[r.order].lines;
    var credited := (e: Entry) => if e.doc == GOODS_RECEIPT && e.docId == Some(i)
                                  then Sum(e.lines, (l: Line) => if l.account == 2010 then l.credit else 0) else 0;
    forall e | e in s.entries
      ensures credited(e) == PayableFor(i)(e)
    {
      SumCongruent(e.lines, CreditOn(Ledger.PAYABLE), (l: Line) => if l.account == 2010 then l.credit else 0);
    }
    SumCongruent(s.entries, credited, PayableFor(i));
    ValueByOrderLine(olines, r.lines);
    var cost := (o: OrderLine) => o.unitCost * Sum(r.lines, (l: ReceiptLine) => if l.product == o.product then l.accepted else 0);
    forall o | o in olines
      ensures cost(o) == CostAccepted(r.lines)(o)
    {
      SumCongruent(r.lines, AcceptedOf(o.product), (l: ReceiptLine) => if l.product == o.product then l.accepted else 0);
    }
    SumCongruent(olines, cost, CostAccepted(r.lines));
  }

  // ---------- the receipt detail page ----------

  /** Recomputes a receipt's value line by line; it is what the receipt's journal credited to payables. */
  method GetGoodsReceiptDetail(s: Store, i: nat) returns (r: Option<int>)
    requires Filed(s)
    ensures r == if i < |s.receipts| then Some(Sum(s.entries, PayableFor(i))) else None
  {
    if i >= |s.receipts| { return None; }
    var receipt := s.receipts[i];
    assert receipt in s.receipts && ReceiptRowSound(s, receipt) && ReceiptBooked(s, i);
    var olines := s.orders[receipt.order].lines;
    var total := 0;
    for j := 0 to |receipt.lines|
      invariant total == Valuation(olines, receipt.lines[..j])
    {
      var l := receipt.lines[j];
      assert l in receipt.lines && receipt.lines[..j + 1][..j] == receipt.lines[..j];
      total := total + l.accepted * ByProduct(olines)[l.product].unitCost;
    }
    assert receipt.lines[..|receipt.lines|] == receipt.lines;
    return Some(total);
  }
}
