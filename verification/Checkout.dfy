/** Selling a cart (backend/internal/pos/service.go, Checkout). */
module Checkout {
  import opened Wrappers
  import opened Int64
  import opened Tables
  import opened Database
  import opened Sums
  import Money
  import Inventory
  import Ledger

  datatype CheckoutError = ProductNotFound | InsufficientStock | InvalidMonetaryAmount | TransactionLimitExceeded
                         | InsufficientCashTendered | CashTenderedNotAllowed | KeyTaken | JournalFailed

  datatype CartItem = CartItem(sku: string, quantity: int64)

  datatype Request = Request(items: seq<CartItem>, payment: PaymentMethod, discount: int, tendered: Option<int>)

  /** What request binding guarantees: at least one item, every quantity positive. */
  predicate Bound(req: Request) {
    |req.items| >= 1 && forall item <- req.items :: item.quantity > 0
  }

  // ---------- the catalogue as a cart sees it ----------

  /** Foreign keys and the unique SKU and barcode indexes: each product has one SKU, one balance row and valid prices.
      No request can set a unit price of zero. */
  ghost predicate Linked(s: Store) {
    && SkusIndex(s.skus, s.products)
    && BarcodesUnique(s.products)
    && s.stock.onHand.Keys == s.products.Keys
    && (forall p <- s.products :: PricesInBounds(s.products[p]))
  }

  ghost predicate SkusIndex(skus: map<string, nat>, products: map<nat, Product>) {
    && (forall sku <- skus :: skus[sku] in products && products[skus[sku]].sku == sku)
    && (forall p <- products :: products[p].sku in skus && skus[products[p].sku] == p)
  }

  ghost predicate BarcodesUnique(products: map<nat, Product>) {
    forall p <- products, q <- products :: p != q && products[p].barcode.Some? ==> products[p].barcode != products[q].barcode
  }

  predicate PricesInBounds(row: Product) {
    1 <= row.unitPrice <= Money.MAX_TRANSACTION_AMOUNT && 0 <= row.costPrice <= Money.MAX_TRANSACTION_AMOUNT
  }

  predicate Known(s: Store, sku: string) {
    sku in s.skus && s.skus[sku] in s.products && s.skus[sku] in s.stock.onHand
  }

  predicate Available(s: Store, sku: string) {
    Known(s, sku) && s.products[s.skus[sku]].isActive
  }

  function StockOf(s: Store, sku: string): int
    requires Known(s, sku)
  {
    s.stock.onHand[s.skus[sku]]
  }

  function PriceIn(s: Store): CartItem -> int {
    (item: CartItem) => if Known(s, item.sku) then s.products[s.skus[item.sku]].unitPrice * item.quantity else 0
  }

  function CostIn(s: Store): CartItem -> int {
    (item: CartItem) => if Known(s, item.sku) then s.products[s.skus[item.sku]].costPrice * item.quantity else 0
  }

  function QuantityOf(sku: string): CartItem -> int {
    (item: CartItem) => if item.sku == sku then item.quantity else 0
  }

  /** The exact quantity a cart asks of one SKU, over all its lines. */
  function Requested(items: seq<CartItem>, sku: string): int {
    Sum(items, QuantityOf(sku))
  }

  // ---------- when a cart is refused ----------

  /** Why line i stops the pricing loop, if it does: the product, its stock, or a running sum beyond int64.
      The aggregated quantity is a Go int and wraps. */
  function LineFault(s: Store, items: seq<CartItem>, i: nat): Option<CheckoutError>
    requires i < |items|
  {
    var item := items[i];
    if !Available(s, item.sku) then Some(ProductNotFound)
    else if StockOf(s, item.sku) < Wrap(Requested(items, item.sku)) then Some(InsufficientStock)
    else if Sum(items[..i + 1], PriceIn(s)) > MAX64 || Sum(items[..i + 1], CostIn(s)) > MAX64 then Some(InvalidMonetaryAmount)
    else None
  }

  /** The first fault among the first n lines. */
  function FirstFault(s: Store, items: seq<CartItem>, n: nat): Option<CheckoutError>
    requires n <= |items|
  {
    if n == 0 then None
    else if FirstFault(s, items, n - 1).Some? then FirstFault(s, items, n - 1)
    else LineFault(s, items, n - 1)
  }

  /** Why the pricing loop stops, if it does. */
  function CartFault(s: Store, items: seq<CartItem>): Option<CheckoutError> {
    FirstFault(s, items, |items|)
  }

  /** Later lines cannot overrule an earlier fault. */
  lemma {:induction false} FirstFaultStays(s: Store, items: seq<CartItem>, k: nat, n: nat)
    requires k <= n <= |items|
    ensures FirstFault(s, items, k).Some? ==> FirstFault(s, items, n) == FirstFault(s, items, k)
  {
    if k < n {
      FirstFaultStays(s, items, k, n - 1);
    }
  }

  function Clamped(discount: int, subtotal: int): int {
    if discount > subtotal then subtotal else discount
  }

  /** Why the payment does not settle the total, if it does not. */
  function SettlementFault(payment: PaymentMethod, tendered: Option<int>, total: int): Option<CheckoutError> {
    if payment != CASH then (if tendered.Some? then Some(CashTenderedNotAllowed) else None)
    else if tendered.None? then Some(InsufficientCashTendered)
    else if !(0 <= tendered.value <= Money.MAX_TENDER_AMOUNT) then Some(InvalidMonetaryAmount)
    else if tendered.value < total then Some(InsufficientCashTendered)
    else None
  }

  predicate KeyUsed(sales: seq<Sale>, key: string) {
    exists i :: 0 <= i < |sales| && sales[i].key == key
  }

  /** Some SKU is asked for beyond its stock, counted exactly. */
  predicate Oversold(s: Store, items: seq<CartItem>) {
    exists i :: 0 <= i < |items| && Known(s, items[i].sku) && Requested(items, items[i].sku) > StockOf(s, items[i].sku)
  }

  predicate JournalRefused(s: Store, payment: PaymentMethod, total: int, cogs: int) {
    !Ledger.SaleAccountsActive(s, payment) || total <= 0 || cogs <= 0 || total + cogs > MAX64
  }

  /** What the cart comes to before and after the discount. */
  function Subtotal(s: Store, req: Request): int {
    Sum(req.items, PriceIn(s))
  }

  function Total(s: Store, req: Request): int {
    Subtotal(s, req) - Clamped(req.discount, Subtotal(s, req))
  }

  /** Why pricing refuses the cart, in the order the checks are made. */
  function QuoteFault(s: Store, req: Request): Option<CheckoutError> {
    if CartFault(s, req.items).Some? then CartFault(s, req.items)
    else if !(0 <= req.discount <= Money.MAX_TRANSACTION_AMOUNT) then Some(InvalidMonetaryAmount)
    else if Total(s, req) > Money.MAX_TRANSACTION_AMOUNT then Some(TransactionLimitExceeded)
    else SettlementFault(req.payment, req.tendered, Total(s, req))
  }

  /** Why a fresh cart is refused; None means it sells. */
  function Refusal(s: Store, key: string, req: Request): Option<CheckoutError> {
    if QuoteFault(s, req).Some? then QuoteFault(s, req)
    else if KeyUsed(s.sales, key) then Some(KeyTaken)
    else if JournalRefused(s, req.payment, Total(s, req), Sum(req.items, CostIn(s))) then Some(JournalFailed)
    else None
  }

  // ---------- what a sale does ----------

  function LineFor(s: Store, item: CartItem): SaleLine
    requires Known(s, item.sku)
  {
    var product := s.products[s.skus[item.sku]];
    SaleLine(s.skus[item.sku], product.sku, item.quantity, product.unitPrice, product.costPrice, product.unitPrice * item.quantity)
  }

  ghost predicate LinesFor(s: Store, items: seq<CartItem>, lines: seq<SaleLine>) {
    |lines| == |items| && forall i :: 0 <= i < |items| ==> Known(s, items[i].sku) && lines[i] == LineFor(s, items[i])
  }

  function SoldOf(p: nat): SaleLine -> int {
    (l: SaleLine) => if l.product == p then l.quantity else 0
  }

  function LineCost(): SaleLine -> int {
    (l: SaleLine) => l.costPrice * l.quantity
  }

  function LineAmount(): SaleLine -> int {
    (l: SaleLine) => l.subtotal
  }

  function Cogs(sale: Sale): int {
    Sum(sale.lines, LineCost())
  }

  /** One movement per sale line, out for the sale and back in for the void. */
  function SaleMovement(id: nat, line: SaleLine, i: nat, doc: DocType, at: int): Movement {
    Movement(line.product, if doc == POS_SALE then -(line.quantity as int) else line.quantity as int,
             if doc == POS_SALE then OUT else IN, Source(doc, id, Some(i)), at)
  }

  function SaleMovements(id: nat, lines: seq<SaleLine>, doc: DocType, at: int): (ms: seq<Movement>)
    ensures |ms| == |lines| && forall i :: 0 <= i < |ms| ==> ms[i] == SaleMovement(id, lines[i], i, doc, at)
  {
    seq(|lines|, i requires 0 <= i < |lines| => SaleMovement(id, lines[i], i, doc, at))
  }

  /** The store after a sale: its row, one OUT movement per line, and its journal, all or nothing. */
  function WithSale(s: Store, sale: Sale, at: int): Store {
    s.(sales := s.sales + [sale],
       stock := Inventory.Moved(s.stock, SaleMovements(|s.sales|, sale.lines, POS_SALE, at)),
       entries := s.entries + [Ledger.SaleEntry(|s.sales|, sale.total, Cogs(sale), sale.payment, sale.day)])
  }

  /** What a priced sale says about the request: exact amounts, within the caps. */
  ghost predicate Quoted(s: Store, key: string, cashier: nat, req: Request, today: int, sale: Sale) {
    && sale.key == key && sale.cashier == cashier && sale.payment == req.payment && sale.status == COMPLETED && sale.day == today
    && LinesFor(s, req.items, sale.lines)
    && sale.subtotal == Subtotal(s, req) == Sum(sale.lines, LineAmount())
    && sale.discount == Clamped(req.discount, sale.subtotal) && sale.total == sale.subtotal - sale.discount
    && 0 <= sale.total <= Money.MAX_TRANSACTION_AMOUNT
    && (if sale.payment == CASH
        then req.tendered == Some(sale.tendered) && sale.total <= sale.tendered <= Money.MAX_TENDER_AMOUNT
             && sale.change == sale.tendered - sale.total
        else req.tendered == None && sale.tendered == 0 && sale.change == 0)
  }

  /** A committed sale is also worth something: its journal has no zero line. */
  ghost predicate SaleFor(s: Store, key: string, cashier: nat, req: Request, today: int, sale: Sale) {
    Quoted(s, key, cashier, req, today, sale) && 0 < sale.total && 0 < Cogs(sale) && sale.total + Cogs(sale) <= MAX64
  }

  // ---------- the checkout itself ----------

  /** Quantities per SKU, added up in Go ints. */
  method AggregateSkus(items: seq<CartItem>) returns (skuMap: map<string, int64>)
    ensures forall item <- items :: item.sku in skuMap && skuMap[item.sku] == Wrap(Requested(items, item.sku))
  {
    skuMap := map[];
    for i := 0 to |items|
      invariant forall k :: 0 <= k < i ==> items[k].sku in skuMap
      invariant forall sku <- skuMap :: skuMap[sku] == Wrap(Requested(items[..i], sku))
      invariant forall k, sku :: 0 <= k < i && items[k].sku == sku ==> sku in skuMap
      invariant forall sku :: sku !in skuMap ==> Requested(items[..i], sku) == 0
    {
      var item := items[i];
      var sofar := if item.sku in skuMap then skuMap[item.sku] else 0;
      forall sku
        ensures Requested(items[..i + 1], sku) == Requested(items[..i], sku) + QuantityOf(sku)(item)
      {
        assert items[..i + 1] == items[..i] + [item];
        SumAppend(items[..i], item, QuantityOf(sku));
      }
      WrapAbsorbs(Requested(items[..i], item.sku), item.quantity);
      skuMap := skuMap[item.sku := Wrap(sofar + item.quantity)];
    }
    assert items[..|items|] == items;
  }

  lemma PricesNonNegative(s: Store, items: seq<CartItem>)
    requires Linked(s) && forall item <- items :: item.quantity > 0
    ensures forall item <- items :: PriceIn(s)(item) >= 0 && CostIn(s)(item) >= 0
  {
    forall item | item in items
      ensures PriceIn(s)(item) >= 0 && CostIn(s)(item) >= 0
    {
      if Known(s, item.sku) {
        var product := s.products[s.skus[item.sku]];
        assert product.unitPrice * item.quantity >= 0 && product.costPrice * item.quantity >= 0;
      }
    }
  }

  lemma {:induction false} NextLine(s: Store, items: seq<CartItem>, i: nat)
    requires i < |items|
    ensures Sum(items[..i + 1], PriceIn(s)) == Sum(items[..i], PriceIn(s)) + PriceIn(s)(items[i])
    ensures Sum(items[..i + 1], CostIn(s)) == Sum(items[..i], CostIn(s)) + CostIn(s)(items[i])
  {
    assert items[..i + 1][..i] == items[..i];
  }

  /** Checks and prices line i on top of the sums so far. */
  method PriceLine(s: Store, items: seq<CartItem>, i: nat, requested: int64, subtotal: int64, cogs: int64)
    returns (r: Result<(SaleLine, int64, int64), CheckoutError>)
    requires Linked(s) && i < |items| && items[i].quantity > 0
    requires requested == Wrap(Requested(items, items[i].sku))
    requires subtotal == Sum(items[..i], PriceIn(s)) >= 0 && cogs == Sum(items[..i], CostIn(s)) >= 0
    ensures LineFault(s, items, i) == if r.Ok? then None else Some(r.error)
    ensures r.Ok? ==>
              && Known(s, items[i].sku) && r.value.0 == LineFor(s, items[i])
              && r.value.1 == Sum(items[..i + 1], PriceIn(s)) >= 0 && r.value.2 == Sum(items[..i + 1], CostIn(s)) >= 0
  {
    var item := items[i];
    NextLine(s, items, i);
    if !Available(s, item.sku) { return Err(ProductNotFound); }
    if StockOf(s, item.sku) < requested { return Err(InsufficientStock); }
    var product := s.products[s.skus[item.sku]];
    var nextSubtotal := Money.AddTimes(subtotal, product.unitPrice, item.quantity);
    if nextSubtotal.Err? { return Err(InvalidMonetaryAmount); }
    var nextCogs := Money.AddTimes(cogs, product.costPrice, item.quantity);
    if nextCogs.Err? { return Err(InvalidMonetaryAmount); }
    return Ok((LineFor(s, item), nextSubtotal.value, nextCogs.value));
  }

  lemma OneMoreLine(s: Store, items: seq<CartItem>, i: nat, lines: seq<SaleLine>, line: SaleLine)
    requires i < |items| && LinesFor(s, items[..i], lines) && Known(s, items[i].sku) && line == LineFor(s, items[i])
    ensures LinesFor(s, items[..i + 1], lines + [line])
  {
    assert items[..i + 1] == items[..i] + [items[i]];
  }

  /** Checks stock against the aggregated quantities and prices the lines, stopping at the first fault. */
  method PriceLines(s: Store, items: seq<CartItem>, skuMap: map<string, int64>)
    returns (r: Result<(seq<SaleLine>, int64, int64), CheckoutError>)
    requires Linked(s) && forall item <- items :: item.quantity > 0
    requires forall item <- items :: item.sku in skuMap && skuMap[item.sku] == Wrap(Requested(items, item.sku))
    ensures r.Ok? <==> CartFault(s, items).None?
    ensures r.Err? ==> CartFault(s, items) == Some(r.error)
    ensures r.Ok? ==> LinesFor(s, items, r.value.0) && r.value.1 == Sum(items, PriceIn(s)) && r.value.2 == Sum(items, CostIn(s))
  {
    var lines: seq<SaleLine> := [];
    var subtotal: int64, cogs: int64 := 0, 0;
    for i := 0 to |items|
      invariant FirstFault(s, items, i).None?
      invariant LinesFor(s, items[..i], lines)
      invariant subtotal == Sum(items[..i], PriceIn(s)) >= 0
      invariant cogs == Sum(items[..i], CostIn(s)) >= 0
    {
      assert items[i] in items;
      var line := PriceLine(s, items, i, skuMap[items[i].sku], subtotal, cogs);
      FirstFaultStays(s, items, i + 1, |items|);
      if line.Err? { return Err(line.error); }
      OneMoreLine(s, items, i, lines, line.value.0);
      lines := lines + [line.value.0];
      subtotal, cogs := line.value.1, line.value.2;
    }
    assert items[..|items|] == items;
    return Ok((lines, subtotal, cogs));
  }

  /** A cash sale needs enough tender; any other payment must not carry one. Yields tender and change. */
  method ValidatePaymentSettlement(payment: PaymentMethod, tendered: Option<int>, total: int64)
    returns (r: Result<(int64, int64), CheckoutError>)
    requires 0 <= total <= Money.MAX_TRANSACTION_AMOUNT
    ensures r.Err? <==> SettlementFault(payment, tendered, total).Some?
    ensures r.Err? ==> SettlementFault(payment, tendered, total) == Some(r.error)
    ensures r.Ok? ==> r.value == if payment == CASH then (tendered.value, tendered.value - total) else (0, 0)
    ensures r.Ok? <==> if payment == CASH then tendered.Some? && total <= tendered.value <= 2_000_000_000 else tendered.None?
    ensures r == Err(CashTenderedNotAllowed) <==> payment != CASH && tendered.Some?
    ensures r == Err(InsufficientCashTendered) <==> payment == CASH && (tendered.None? || 0 <= tendered.value < total)
  {
    if payment != CASH {
      if tendered.Some? { return Err(CashTenderedNotAllowed); }
      return Ok((0, 0));
    }
    if tendered.None? { return Err(InsufficientCashTendered); }
    var tender := Money.ValidateIDR(tendered.value, Money.MAX_TENDER_AMOUNT);
    if tender.Err? { return Err(InvalidMonetaryAmount); }
    if tender.value.amount < total { return Err(InsufficientCashTendered); }
    var change := tender.value.Sub(Money.IDR(total));
    return Ok((tender.value.amount, change.value.amount));
  }

  /** No movement belongs to a sale that does not exist yet. */
  ghost predicate NoMovementsOf(ms: seq<Movement>, doc: DocType, id: nat) {
    forall m <- ms :: m.source.doc == doc ==> m.source.id != id
  }

  /** How far the balance of p falls over the first i lines. */
  lemma {:induction false} MovementsOfLines(id: nat, lines: seq<SaleLine>, doc: DocType, at: int, p: nat)
    ensures Sum(SaleMovements(id, lines, doc, at), Inventory.DeltaOf(p)) ==
            if doc == POS_SALE then -Sum(lines, SoldOf(p)) else Sum(lines, SoldOf(p))
  {
    if |lines| > 0 {
      MovementsOfLines(id, lines[..|lines| - 1], doc, at, p);
      assert SaleMovements(id, lines, doc, at)[..|lines| - 1] == SaleMovements(id, lines[..|lines| - 1], doc, at);
    }
  }

  /** Where posting stands after the first i lines, and what one more does. */
  lemma {:induction false} PostedSoFar(stock: Stock, id: nat, lines: seq<SaleLine>, doc: DocType, at: int, i: nat)
    requires i < |lines| && (doc == POS_SALE || doc == POS_VOID) && lines[i].product in stock.onHand
    requires forall l <- lines :: l.quantity > 0
    requires NoMovementsOf(stock.movements, doc, id)
    ensures var ms := SaleMovements(id, lines, doc, at);
            var now := Inventory.Moved(stock, ms[..i]);
            && Inventory.Moved(now, [ms[i]]) == Inventory.Moved(stock, ms[..i + 1])
            && Inventory.SourceUnused(now.movements, Source(doc, id, Some(i)))
            && (doc == POS_SALE ==>
                  now.onHand[lines[i].product] - lines[i].quantity >= stock.onHand[lines[i].product] - Sum(lines, SoldOf(lines[i].product)))
  {
    var ms, p := SaleMovements(id, lines, doc, at), lines[i].product;
    Inventory.MovedTwice(stock, ms[..i], [ms[i]]);
    assert ms[..i] + [ms[i]] == ms[..i + 1];
    assert ms[..i] == SaleMovements(id, lines[..i], doc, at);
    MovementsOfLines(id, lines[..i], doc, at, p);
    assert lines[..i + 1][..i] == lines[..i];
    SumPrefix(lines, i + 1, SoldOf(p));
  }

  lemma PostedAll(stock: Stock, id: nat, lines: seq<SaleLine>, at: int)
    requires forall l <- lines :: l.product in stock.onHand
    requires var after := Inventory.Moved(stock, SaleMovements(id, lines, POS_SALE, at)); forall p <- after.onHand :: after.onHand[p] >= 0
    ensures EnoughFor(stock, lines)
  {
    forall l | l in lines
      ensures Sum(lines, SoldOf(l.product)) <= stock.onHand[l.product]
    {
      MovementsOfLines(id, lines, POS_SALE, at, l.product);
      assert l.product in Inventory.Moved(stock, SaleMovements(id, lines, POS_SALE, at)).onHand;
    }
  }

  ghost predicate EnoughFor(stock: Stock, lines: seq<SaleLine>) {
    forall l <- lines :: l.product in stock.onHand && Sum(lines, SoldOf(l.product)) <= stock.onHand[l.product]
  }

  /** Posts line i on top of the lines before it. Only a sale can fail, and only on a product it asks too much of. */
  method PostLine(tx: Tx, ghost stock: Stock, id: nat, lines: seq<SaleLine>, doc: DocType, at: int, i: nat) returns (r: Option<Inventory.Error>)
    requires doc == POS_SALE || doc == POS_VOID
    requires i < |lines| && lines[i].product in stock.onHand && forall l <- lines :: l.quantity > 0
    requires NoMovementsOf(stock.movements, doc, id)
    requires tx.store.stock == Inventory.Moved(stock, SaleMovements(id, lines, doc, at)[..i])
    requires forall p <- tx.store.stock.onHand :: tx.store.stock.onHand[p] >= 0
    modifies tx
    ensures r.None? ==> tx.store == old(tx.store).(stock := Inventory.Moved(stock, SaleMovements(id, lines, doc, at)[..i + 1]))
    ensures r.None? ==> forall p <- tx.store.stock.onHand :: tx.store.stock.onHand[p] >= 0
    ensures r.Some? ==> r == Some(Inventory.InsufficientStock) && doc == POS_SALE && !EnoughFor(stock, lines)
  {
    var l := lines[i];
    assert l in lines;
    PostedSoFar(stock, id, lines, doc, at, i);
    var m := if doc == POS_SALE then Movement(l.product, -(l.quantity as int), OUT, Source(doc, id, Some(i)), at)
             else Movement(l.product, l.quantity, IN, Source(doc, id, Some(i)), at);
    assert m == SaleMovements(id, lines, doc, at)[i];
    r := Inventory.PostMovementTx(tx, m);
  }

  /** Posts the movements of a sale or a void line by line. For a sale it fails exactly when some product is short. */
  method PostLineMovements(tx: Tx, id: nat, lines: seq<SaleLine>, doc: DocType, at: int) returns (r: Option<Inventory.Error>)
    requires doc == POS_SALE || doc == POS_VOID
    requires forall l <- lines :: l.quantity > 0 && l.product in tx.store.stock.onHand
    requires forall p <- tx.store.stock.onHand :: tx.store.stock.onHand[p] >= 0
    requires NoMovementsOf(tx.store.stock.movements, doc, id)
    modifies tx
    ensures r.None? <==> doc == POS_VOID || EnoughFor(old(tx.store.stock), lines)
    ensures r.None? ==> tx.store == old(tx.store).(stock := Inventory.Moved(old(tx.store.stock), SaleMovements(id, lines, doc, at)))
    ensures r.Some? ==> r == Some(Inventory.InsufficientStock)
  {
    ghost var stock, ms := tx.store.stock, SaleMovements(id, lines, doc, at);
    Inventory.MovedNothing(stock);
    for i := 0 to |lines|
      invariant tx.store == old(tx.store).(stock := Inventory.Moved(stock, ms[..i]))
      invariant forall p <- tx.store.stock.onHand :: tx.store.stock.onHand[p] >= 0
    {
      assert lines[i] in lines;
      var posted := PostLine(tx, stock, id, lines, doc, at, i);
      if posted.Some? { return posted; }
    }
    assert ms[..|lines|] == ms;
    if doc == POS_SALE {
      PostedAll(stock, id, lines, at);
    }
    return None;
  }

  // ---------- from cart lines to sale lines ----------

  lemma {:induction false} LineSums(s: Store, items: seq<CartItem>, lines: seq<SaleLine>)
    requires LinesFor(s, items, lines)
    ensures Sum(lines, LineAmount()) == Sum(items, PriceIn(s)) && Sum(lines, LineCost()) == Sum(items, CostIn(s))
  {
    if |items| > 0 {
      LineSums(s, items[..|items| - 1], lines[..|items| - 1]);
    }
  }

  lemma {:induction false} SoldIsRequested(s: Store, items: seq<CartItem>, lines: seq<SaleLine>, sku: string)
    requires Linked(s) && LinesFor(s, items, lines) && Known(s, sku)
    ensures Sum(lines, SoldOf(s.skus[sku])) == Requested(items, sku)
  {
    if |items| > 0 {
      SoldIsRequested(s, items[..|items| - 1], lines[..|items| - 1], sku);
      var last := items[|items| - 1];
      assert last.sku == sku <==> s.skus[last.sku] == s.skus[sku];
    }
  }

  lemma {:induction false} EnoughUnlessOversold(s: Store, items: seq<CartItem>, lines: seq<SaleLine>)
    requires Linked(s) && LinesFor(s, items, lines) && !Oversold(s, items)
    ensures EnoughFor(s.stock, lines)
  {
    forall i | 0 <= i < |items|
      ensures Sum(lines, SoldOf(lines[i].product)) == Requested(items, items[i].sku)
    {
      SoldIsRequested(s, items, lines, items[i].sku);
    }
    assert forall i :: 0 <= i < |lines| ==> lines[i] in lines;
  }

  // ---------- the stock check against the posting loop ----------

  lemma {:induction false} NoLineFault(s: Store, items: seq<CartItem>, n: nat, i: nat)
    requires i < n <= |items| && FirstFault(s, items, n).None?
    ensures LineFault(s, items, i).None?
  {
    FirstFaultStays(s, items, i + 1, n);
  }

  /** Every unit costs something, so a cart asks for at most as many units of a SKU as it costs Rupiah. */
  lemma {:induction false} UnitsWithinSubtotal(s: Store, req: Request, sku: string)
    requires Bound(req) && Linked(s) && (forall item <- req.items :: Known(s, item.sku))
    ensures 0 <= Requested(req.items, sku) <= Subtotal(s, req)
  {
    forall item | item in req.items
      ensures 0 <= QuantityOf(sku)(item) <= PriceIn(s)(item)
    {
      Money.LeftFactorGrows(s.products[s.skus[item.sku]].unitPrice, item.quantity);
    }
    SumNonNegative(req.items, QuantityOf(sku));
    SumAtMost(req.items, QuantityOf(sku), PriceIn(s));
  }

  /** Once a cart is priced, its aggregated stock check counted exactly: the caps on discount and total leave no room for
      a quantity to wrap. No SKU is asked for beyond its stock, however often it is repeated. */
  lemma {:induction false} PricedCartIsInStock(s: Store, req: Request)
    requires Bound(req) && Linked(s) && QuoteFault(s, req).None?
    ensures forall item <- req.items :: Known(s, item.sku) && Requested(req.items, item.sku) <= StockOf(s, item.sku)
    ensures !Oversold(s, req.items)
  {
    forall item | item in req.items
      ensures Known(s, item.sku) && Wrap(Requested(req.items, item.sku)) <= StockOf(s, item.sku)
    {
      var i :| 0 <= i < |req.items| && req.items[i] == item;
      NoLineFault(s, req.items, |req.items|, i);
    }
    forall item | item in req.items
      ensures Requested(req.items, item.sku) <= StockOf(s, item.sku)
    {
      UnitsWithinSubtotal(s, req, item.sku);
    }
  }

  /** So the per-line posting loop of a priced cart never fails for stock. */
  lemma {:induction false} PricedCartNeverRunsShort(s: Store, req: Request, lines: seq<SaleLine>)
    requires Bound(req) && Linked(s) && QuoteFault(s, req).None? && LinesFor(s, req.items, lines)
    ensures EnoughFor(s.stock, lines)
  {
    PricedCartIsInStock(s, req);
    EnoughUnlessOversold(s, req.items, lines);
  }

  predicate StockCheckPasses(s: Store, items: seq<CartItem>) {
    forall i :: 0 <= i < |items| ==> Known(s, items[i].sku) && Wrap(Requested(items, items[i].sku)) <= StockOf(s, items[i].sku)
  }

  /** Why pricing is part of the argument: two lines of 2^62 units wrap to a negative Go int and pass the aggregated check
      on any stock, and it is the price that stops them. */
  lemma {:induction false} WrappedQuantitiesAreStoppedByPrice(s: Store, sku: string)
    requires Linked(s) && Available(s, sku) && 0 <= StockOf(s, sku) <= 0x7FFF_FFFF
    ensures var half := 0x4000_0000_0000_0000;
            var items := [CartItem(sku, half), CartItem(sku, half)];
            StockCheckPasses(s, items) && Oversold(s, items) && CartFault(s, items) == Some(InvalidMonetaryAmount)
  {
    var half := 0x4000_0000_0000_0000;
    var items := [CartItem(sku, half), CartItem(sku, half)];
    SumOfTwo(items[0], items[1], QuantityOf(sku));
    assert Requested(items, sku) == 2 * half && items[0].sku == items[1].sku == sku;
    assert Wrap(2 * half) == MIN64;
    SumOfTwo(items[0], items[1], PriceIn(s));
    Money.LeftFactorGrows(s.products[s.skus[sku]].unitPrice, half);
    assert items[..2] == items;
    assert LineFault(s, items, 1) == Some(InvalidMonetaryAmount);
    assert FirstFault(s, items, 1) == LineFault(s, items, 0);
  }

  // ---------- Checkout ----------

  /** The receipt: the sale and its row; `replayed` when it was already committed under this key. */
  datatype SaleReceipt = SaleReceipt(id: nat, sale: Sale, replayed: bool)

  method GetTransactionByIdempotencyKey(tx: Tx, key: string) returns (r: Option<nat>)
    ensures r.Some? <==> KeyUsed(tx.store.sales, key)
    ensures r.Some? ==> r.value < |tx.store.sales| && tx.store.sales[r.value].key == key
  {
    for i := 0 to |tx.store.sales|
      invariant forall k :: 0 <= k < i ==> tx.store.sales[k].key != key
    {
      if tx.store.sales[i].key == key { return Some(i); }
    }
    return None;
  }

  /** Inserts the sale row; the unique index on the key refuses a second one. */
  method CreateTransaction(tx: Tx, sale: Sale) returns (r: Option<CheckoutError>)
    modifies tx
    ensures r.None? <==> !KeyUsed(old(tx.store.sales), sale.key)
    ensures r.None? ==> tx.store == old(tx.store).(sales := old(tx.store.sales) + [sale])
    ensures r.Some? ==> r == Some(KeyTaken) && tx.store == old(tx.store)
  {
    if KeyUsed(tx.store.sales, sale.key) { return Some(KeyTaken); }
    tx.store := tx.store.(sales := tx.store.sales + [sale]);
    return None;
  }

  /** Discount and settlement: the sale row to insert, or why there is none. */
  method PriceSale(req: Request, key: string, cashier: nat, today: int, lines: seq<SaleLine>, subtotal: int64)
    returns (r: Result<Sale, CheckoutError>)
    requires subtotal >= 0
    ensures var total := subtotal - Clamped(req.discount, subtotal);
            && (r.Err? <==> || !(0 <= req.discount <= Money.MAX_TRANSACTION_AMOUNT) || total > Money.MAX_TRANSACTION_AMOUNT
                            || SettlementFault(req.payment, req.tendered, total).Some?)
            && (r.Err? ==> r.error == if !(0 <= req.discount <= Money.MAX_TRANSACTION_AMOUNT) then InvalidMonetaryAmount
                                      else if total > Money.MAX_TRANSACTION_AMOUNT then TransactionLimitExceeded
                                      else SettlementFault(req.payment, req.tendered, total).value)
            && (r.Ok? ==>
                  && 0 <= total <= Money.MAX_TRANSACTION_AMOUNT
                  && var tendered := if req.payment == CASH then req.tendered.value else 0;
                     r.value == Sale(key, cashier, lines, subtotal, Clamped(req.discount, subtotal), total, req.payment, COMPLETED,
                                     tendered, if req.payment == CASH then tendered - total else 0, today))
    ensures r.Ok? ==>
              && r.value.discount <= req.discount && r.value.discount <= subtotal
              && (r.value.discount == req.discount || r.value.discount == subtotal)
              && (req.discount <= subtotal ==> r.value.total == subtotal - req.discount)
  {
    var discount := Money.ValidateIDR(req.discount, Money.MAX_TRANSACTION_AMOUNT);
    if discount.Err? { return Err(InvalidMonetaryAmount); }
    var clamped := if discount.value.amount > subtotal then subtotal else discount.value.amount;
    var total := Money.IDR(subtotal).Sub(Money.IDR(clamped));
    if total.value.amount > Money.MAX_TRANSACTION_AMOUNT { return Err(TransactionLimitExceeded); }
    var settled := ValidatePaymentSettlement(req.payment, req.tendered, total.value.amount);
    if settled.Err? { return Err(settled.error); }
    return Ok(Sale(key, cashier, lines, subtotal, clamped, total.value.amount, req.payment, COMPLETED,
                   settled.value.0, settled.value.1, today));
  }

  /** The pricing half: nothing is written yet. */
  method Quote(s: Store, key: string, cashier: nat, req: Request, today: int) returns (r: Result<(Sale, int64), CheckoutError>)
    requires Bound(req) && Linked(s)
    ensures r.Err? <==> QuoteFault(s, req).Some?
    ensures r.Err? ==> QuoteFault(s, req) == Some(r.error)
    ensures r.Ok? ==> Quoted(s, key, cashier, req, today, r.value.0) && r.value.1 == Cogs(r.value.0) == Sum(req.items, CostIn(s)) >= 0
  {
    var skuMap := AggregateSkus(req.items);
    var priced := PriceLines(s, req.items, skuMap);
    if priced.Err? { return Err(priced.error); }
    var (lines, subtotal, cogs) := priced.value;
    LineSums(s, req.items, lines);
    PricesNonNegative(s, req.items);
    SumNonNegative(req.items, PriceIn(s));
    SumNonNegative(req.items, CostIn(s));
    var sale := PriceSale(req, key, cashier, today, lines, subtotal);
    if sale.Err? { return Err(sale.error); }
    return Ok((sale.value, cogs));
  }

  /** The writing half: the sale row, its movements, its journal. */
  method RecordSale(tx: Tx, sale: Sale, cogs: int64, at: int) returns (r: Option<CheckoutError>)
    requires forall l <- sale.lines :: l.quantity > 0 && l.product in tx.store.stock.onHand
    requires forall p <- tx.store.stock.onHand :: tx.store.stock.onHand[p] >= 0
    requires NoMovementsOf(tx.store.stock.movements, POS_SALE, |tx.store.sales|)
    requires cogs == Cogs(sale) && 0 <= sale.total <= MAX64
    modifies tx
    ensures var s := old(tx.store);
            r == if KeyUsed(s.sales, sale.key) then Some(KeyTaken)
                 else if !EnoughFor(s.stock, sale.lines) then Some(InsufficientStock)
                 else if JournalRefused(s, sale.payment, sale.total, cogs) then Some(JournalFailed)
                 else None
    ensures r.None? ==> tx.store == WithSale(old(tx.store), sale, at)
  {
    var id := |tx.store.sales|;
    var created := CreateTransaction(tx, sale);
    if created.Some? { return created; }
    var posted := PostLineMovements(tx, id, sale.lines, POS_SALE, at);
    if posted.Some? { return Some(InsufficientStock); }
    var journal := Ledger.PostPOSSaleJournal(tx, id, sale.total, cogs, sale.payment, sale.day);
    if journal.Some? { return Some(JournalFailed); }
    return None;
  }

  /** A cart whose key is not in use: priced, then recorded in the transaction. */
  method SellCart(tx: Tx, cashier: nat, key: string, req: Request, at: int, today: int) returns (r: Result<Sale, CheckoutError>)
    requires Bound(req) && Linked(tx.store) && NoMovementsOf(tx.store.stock.movements, POS_SALE, |tx.store.sales|)
    requires forall p <- tx.store.stock.onHand :: tx.store.stock.onHand[p] >= 0
    modifies tx
    ensures Refusal(old(tx.store), key, req) == if r.Ok? then None else Some(r.error)
    ensures r.Ok? ==> SaleFor(old(tx.store), key, cashier, req, today, r.value) && tx.store == WithSale(old(tx.store), r.value, at)
  {
    var quoted := Quote(tx.store, key, cashier, req, today);
    if quoted.Err? { return Err(quoted.error); }
    var (sale, cogs) := quoted.value;
    QuotedLinesSell(tx.store, key, cashier, req, today, sale);
    var failed := RecordSale(tx, sale, cogs, at);
    if failed.Some? { return Err(failed.value); }
    return Ok(sale);
  }

  /** Sells a cart in one transaction. A key already committed yields that sale again and changes nothing;
      otherwise the sale commits whole, or nothing changes and the error is the first check that fails. */
  method Checkout(db: Database, cashier: nat, key: string, req: Request, at: int, today: int) returns (r: Result<SaleReceipt, CheckoutError>)
    requires Bound(req) && Linked(db.store) && NoMovementsOf(db.store.stock.movements, POS_SALE, |db.store.sales|)
    requires forall p <- db.store.stock.onHand :: db.store.stock.onHand[p] >= 0
    modifies db
    ensures key != "" && KeyUsed(old(db.store.sales), key) ==>
              && r.Ok? && r.value.replayed && r.value.id < |old(db.store.sales)|
              && r.value.sale == old(db.store.sales)[r.value.id] && r.value.sale.key == key && db.store == old(db.store)
    ensures !(key != "" && KeyUsed(old(db.store.sales), key)) ==>
              && Refusal(old(db.store), key, req) == (if r.Ok? then None else Some(r.error))
              && (r.Ok? ==> && !r.value.replayed && r.value.id == |old(db.store.sales)|
                            && SaleFor(old(db.store), key, cashier, req, today, r.value.sale)
                            && db.store == WithSale(old(db.store), r.value.sale, at))
    ensures r.Ok? && !r.value.replayed ==>
              && r.value.sale.total == r.value.sale.subtotal - r.value.sale.discount
              && r.value.sale.discount <= req.discount
              && (req.discount <= r.value.sale.subtotal ==> r.value.sale.discount == req.discount)
              && (req.discount > r.value.sale.subtotal ==> r.value.sale.discount == r.value.sale.subtotal)
    ensures r.Err? ==> db.store == old(db.store)
  {
    var tx := db.Begin();
    if key != "" {
      var existing := GetTransactionByIdempotencyKey(tx, key);
      if existing.Some? {
        return Ok(SaleReceipt(existing.value, tx.store.sales[existing.value], true));
      }
    }
    var sold := SellCart(tx, cashier, key, req, at, today);
    if sold.Err? { return Err(sold.error); }
    db.Commit(tx);
    return Ok(SaleReceipt(|db.store.sales| - 1, sold.value, false));
  }

  lemma {:induction false} QuotedLinesSell(s: Store, key: string, cashier: nat, req: Request, today: int, sale: Sale)
    requires Bound(req) && Linked(s) && QuoteFault(s, req).None? && Quoted(s, key, cashier, req, today, sale)
    ensures forall l <- sale.lines :: l.quantity > 0 && l.product in s.stock.onHand
    ensures EnoughFor(s.stock, sale.lines)
  {
    PricedCartNeverRunsShort(s, req, sale.lines);
    forall l | l in sale.lines
      ensures l.quantity > 0 && l.product in s.stock.onHand
    {
      var i :| 0 <= i < |sale.lines| && sale.lines[i] == l;
      assert req.items[i] in req.items;
    }
  }

  // ---------- the answers in plain figures ----------

  /** The amounts of a sale: the discount asked for, up to the whole subtotal, comes off; cash is what was handed over. */
  lemma {:induction false} SaleAmounts(s: Store, key: string, cashier: nat, req: Request, today: int, sale: Sale)
    requires Quoted(s, key, cashier, req, today, sale)
    ensures sale.subtotal == Sum(sale.lines, (l: SaleLine) => l.unitPrice * l.quantity)
    ensures sale.discount == (if req.discount <= sale.subtotal then req.discount else sale.subtotal)
    ensures sale.total == sale.subtotal - sale.discount
    ensures req.discount <= sale.subtotal ==> sale.total == sale.subtotal - req.discount
    ensures req.payment == CASH ==> req.tendered == Some(sale.tendered) && sale.change == sale.tendered - sale.total >= 0
    ensures req.payment != CASH ==> req.tendered == None && sale.tendered == sale.change == 0
  {
    forall l | l in sale.lines
      ensures LineAmount()(l) == l.unitPrice * l.quantity
    {
      var i :| 0 <= i < |sale.lines| && sale.lines[i] == l;
    }
    SumCongruent(sale.lines, LineAmount(), (l: SaleLine) => l.unitPrice * l.quantity);
  }

  /** The lines of a sale: the products of the asked SKUs at today's prices, in the order asked. */
  lemma {:induction false} SaleLines(s: Store, key: string, cashier: nat, req: Request, today: int, sale: Sale)
    requires Quoted(s, key, cashier, req, today, sale)
    ensures |sale.lines| == |req.items|
    ensures forall i :: 0 <= i < |req.items| ==>
              && req.items[i].sku in s.skus && sale.lines[i].product == s.skus[req.items[i].sku] && sale.lines[i].product in s.products
              && sale.lines[i].quantity == req.items[i].quantity && sale.lines[i].sku == s.products[sale.lines[i].product].sku
              && sale.lines[i].unitPrice == s.products[sale.lines[i].product].unitPrice
              && sale.lines[i].costPrice == s.products[sale.lines[i].product].costPrice
              && sale.lines[i].subtotal == sale.lines[i].unitPrice * sale.lines[i].quantity
    ensures (sale.key, sale.cashier, sale.payment, sale.status, sale.day) == (key, cashier, req.payment, COMPLETED, today)
  {
  }

  /** What a sale leaves: its row at the end, an OUT movement per line, every balance down by what its lines sold, one journal
      of four lines, and nothing else touched. */
  lemma {:induction false} SaleLeaves(s: Store, sale: Sale, at: int)
    ensures var t := WithSale(s, sale, at);
            && t.sales == s.sales + [sale] && t == s.(sales := t.sales, stock := t.stock, entries := t.entries)
            && |t.stock.movements| == |s.stock.movements| + |sale.lines| && t.stock.movements[..|s.stock.movements|] == s.stock.movements
            && (forall i :: 0 <= i < |sale.lines| ==>
                  t.stock.movements[|s.stock.movements| + i] ==
                  Movement(sale.lines[i].product, -(sale.lines[i].quantity as int), OUT, Source(POS_SALE, |s.sales|, Some(i)), at))
            && t.stock.onHand.Keys == s.stock.onHand.Keys
    ensures forall p <- s.stock.onHand ::
              WithSale(s, sale, at).stock.onHand[p] == s.stock.onHand[p] - Sum(sale.lines, (l: SaleLine) => if l.product == p then l.quantity else 0)
    ensures var cogs := Sum(sale.lines, (l: SaleLine) => l.costPrice * l.quantity);
            WithSale(s, sale, at).entries == s.entries +
            [Entry(POS_SALE, Some(|s.sales|), sale.day, POSTED, None,
                   [Line(if sale.payment == CASH then 1010 else 1020, sale.total, 0), Line(4010, 0, sale.total), Line(5010, cogs, 0), Line(1030, 0, cogs)])]
  {
    forall p | p in s.stock.onHand
      ensures WithSale(s, sale, at).stock.onHand[p] == s.stock.onHand[p] - Sum(sale.lines, (l: SaleLine) => if l.product == p then l.quantity else 0)
    {
      MovementsOfLines(|s.sales|, sale.lines, POS_SALE, at, p);
      SumCongruent(sale.lines, SoldOf(p), (l: SaleLine) => if l.product == p then l.quantity else 0);
    }
    SumCongruent(sale.lines, LineCost(), (l: SaleLine) => l.costPrice * l.quantity);
  }
}
