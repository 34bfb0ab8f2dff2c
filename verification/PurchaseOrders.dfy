/** Creating and cancelling purchase orders (backend/internal/supplychain). */
module PurchaseOrders {
  import opened Wrappers
  import opened Int64
  import opened Tables
  import opened Database
  import opened Sums
  import opened Sorting
  import opened Compliance
  import Money

  datatype OrderError = InvalidQuantity | InvalidMonetaryAmount | ProductNotAvailable | NotCompliant(reason: ComplianceError)
                      | OrderNotFound | CannotCancelWithAcceptedGoods | CannotCancel

  datatype OrderItem = OrderItem(product: nat, quantity: int, unitCost: int)

  function CostOf(): OrderItem -> int {
    (item: OrderItem) => item.unitCost * item.quantity
  }

  function SubtotalOf(): OrderLine -> int {
    (l: OrderLine) => l.subtotal
  }

  predicate ItemInBounds(item: OrderItem) {
    1 <= item.quantity <= Money.MAX_LINE_ITEM_QUANTITY && 0 <= item.unitCost <= Money.MAX_TRANSACTION_AMOUNT
  }

  /** The first thing wrong with the first n items: a quantity, a unit cost, or a running total beyond the cap. */
  function ItemsFault(items: seq<OrderItem>, n: nat): Option<OrderError>
    requires n <= |items|
  {
    if n == 0 then None
    else if ItemsFault(items, n - 1).Some? then ItemsFault(items, n - 1)
    else if !(1 <= items[n - 1].quantity <= Money.MAX_LINE_ITEM_QUANTITY) then Some(InvalidQuantity)
    else if !ItemInBounds(items[n - 1]) || Sum(items[..n], CostOf()) > Money.MAX_TRANSACTION_AMOUNT then Some(InvalidMonetaryAmount)
    else None
  }

  lemma {:induction false} ItemsFaultStays(items: seq<OrderItem>, k: nat, n: nat)
    requires k <= n <= |items|
    ensures ItemsFault(items, k).Some? ==> ItemsFault(items, n) == ItemsFault(items, k)
  {
    if k < n {
      ItemsFaultStays(items, k, n - 1);
    }
  }

  predicate OnSale(s: Store, p: nat) {
    p in s.products && s.products[p].isActive
  }

  // ---------- what an order is ----------

  ghost predicate LinesAsked(items: seq<OrderItem>, lines: seq<OrderLine>) {
    && |lines| == |items|
    && forall i :: 0 <= i < |items| ==> && lines[i].product == items[i].product && lines[i].quantity == items[i].quantity
                                        && lines[i].unitCost == items[i].unitCost && lines[i].subtotal == CostOf()(items[i])
  }

  ghost predicate LineSound(l: OrderLine) {
    && 1 <= l.quantity <= Money.MAX_LINE_ITEM_QUANTITY && 0 <= l.unitCost <= Money.MAX_TRANSACTION_AMOUNT
    && l.subtotal == l.unitCost * l.quantity
  }

  /** Every committed order: lines in bounds, and a total that is exactly what they add up to. */
  ghost predicate OrderSound(o: Order) {
    && |o.lines| >= 1 && (forall l <- o.lines :: LineSound(l))
    && 0 <= o.total == Sum(o.lines, SubtotalOf()) <= Money.MAX_TRANSACTION_AMOUNT
    && o.status != DRAFT
  }

  ghost predicate OrderFor(supplier: nat, cert: Option<nat>, items: seq<OrderItem>, o: Order) {
    && o.supplier == supplier && o.cert == cert && o.status == ISSUED && LinesAsked(items, o.lines) && OrderSound(o)
  }

  function WithOrder(s: Store, o: Order): Store {
    s.(orders := s.orders + [o])
  }

  // ---------- creation ----------

  lemma {:induction false} NextItem(items: seq<OrderItem>, i: nat)
    requires i < |items| && ItemInBounds(items[i])
    ensures Sum(items[..i + 1], CostOf()) == Sum(items[..i], CostOf()) + CostOf()(items[i])
    ensures CostOf()(items[i]) >= 0
  {
    assert items[..i + 1][..i] == items[..i];
    assert items[i].unitCost * items[i].quantity >= 0;
  }

  /** Prices one item on top of the total so far. */
  method PriceItem(items: seq<OrderItem>, i: nat, total: int64) returns (r: Result<(OrderLine, int64), OrderError>)
    requires i < |items| && ItemsFault(items, i).None?
    requires 0 <= total == Sum(items[..i], CostOf()) <= Money.MAX_TRANSACTION_AMOUNT
    ensures ItemsFault(items, i + 1) == if r.Ok? then None else Some(r.error)
    ensures r.Ok? ==>
              && 0 <= r.value.1 == Sum(items[..i + 1], CostOf()) <= Money.MAX_TRANSACTION_AMOUNT
              && LinesAsked([items[i]], [r.value.0]) && LineSound(r.value.0)
  {
    var item := items[i];
    if item.quantity <= 0 || item.quantity > Money.MAX_LINE_ITEM_QUANTITY { return Err(InvalidQuantity); }
    var unitCost := Money.ValidateIDR(item.unitCost, Money.MAX_TRANSACTION_AMOUNT);
    if unitCost.Err? { return Err(InvalidMonetaryAmount); }
    NextItem(items, i);
    var subtotal := Money.TimesExact(unitCost.value.amount, item.quantity);
    if subtotal.Err? { return Err(InvalidMonetaryAmount); }
    var next := Money.AddExact(total, subtotal.value.amount);
    if next.Err? { return Err(InvalidMonetaryAmount); }
    if next.value > Money.MAX_TRANSACTION_AMOUNT { return Err(InvalidMonetaryAmount); }
    return Ok((OrderLine(item.product, item.quantity, unitCost.value.amount, subtotal.value.amount), next.value));
  }

  lemma {:induction false} SubtotalsAreCosts(items: seq<OrderItem>, lines: seq<OrderLine>)
    requires LinesAsked(items, lines)
    ensures Sum(lines, SubtotalOf()) == Sum(items, CostOf())
  {
    if |items| > 0 {
      SubtotalsAreCosts(items[..|items| - 1], lines[..|items| - 1]);
    }
  }

  method PriceItems(items: seq<OrderItem>) returns (r: Result<(seq<OrderLine>, int64), OrderError>)
    ensures ItemsFault(items, |items|) == if r.Ok? then None else Some(r.error)
    ensures r.Ok? ==>
              && LinesAsked(items, r.value.0) && (forall l <- r.value.0 :: LineSound(l))
              && 0 <= r.value.1 == Sum(r.value.0, SubtotalOf()) <= Money.MAX_TRANSACTION_AMOUNT
  {
    var lines: seq<OrderLine> := [];
    var total: int64 := 0;
    for i := 0 to |items|
      invariant ItemsFault(items, i).None?
      invariant LinesAsked(items[..i], lines) && forall l <- lines :: LineSound(l)
      invariant 0 <= total == Sum(items[..i], CostOf()) <= Money.MAX_TRANSACTION_AMOUNT
    {
      ItemsFaultStays(items, i + 1, |items|);
      var line := PriceItem(items, i, total);
      if line.Err? { return Err(line.error); }
      lines := lines + [line.value.0];
      total := line.value.1;
    }
    assert items[..|items|] == items;
    SubtotalsAreCosts(items, lines);
    return Ok((lines, total));
  }

  function ProductId(): OrderLine -> int {
    (l: OrderLine) => l.product
  }

  /** Locks the product rows in id order; every one must be active. */
  method LockActiveProductsForPurchaseOrder(s: Store, lines: seq<OrderLine>) returns (r: Option<OrderError>)
    ensures r == if forall l <- lines :: OnSale(s, l.product) then None else Some(ProductNotAvailable)
  {
    var sorted := SortBy(lines, ProductId());
    for i := 0 to |sorted|
      invariant forall k :: 0 <= k < i ==> OnSale(s, sorted[k].product)
    {
      if !OnSale(s, sorted[i].product) {
        assert sorted[i] in sorted;
        return Some(ProductNotAvailable);
      }
    }
    return None;
  }

  /** Issues an order in one transaction: items in bounds, compliance, then every product active. */
  method CreatePurchaseOrder(db: Database, supplier: nat, cert: Option<nat>, items: seq<OrderItem>, day: int)
    returns (r: Result<nat, OrderError>)
    requires |items| >= 1
    modifies db
    ensures var s := old(db.store);
            && (r.Ok? <==> && ItemsFault(items, |items|).None? && !Blocked(s, supplier, cert, day)
                           && forall item <- items :: OnSale(s, item.product))
            && (ItemsFault(items, |items|).Some? ==> r == Err(ItemsFault(items, |items|).value))
            && (ItemsFault(items, |items|).None? && r.Err? ==>
                  r.error == if Blocked(s, supplier, cert, day) then NotCompliant(BlockReason(s, supplier, cert, day)) else ProductNotAvailable)
            && (r.Ok? ==>
                  && r.value == |s.orders|
                  && exists o :: OrderFor(supplier, cert, items, o) && Passes(s, supplier, cert, day, o.decision) && db.store == WithOrder(s, o))
    ensures r.Err? ==> db.store == old(db.store)
  {
    var priced := PriceItems(items);
    if priced.Err? { return Err(priced.error); }
    var (lines, total) := priced.value;
    var tx := db.Begin();
    var decision := CheckCompliance(tx.store, supplier, cert, day);
    if decision.Err? { return Err(NotCompliant(decision.error)); }
    var unavailable := LockActiveProductsForPurchaseOrder(tx.store, lines);
    assert (forall l <- lines :: OnSale(tx.store, l.product)) <==> (forall item <- items :: OnSale(tx.store, item.product)) by {
      assert forall i :: 0 <= i < |items| ==> lines[i] in lines && items[i] in items && lines[i].product == items[i].product;
    }
    if unavailable.Some? { return Err(unavailable.value); }
    var o := Order(supplier, cert, total, ISSUED, lines, decision.value);
    assert OrderFor(supplier, cert, items, o);
    tx.store := tx.store.(orders := tx.store.orders + [o]);
    db.Commit(tx);
    return Ok(|db.store.orders| - 1);
  }

  // ---------- what has been received ----------

  function AcceptedOf(p: nat): ReceiptLine -> int {
    (l: ReceiptLine) => if l.product == p then l.accepted else 0
  }

  function AcceptedIn(order: nat, p: nat): Receipt -> int {
    (r: Receipt) => if r.order == order then Sum(r.lines, AcceptedOf(p)) else 0
  }

  /** Accepted so far of product p on one order, over all its receipts. */
  function Received(receipts: seq<Receipt>, order: nat, p: nat): int {
    Sum(receipts, AcceptedIn(order, p))
  }

  ghost predicate AcceptsSome(receipts: seq<Receipt>, order: nat) {
    exists p :: Received(receipts, order, p) > 0
  }

  function ReceiptProducts(receipts: seq<Receipt>, order: nat): set<nat> {
    set r, l | r in receipts && r.order == order && l in r.lines :: l.product
  }

  /** SUM(received_quantity) GROUP BY product over the receipts of one order. */
  function GetReceivedQuantities(receipts: seq<Receipt>, order: nat): map<nat, int> {
    map p | p in ReceiptProducts(receipts, order) :: Received(receipts, order, p)
  }

  /** Reading a Go map: a missing key is zero. */
  function Lookup(m: map<nat, int>, p: nat): int {
    if p in m then m[p] else 0
  }

  lemma {:induction false} ReceivedIsLookup(receipts: seq<Receipt>, order: nat, p: nat)
    ensures Lookup(GetReceivedQuantities(receipts, order), p) == Received(receipts, order, p)
  {
    if p !in ReceiptProducts(receipts, order) {
      forall r | r in receipts
        ensures AcceptedIn(order, p)(r) == 0
      {
        if r.order == order {
          assert forall l <- r.lines :: l.product in ReceiptProducts(receipts, order);
          SumZero(r.lines, AcceptedOf(p));
        }
      }
      SumZero(receipts, AcceptedIn(order, p));
    }
  }

  // ---------- cancellation ----------

  function WithCancellation(s: Store, id: nat): Store
    requires id < |s.orders|
  {
    s.(orders := s.orders[id := s.orders[id].(status := CANCELLED)])
  }

  /** Adds up a product-to-quantity map; of non-negative quantities the total is positive when one of them is. */
  method TotalAccepted(received: map<nat, int>) returns (total: int)
    requires forall p <- received :: received[p] >= 0
    ensures total > 0 <==> exists p <- received :: received[p] > 0
  {
    total := 0;
    var rest := received.Keys;
    while rest != {}
      invariant rest <= received.Keys && total >= 0
      invariant total > 0 <==> exists p <- received :: p !in rest && received[p] > 0
    {
      var p :| p in rest;
      rest := rest - {p};
      total := total + received[p];
    }
  }

  /** Cancels an order nothing was accepted on. A cancelled order stays cancelled and the call reports success. */
  method CancelPurchaseOrder(db: Database, id: nat) returns (r: Option<OrderError>)
    requires forall p :: Received(db.store.receipts, id, p) >= 0
    modifies db
    ensures var s := old(db.store);
            r == if id >= |s.orders| then Some(OrderNotFound)
                 else if s.orders[id].status == CANCELLED then None
                 else if AcceptsSome(s.receipts, id) then Some(CannotCancelWithAcceptedGoods)
                 else if s.orders[id].status in {DRAFT, ISSUED} then None
                 else Some(CannotCancel)
    ensures db.store == if r.None? then WithCancellation(old(db.store), id) else old(db.store)
    ensures r.None? ==> && id < |old(db.store.orders)|
                        && db.store == old(db.store).(orders := old(db.store.orders)[id := old(db.store.orders)[id].(status := CANCELLED)])
  {
    var tx := db.Begin();
    if id >= |tx.store.orders| { return Some(OrderNotFound); }
    var order := tx.store.orders[id];
    if order.status == CANCELLED {
      assert tx.store.orders[id := order] == tx.store.orders;
      return None;
    }
    var received := GetReceivedQuantities(tx.store.receipts, id);
    forall p
      ensures Lookup(received, p) == Received(tx.store.receipts, id, p)
    {
      ReceivedIsLookup(tx.store.receipts, id, p);
    }
    var total := TotalAccepted(received);
    if total > 0 { return Some(CannotCancelWithAcceptedGoods); }
    if order.status != DRAFT && order.status != ISSUED { return Some(CannotCancel); }
    tx.store := tx.store.(orders := tx.store.orders[id := order.(status := CANCELLED)]);
    db.Commit(tx);
    return None;
  }

  // ---------- the answers in plain figures ----------

  /** A fine item: 1 to 99999 units at 0 to a billion each. */
  predicate FineItem(item: OrderItem) {
    1 <= item.quantity <= 99_999 && 0 <= item.unitCost <= 1_000_000_000
  }

  /** Items pass exactly when each is fine and they cost at most a billion together. */
  lemma {:induction false} ItemsPassExactlyWhen(items: seq<OrderItem>, n: nat)
    requires n <= |items|
    ensures ItemsFault(items, n).None? <==>
              && (forall i :: 0 <= i < n ==> FineItem(items[i]))
              && Sum(items[..n], (item: OrderItem) => item.unitCost * item.quantity) <= 1_000_000_000
  {
    SumCongruent(items[..n], CostOf(), (item: OrderItem) => item.unitCost * item.quantity);
    if n > 0 {
      ItemsPassExactlyWhen(items, n - 1);
      SumCongruent(items[..n - 1], CostOf(), (item: OrderItem) => item.unitCost * item.quantity);
      if FineItem(items[n - 1]) {
        NextItem(items, n - 1);
      }
    }
  }

  /** The first item that does not pass decides the answer. */
  lemma {:induction false} FirstBadItemAnswers(items: seq<OrderItem>, k: nat)
    requires k < |items| && (forall i :: 0 <= i < k ==> FineItem(items[i]))
    requires Sum(items[..k], (item: OrderItem) => item.unitCost * item.quantity) <= 1_000_000_000
    ensures !(1 <= items[k].quantity <= 99_999) ==> ItemsFault(items, |items|) == Some(InvalidQuantity)
    ensures 1 <= items[k].quantity <= 99_999 && (items[k].unitCost < 0 || items[k].unitCost > 1_000_000_000) ==>
              ItemsFault(items, |items|) == Some(InvalidMonetaryAmount)
    ensures FineItem(items[k]) && Sum(items[..k + 1], (item: OrderItem) => item.unitCost * item.quantity) > 1_000_000_000 ==>
              ItemsFault(items, |items|) == Some(InvalidMonetaryAmount)
  {
    ItemsPassExactlyWhen(items, k);
    SumCongruent(items[..k + 1], CostOf(), (item: OrderItem) => item.unitCost * item.quantity);
    ItemsFaultStays(items, k + 1, |items|);
  }

  /** The order as issued: its items line by line at the costs asked, for what they cost together, at the end of the table. */
  lemma {:induction false} OrderSaysWhatWasAsked(s: Store, supplier: nat, cert: Option<nat>, items: seq<OrderItem>, o: Order)
    requires OrderFor(supplier, cert, items, o)
    ensures o.supplier == supplier && o.cert == cert && o.status == ISSUED && |o.lines| == |items|
    ensures forall i :: 0 <= i < |items| ==>
              && (o.lines[i].product, o.lines[i].quantity, o.lines[i].unitCost as int) == (items[i].product, items[i].quantity, items[i].unitCost)
              && o.lines[i].subtotal == items[i].unitCost * items[i].quantity
    ensures o.total == Sum(items, (item: OrderItem) => item.unitCost * item.quantity)
    ensures WithOrder(s, o) == s.(orders := s.orders + [o])
  {
    SubtotalsAreCosts(items, o.lines);
    SumCongruent(items, CostOf(), (item: OrderItem) => item.unitCost * item.quantity);
  }

  /** Something was accepted on an order exactly when a line of one of its receipts accepted goods. */
  lemma {:induction false} AcceptsSomeExactlyWhen(receipts: seq<Receipt>, order: nat)
    requires forall r <- receipts, l <- r.lines :: l.accepted >= 0
    ensures AcceptsSome(receipts, order) <==> exists r <- receipts, l <- r.lines :: r.order == order && l.accepted > 0
  {
    forall p | Received(receipts, order, p) > 0
      ensures exists r <- receipts, l <- r.lines :: r.order == order && l.accepted > 0
    {
      if forall r <- receipts :: AcceptedIn(order, p)(r) == 0 {
        SumZero(receipts, AcceptedIn(order, p));
      } else {
        var r :| r in receipts && AcceptedIn(order, p)(r) != 0;
        if forall l <- r.lines :: AcceptedOf(p)(l) == 0 {
          SumZero(r.lines, AcceptedOf(p));
        }
      }
    }
    forall r, l | r in receipts && l in r.lines && r.order == order && l.accepted > 0
      ensures Received(receipts, order, l.product) > 0
    {
      AcceptedCounts(receipts, order, r, l);
    }
  }

  lemma {:induction false} AcceptedCounts(receipts: seq<Receipt>, order: nat, r: Receipt, l: ReceiptLine)
    requires forall r <- receipts, l <- r.lines :: l.accepted >= 0
    requires r in receipts && l in r.lines && r.order == order
    ensures Received(receipts, order, l.product) >= l.accepted
  {
    var i :| 0 <= i < |receipts| && receipts[i] == r;
    var k :| 0 <= k < |r.lines| && r.lines[k] == l;
    forall x | x in receipts
      ensures AcceptedIn(order, l.product)(x) >= 0
    {
      SumNonNegative(x.lines, AcceptedOf(l.product));
    }
    SumTerm(r.lines, k, AcceptedOf(l.product));
    SumTerm(receipts, i, AcceptedIn(order, l.product));
  }
}
