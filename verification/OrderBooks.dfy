/** Purchase orders against receipts, stock, products and payables, over every event. */
module OrderBooks {
  import opened Wrappers
  import opened Tables
  import opened Sums
  import opened PurchaseOrders
  import opened Receipts
  import opened GoodsReceipts
  import opened Catalogue
  import opened Events
  import opened Integrity
  import opened SalesBooks
  import opened Inventory
  import Checkout
  import Ledger

  // ---------- the life of an order ----------

  /** Every line has been accepted in full, no more and no less. */
  ghost predicate Full(o: Order, received: nat -> int) {
    forall l <- o.lines :: received(l.product) == l.quantity
  }

  ghost predicate Nothing(received: nat -> int) {
    forall p :: received(p) == 0
  }

  ghost predicate Something(received: nat -> int) {
    exists p :: received(p) > 0
  }

  /** Acceptance never goes below zero or beyond what was ordered, and the status says where the order stands. */
  ghost predicate Standing(o: Order, received: nat -> int) {
    && (forall l <- o.lines :: 0 <= received(l.product) <= l.quantity)
    && (forall p :: p !in ByProduct(o.lines) ==> received(p) == 0)
    && (o.status == ISSUED || o.status == CANCELLED ==> Nothing(received))
    && (o.status == PARTIALLY_RECEIVED ==> Something(received) && !Full(o, received))
    && (o.status == RECEIVED <==> Full(o, received))
  }

  ghost predicate OrderSafe(s: Store, k: nat)
    requires k < |s.orders|
  {
    Standing(s.orders[k], ReceivedOn(s.receipts, k))
  }

  lemma {:induction false} ReceivedAfter(s: Store, e: Event, k: nat, p: nat)
    requires Addressed(s, e)
    ensures Received(Apply(s, e).receipts, k, p) ==
            Received(s.receipts, k, p) + if e.Receive? && e.receipt.order == k then AcceptedFor(p, e.receipt.lines) else 0
  {
    if e.Receive? {
      SumAppend(s.receipts, e.receipt, AcceptedIn(k, p));
    } else {
      ApplyFrame(s, e);
    }
  }

  /** How the orders table changes. */
  lemma {:induction false} OrdersAfter(s: Store, e: Event, k: nat)
    requires Enabled(s, e) && k < |Apply(s, e).orders|
    ensures var t := Apply(s, e);
            && (k >= |s.orders| ==> e.PlaceOrder? && k == |s.orders| && t.orders[k] == e.order && e.order.status == ISSUED)
            && (k < |s.orders| && e.Receive? && e.receipt.order == k ==>
                  t.orders[k] == s.orders[k].(status := NextStatus(s.orders[k], ReceivedOn(s.receipts, k), e.receipt.lines)))
            && (k < |s.orders| && e.CancelOrder? && e.cancelled == k ==> t.orders[k] == s.orders[k].(status := CANCELLED))
            && (k < |s.orders| && !(e.Receive? && e.receipt.order == k) && !(e.CancelOrder? && e.cancelled == k) ==> t.orders[k] == s.orders[k])
  {
    ApplyFrame(s, e);
  }

  /** What one receipt line adds stays within the order line. */
  lemma {:induction false} AcceptedWithin(olines: seq<OrderLine>, received: nat -> int, lines: seq<ReceiptLine>, p: nat)
    requires Deliverable(olines, received, lines)
    ensures AcceptedFor(p, lines) >= 0 && (p !in ByProduct(olines) ==> AcceptedFor(p, lines) == 0)
    ensures p in ByProduct(olines) && received(p) <= ByProduct(olines)[p].quantity ==>
              AcceptedFor(p, lines) <= ByProduct(olines)[p].quantity - received(p)
    ensures HasAccepted(lines) ==> exists l <- lines :: AcceptedFor(l.product, lines) > 0
    ensures !HasAccepted(lines) ==> AcceptedFor(p, lines) == 0
  {
    AcceptedOnce(lines, p);
    SumNonNegative(lines, AcceptedOf(p));
  }

  /** Quantities that fit what is outstanding move an open order to where they put it. */
  lemma {:induction false} StandingMoves(o: Order, before: nat -> int, more: nat -> int, after: nat -> int)
    requires Standing(o, before) && Open(o) && (forall p :: more(p) >= 0 && after(p) == before(p) + more(p))
    requires forall p :: p !in ByProduct(o.lines) ==> more(p) == 0
    requires forall l <- o.lines :: after(l.product) <= l.quantity
    ensures var next := if Full(o, after) then RECEIVED else if Something(more) && o.status == ISSUED then PARTIALLY_RECEIVED else o.status;
            Standing(o.(status := next), after)
  {
    if Something(more) {
      var p :| more(p) > 0;
      var l := ByProduct(o.lines)[p];
      ByProductFinds(o.lines);
      assert l in o.lines && after(p) > 0;
    } else if o.status == PARTIALLY_RECEIVED {
      var p :| before(p) > 0;
      assert after(p) > 0;
    }
  }

  function AcceptedBy(lines: seq<ReceiptLine>): nat -> int {
    (p: nat) => AcceptedFor(p, lines)
  }

  lemma {:induction false} DeliveryFits(o: Order, before: nat -> int, after: nat -> int, lines: seq<ReceiptLine>)
    requires Standing(o, before) && DistinctProducts(o.lines) && Deliverable(o.lines, before, lines)
    requires forall p :: after(p) == before(p) + AcceptedFor(p, lines)
    ensures forall p :: AcceptedBy(lines)(p) >= 0
    ensures forall p :: p !in ByProduct(o.lines) ==> AcceptedBy(lines)(p) == 0
    ensures forall l <- o.lines :: after(l.product) <= l.quantity
  {
    forall p
      ensures AcceptedFor(p, lines) >= 0 && (p !in ByProduct(o.lines) ==> AcceptedFor(p, lines) == 0)
    {
      AcceptedWithin(o.lines, before, lines, p);
    }
    forall l | l in o.lines
      ensures after(l.product) <= l.quantity
    {
      ByProductFinds(o.lines);
      AcceptedWithin(o.lines, before, lines, l.product);
    }
  }

  lemma {:induction false} SomethingIsAccepted(olines: seq<OrderLine>, received: nat -> int, lines: seq<ReceiptLine>)
    requires Deliverable(olines, received, lines)
    ensures Something(AcceptedBy(lines)) <==> HasAccepted(lines)
  {
    AcceptedWithin(olines, received, lines, 0);
    if HasAccepted(lines) {
      var l :| l in lines && AcceptedFor(l.product, lines) > 0;
      assert AcceptedBy(lines)(l.product) > 0;
    } else {
      forall p
        ensures AcceptedBy(lines)(p) == 0
      {
        AcceptedWithin(olines, received, lines, p);
      }
    }
  }

  /** A delivery that fits moves an open order to where its new quantities put it. */
  lemma {:induction false} ReceivingKeepsStanding(o: Order, before: nat -> int, after: nat -> int, lines: seq<ReceiptLine>)
    requires Standing(o, before) && Open(o) && DistinctProducts(o.lines) && Deliverable(o.lines, before, lines)
    requires forall p :: after(p) == before(p) + AcceptedFor(p, lines)
    ensures Standing(o.(status := NextStatus(o, before, lines)), after)
  {
    DeliveryFits(o, before, after, lines);
    SomethingIsAccepted(o.lines, before, lines);
    StandingMoves(o, before, AcceptedBy(lines), after);
    assert NextStatus(o, before, lines) == RECEIVED <==> Full(o, after);
  }

  lemma {:induction false} NewOrderUntouched(s: Store)
    requires RowsSound(s)
    ensures Nothing(ReceivedOn(s.receipts, |s.orders|))
  {
    forall p
      ensures Received(s.receipts, |s.orders|, p) == 0
    {
      SumZero(s.receipts, AcceptedIn(|s.orders|, p));
    }
  }

  /** Nothing accepted means the order is issued or cancelled, never received: every line asks for something. */
  lemma NothingMeansStanding(o: Order, received: nat -> int)
    requires OrderSound(o) && Nothing(received) && (o.status == ISSUED || o.status == CANCELLED)
    ensures Standing(o, received)
  {
    assert o.lines[0] in o.lines && LineSound(o.lines[0]);
    assert forall l <- o.lines :: LineSound(l);
  }

  lemma SameReceivedSameStanding(o: Order, before: nat -> int, after: nat -> int)
    requires Standing(o, before) && forall p :: after(p) == before(p)
    ensures Standing(o, after)
  {
    if Something(before) {
      var p :| before(p) > 0;
      assert after(p) > 0;
    }
  }

  lemma NothingWithoutSome(s: Store, k: nat)
    requires RowsSound(s) && !AcceptsSome(s.receipts, k)
    ensures Nothing(ReceivedOn(s.receipts, k))
  {
    ReceivedNonNegative(s.receipts, k);
  }

  lemma {:induction false} KeepsOrderSafe(s: Store, e: Event, k: nat)
    requires RowsSound(s) && Enabled(s, e) && k < |Apply(s, e).orders| && (k < |s.orders| ==> OrderSafe(s, k))
    ensures OrderSafe(Apply(s, e), k)
  {
    var t := Apply(s, e);
    var before, after := ReceivedOn(s.receipts, k), ReceivedOn(t.receipts, k);
    forall p
      ensures after(p) == before(p) + if e.Receive? && e.receipt.order == k then AcceptedFor(p, e.receipt.lines) else 0
    {
      ReceivedAfter(s, e, k, p);
    }
    OrdersAfter(s, e, k);
    OrdersStaySound(s, e);
    assert t.orders[k] in t.orders;
    if e.Receive? && e.receipt.order == k {
      ReceivingKeepsStanding(s.orders[k], before, after, e.receipt.lines);
    } else if k >= |s.orders| {
      NewOrderUntouched(s);
      NothingMeansStanding(t.orders[k], after);
    } else if e.CancelOrder? && e.cancelled == k {
      NothingWithoutSome(s, k);
      NothingMeansStanding(t.orders[k], after);
    } else {
      SameReceivedSameStanding(s.orders[k], before, after);
    }
  }

  /** A received or cancelled order is closed for good. */
  lemma {:induction false} ClosedOrdersStay(s: Store, e: Event, k: nat)
    requires Enabled(s, e) && k < |s.orders| && (s.orders[k].status == RECEIVED || s.orders[k].status == CANCELLED)
    ensures k < |Apply(s, e).orders| && Apply(s, e).orders[k] == s.orders[k]
    ensures forall p :: Received(Apply(s, e).receipts, k, p) == Received(s.receipts, k, p)
  {
    OrderLinesStay(s, e, k);
    OrdersAfter(s, e, k);
    forall p
      ensures Received(Apply(s, e).receipts, k, p) == Received(s.receipts, k, p)
    {
      ReceivedAfter(s, e, k, p);
    }
  }

  // ---------- open orders and switched-off products ----------

  /** What is still outstanding after an event was outstanding before, or was just ordered. */
  lemma {:induction false} OutstandingBefore(s: Store, e: Event, k: nat, i: nat)
    requires Enabled(s, e)
    requires k < |Apply(s, e).orders| && i < |Apply(s, e).orders[k].lines| && LineOutstanding(Apply(s, e), k, i)
    ensures k < |s.orders| ==> i < |s.orders[k].lines| && LineOutstanding(s, k, i) && Apply(s, e).orders[k].lines[i] == s.orders[k].lines[i]
    ensures k >= |s.orders| ==> e.PlaceOrder? && Apply(s, e).orders[k] == e.order
  {
    OrdersAfter(s, e, k);
    if k < |s.orders| {
      var p := s.orders[k].lines[i].product;
      ReceivedAfter(s, e, k, p);
      if e.Receive? && e.receipt.order == k {
        AcceptedWithin(s.orders[k].lines, ReceivedOn(s.receipts, k), e.receipt.lines, p);
      }
    }
  }

  /** Switching a product off never strands an open order. */
  lemma {:induction false} KeepsOpenOrdersActive(s: Store, e: Event)
    requires OpenOrdersActive(s) && Enabled(s, e)
    ensures OpenOrdersActive(Apply(s, e))
  {
    var t := Apply(s, e);
    forall k, i | 0 <= k < |t.orders| && 0 <= i < |t.orders[k].lines| && LineOutstanding(t, k, i)
      ensures OnSale(t, t.orders[k].lines[i].product)
    {
      OutstandingBefore(s, e, k, i);
      OutstandingOnSale(s, e, k, i);
    }
  }

  lemma {:induction false} OutstandingOnSale(s: Store, e: Event, k: nat, i: nat)
    requires OpenOrdersActive(s) && Enabled(s, e) && k < |Apply(s, e).orders| && i < |Apply(s, e).orders[k].lines|
    requires k < |s.orders| ==> i < |s.orders[k].lines| && LineOutstanding(s, k, i) && Apply(s, e).orders[k].lines[i] == s.orders[k].lines[i]
    requires k >= |s.orders| ==> e.PlaceOrder? && Apply(s, e).orders[k] == e.order
    ensures OnSale(Apply(s, e), Apply(s, e).orders[k].lines[i].product)
  {
    ApplyFrame(s, e);
    if k < |s.orders| {
      assert OnSale(s, s.orders[k].lines[i].product);
    } else {
      assert e.items[i] in e.items;
    }
  }

  // ---------- receipts against stock and payables ----------

  function CreditOn(a: nat): Line -> int {
    (l: Line) => if l.account == a then l.credit else 0
  }

  /** What the goods-receipt journal of receipt i credits to payables. */
  function PayableFor(i: nat): Entry -> int {
    (e: Entry) => if e.doc == GOODS_RECEIPT && e.docId == Some(i) then Sum(e.lines, CreditOn(Ledger.PAYABLE)) else 0
  }

  function ReceiptValue(s: Store, r: Receipt): int
    requires r.order < |s.orders|
  {
    Valuation(s.orders[r.order].lines, r.lines)
  }

  /** Receipt i has brought in exactly its accepted goods, and its journal is worth what they are worth. */
  ghost predicate ReceiptBooked(s: Store, i: nat)
    requires i < |s.receipts| && s.receipts[i].order < |s.orders|
  {
    && (forall p :: Sum(s.stock.movements, MovedFor(GOODS_RECEIPT, i, p)) == AcceptedFor(p, s.receipts[i].lines))
    && Sum(s.entries, PayableFor(i)) == ReceiptValue(s, s.receipts[i])
  }

  ghost predicate ReceiptKeysUnique(s: Store) {
    forall i, j :: 0 <= i < j < |s.receipts| ==> s.receipts[i].key != s.receipts[j].key
  }

  ghost predicate ReceiptEntriesKnown(s: Store) {
    forall e <- s.entries :: e.doc == GOODS_RECEIPT ==> e.docId.Some? && e.docId.value < |s.receipts|
  }

  ghost predicate Filed(s: Store) {
    && RowsSound(s) && ReceiptKeysUnique(s) && ReceiptEntriesKnown(s) && OpenOrdersActive(s)
    && (forall i :: 0 <= i < |s.receipts| ==> s.receipts[i] in s.receipts && ReceiptBooked(s, i))
    && (forall k :: 0 <= k < |s.orders| ==> OrderSafe(s, k))
  }

  lemma {:induction false} ReceiptMoves(id: nat, lines: seq<ReceiptLine>, at: int, i: nat, p: nat)
    requires forall l <- lines :: l.accepted >= 0
    ensures Sum(ReceiptMovements(id, lines, at), MovedFor(GOODS_RECEIPT, i, p)) == if i == id then AcceptedFor(p, lines) else 0
  {
    var ms := ReceiptMovements(id, lines, at);
    ReceiptSources(id, lines, at);
    if i == id {
      SumCongruent(ms, MovedFor(GOODS_RECEIPT, i, p), DeltaOf(p));
      ReceiptDeltas(id, lines, at, p);
    } else {
      SumZero(ms, MovedFor(GOODS_RECEIPT, i, p));
    }
  }

  lemma {:induction false} NewMovesForReceipt(s: Store, e: Event, i: nat, p: nat)
    requires Enabled(s, e)
    ensures Sum(NewMovements(s, e), MovedFor(GOODS_RECEIPT, i, p)) ==
            if e.Receive? && i == |s.receipts| then AcceptedFor(p, e.receipt.lines) else 0
  {
    match e
    case Receive(r, at, _) => ReceiptMoves(|s.receipts|, r.lines, at, i, p);
    case _ => SumZero(NewMovements(s, e), MovedFor(GOODS_RECEIPT, i, p));
  }

  lemma {:induction false} NewPayable(s: Store, e: Event, i: nat)
    requires Enabled(s, e) && (e.Receive? ==> ReceiptValue(s, e.receipt) >= 0)
    ensures Sum(NewEntries(s, e), PayableFor(i)) == if e.Receive? && i == |s.receipts| then ReceiptValue(s, e.receipt) else 0
  {
    var more := NewEntries(s, e);
    if |more| == 1 {
      SumOfOne(more[0], PayableFor(i));
      assert more == [more[0]];
    }
    if e.Receive? && |more| == 1 {
      SumOfTwo(more[0].lines[0], more[0].lines[1], CreditOn(Ledger.PAYABLE));
      assert more[0].lines == [more[0].lines[0], more[0].lines[1]];
    }
  }

  lemma PayableIsSourceFigure(i: nat)
    ensures SourceFigure(PayableFor(i))
  {
    forall e: Entry, status, mark
      ensures PayableFor(i)(e.(status := status, reversedBy := mark)) == PayableFor(i)(e)
    {
      var marked := e.(status := status, reversedBy := mark);
      assert marked.lines == e.lines && marked.doc == e.doc && marked.docId == e.docId;
    }
  }

  lemma NoReceiptBefore(s: Store, i: nat, p: nat)
    requires SourcesKnown(s) && ReceiptEntriesKnown(s) && i >= |s.receipts|
    ensures Sum(s.stock.movements, MovedFor(GOODS_RECEIPT, i, p)) == 0 && Sum(s.entries, PayableFor(i)) == 0
  {
    SumZero(s.stock.movements, MovedFor(GOODS_RECEIPT, i, p));
    SumZero(s.entries, PayableFor(i));
  }

  /** A receipt is never changed, and an event adds at most one. */
  lemma {:induction false} ReceiptsAfter(s: Store, e: Event, i: nat)
    requires Addressed(s, e) && i < |Apply(s, e).receipts|
    ensures i < |s.receipts| ==> Apply(s, e).receipts[i] == s.receipts[i]
    ensures i >= |s.receipts| ==> e.Receive? && i == |s.receipts| && Apply(s, e).receipts[i] == e.receipt
  {
    ApplyFrame(s, e);
  }

  lemma {:induction false} KeepsReceiptBooked(s: Store, e: Event, i: nat)
    requires SourcesKnown(s) && ReceiptEntriesKnown(s) && Enabled(s, e) && (e.Receive? ==> ReceiptValue(s, e.receipt) >= 0)
    requires i < |Apply(s, e).receipts| && Apply(s, e).receipts[i].order < |s.orders| && (i < |s.receipts| ==> ReceiptBooked(s, i))
    ensures Apply(s, e).receipts[i].order < |Apply(s, e).orders| && ReceiptBooked(Apply(s, e), i)
  {
    var t := Apply(s, e);
    ReceiptsAfter(s, e, i);
    OrderLinesStay(s, e, t.receipts[i].order);
    forall p
      ensures Sum(t.stock.movements, MovedFor(GOODS_RECEIPT, i, p)) == AcceptedFor(p, t.receipts[i].lines)
    {
      MovementsMove(s, e, MovedFor(GOODS_RECEIPT, i, p));
      NewMovesForReceipt(s, e, i, p);
      if i >= |s.receipts| { NoReceiptBefore(s, i, p); }
    }
    PayableIsSourceFigure(i);
    EntriesMove(s, e, PayableFor(i));
    NewPayable(s, e, i);
    if i >= |s.receipts| { NoReceiptBefore(s, i, 0); }
  }

  lemma {:induction false} KeepsReceiptEntriesKnown(s: Store, e: Event)
    requires ReceiptEntriesKnown(s) && Addressed(s, e)
    ensures ReceiptEntriesKnown(Apply(s, e))
  {
    ApplyGrows(s, e);
    var t := Apply(s, e);
    if e.ReverseEntry? {
      forall x | x in t.entries && x.doc == GOODS_RECEIPT
        ensures x.docId.Some? && x.docId.value < |t.receipts|
      {
        var k :| 0 <= k < |t.entries| && t.entries[k] == x;
        assert s.entries[k] in s.entries;
      }
    } else {
      ApplyPosts(s, e);
      assert forall x <- NewEntries(s, e) :: x.doc == GOODS_RECEIPT ==> x.docId.Some? && x.docId.value < |t.receipts|;
    }
  }

  lemma {:induction false} KeepsReceiptKeysUnique(s: Store, e: Event)
    requires ReceiptKeysUnique(s) && Enabled(s, e)
    ensures ReceiptKeysUnique(Apply(s, e))
  {
    forall i, j | 0 <= i < j < |Apply(s, e).receipts|
      ensures Apply(s, e).receipts[i].key != Apply(s, e).receipts[j].key
    {
      ReceiptsAfter(s, e, i);
      ReceiptsAfter(s, e, j);
    }
  }

  lemma {:induction false} ReceivedValueNonNegative(s: Store, e: Event)
    requires RowsSound(s) && Enabled(s, e)
    ensures e.Receive? ==> e.receipt.order < |s.orders| && ReceiptValue(s, e.receipt) >= 0
  {
    if e.Receive? {
      var r := e.receipt;
      assert s.orders[r.order] in s.orders;
      ReceivedNonNegative(s.receipts, r.order);
      ValueWithinOrder(s.orders[r.order], ReceivedOn(s.receipts, r.order), r.lines);
    }
  }

  lemma {:induction false} KeepsFiled(s: Store, e: Event)
    requires Checkout.Linked(s) && SourcesKnown(s) && Filed(s) && Enabled(s, e)
    ensures Filed(Apply(s, e))
  {
    var t := Apply(s, e);
    KeepsRowsSound(s, e);
    KeepsReceiptKeysUnique(s, e);
    KeepsReceiptEntriesKnown(s, e);
    KeepsOpenOrdersActive(s, e);
    ReceivedValueNonNegative(s, e);
    forall i | 0 <= i < |t.receipts|
      ensures t.receipts[i] in t.receipts && t.receipts[i].order < |t.orders| && ReceiptBooked(t, i)
    {
      ReceiptsAfter(s, e, i);
      if i < |s.receipts| { assert s.receipts[i] in s.receipts; }
      KeepsReceiptBooked(s, e, i);
    }
    forall k | 0 <= k < |t.orders|
      ensures OrderSafe(t, k)
    {
      KeepsOrderSafe(s, e, k);
    }
  }
}
