/** Which orders can be received to the end: exactly those that list each product once. */
module Receivability {
  import opened Wrappers
  import opened Int64
  import opened Tables
  import opened Sums
  import opened PurchaseOrders
  import opened Receipts
  import opened GoodsReceipts
  import opened Events
  import opened Integrity
  import opened OrderBooks
  import opened Runs
  import Compliance

  // ---------- a receipt of everything outstanding ----------

  predicate StillExpected(olines: seq<OrderLine>, received: nat -> int, p: nat) {
    p in ByProduct(olines) && received(p) < ByProduct(olines)[p].quantity
  }

  function RestOf(olines: seq<OrderLine>, received: nat -> int, p: nat): ReceiptLine
    requires StillExpected(olines, received, p)
  {
    var q := ByProduct(olines)[p].quantity - received(p);
    ReceiptLine(p, q, q, 0, PASS)
  }

  /** The outstanding quantities of the products below n, in product order. */
  function Rest(olines: seq<OrderLine>, received: nat -> int, n: nat): seq<ReceiptLine> {
    if n == 0 then []
    else Rest(olines, received, n - 1) + if StillExpected(olines, received, n - 1) then [RestOf(olines, received, n - 1)] else []
  }

  /** A bound above every product of the order. */
  function Above(olines: seq<OrderLine>): nat {
    if |olines| == 0 then 0
    else
      var (rest, last) := (Above(olines[..|olines| - 1]), olines[|olines| - 1].product + 1);
      if rest > last then rest else last
  }

  lemma {:induction false} AboveAll(olines: seq<OrderLine>)
    ensures forall p <- ByProduct(olines) :: p < Above(olines)
  {
    if |olines| > 0 {
      AboveAll(olines[..|olines| - 1]);
    }
  }

  lemma {:induction false} RestFits(olines: seq<OrderLine>, received: nat -> int, n: nat)
    ensures InProductOrder(Rest(olines, received, n))
    ensures forall l <- Rest(olines, received, n) :: l.product < n && LineFits(olines, received, l)
  {
    if n > 0 {
      RestFits(olines, received, n - 1);
      var rest := Rest(olines, received, n - 1);
      assert forall i :: 0 <= i < |rest| ==> rest[i] in rest;
    }
  }

  lemma {:induction false} RestAccepts(olines: seq<OrderLine>, received: nat -> int, n: nat, p: nat)
    ensures AcceptedFor(p, Rest(olines, received, n)) ==
            if p < n && StillExpected(olines, received, p) then ByProduct(olines)[p].quantity - received(p) else 0
  {
    if n > 0 {
      RestAccepts(olines, received, n - 1, p);
      var rest := Rest(olines, received, n - 1);
      if StillExpected(olines, received, n - 1) {
        SumAppend(rest, RestOf(olines, received, n - 1), AcceptedOf(p));
      } else {
        assert rest + [] == rest;
      }
    }
  }

  /** Receiving everything outstanding on an open order fits it and fills it. */
  lemma {:induction false} RestFills(o: Order, received: nat -> int)
    requires DistinctProducts(o.lines) && Open(o) && Standing(o, received)
    ensures var rest := Rest(o.lines, received, Above(o.lines));
            Deliverable(o.lines, received, rest) && NextStatus(o, received, rest) == RECEIVED
  {
    var rest := Rest(o.lines, received, Above(o.lines));
    RestFits(o.lines, received, Above(o.lines));
    AboveAll(o.lines);
    ByProductFinds(o.lines);
    forall l | l in o.lines
      ensures received(l.product) + AcceptedFor(l.product, rest) == l.quantity
    {
      RestAccepts(o.lines, received, Above(o.lines), l.product);
    }
    var l :| l in o.lines && received(l.product) != l.quantity;
    assert AcceptedFor(l.product, rest) != AcceptedFor(l.product, []);
  }

  function RestReceipt(s: Store, k: nat, key: string, outcome: ComplianceOutcome): Receipt
    requires k < |s.orders|
  {
    Receipt(key, k, Rest(s.orders[k].lines, ReceivedOn(s.receipts, k), Above(s.orders[k].lines)), outcome)
  }

  /** An open order that lists each product once, passes the gate and finds its accounts active can be received in full
      under any unused key. */
  lemma {:induction false} OpenOrderIsReceivable(s: Store, k: nat, key: string, outcome: ComplianceOutcome, at: int, day: int)
    requires k < |s.orders| && OrderSafe(s, k) && Open(s.orders[k]) && DistinctProducts(s.orders[k].lines)
    requires key != "" && !ReceiptKeyUsed(s.receipts, key) && !ReceiptJournalRefused(s)
    requires Compliance.Passes(s, s.orders[k].supplier, s.orders[k].cert, day, outcome)
    ensures var e := Receive(RestReceipt(s, k, key, outcome), at, day);
            Enabled(s, e) && Apply(s, e).orders[k].status == RECEIVED
  {
    RestFills(s.orders[k], ReceivedOn(s.receipts, k));
  }

  // ---------- the request for it ----------

  /** A request for one line in the older form: only a received quantity. */
  function Asking(l: ReceiptLine): ReceiptItem
    requires 0 < l.accepted <= MAX64
  {
    ReceiptItem(l.product, None, None, None, l.accepted, "")
  }

  /** The same line as the receiving dialog sends it: delivered and accepted in full, nothing rejected. */
  function Inspecting(l: ReceiptLine): ReceiptItem
    requires 0 < l.accepted <= MAX64
  {
    ReceiptItem(l.product, Some(l.accepted), Some(l.accepted), Some(0), 0, "")
  }

  /** Asking for exactly these lines, each in either form, is accepted item by item. */
  lemma {:induction false} RequestAccepted(olines: seq<OrderLine>, received: nat -> int, lines: seq<ReceiptLine>, items: seq<ReceiptItem>, n: nat)
    requires n <= |lines| == |items| && InProductOrder(lines)
    requires forall l <- lines :: LineFits(olines, received, l) && 0 < l.accepted == l.delivered <= MAX64 && l.rejected == 0
    requires forall i :: 0 <= i < |items| ==> lines[i] in lines && items[i] in {Asking(lines[i]), Inspecting(lines[i])}
    ensures Receipts.ItemsFault(olines, received, items, n).None?
  {
    if n > 0 {
      RequestAccepted(olines, received, lines, items, n - 1);
      assert lines[n - 1] in lines;
    }
  }

  lemma {:induction false} RestIsAllAccepted(olines: seq<OrderLine>, received: nat -> int, n: nat)
    ensures forall l <- Rest(olines, received, n) :: l.accepted == l.delivered && l.rejected == 0
  {
    if n > 0 {
      RestIsAllAccepted(olines, received, n - 1);
    }
  }

  /** The request that asks for everything outstanding, in either form, is not at fault. */
  lemma {:induction false} RestCanBeAsked(o: Order, received: nat -> int, items: seq<ReceiptItem>)
    requires OrderSound(o) && DistinctProducts(o.lines) && Open(o) && Standing(o, received)
    requires var rest := Rest(o.lines, received, Above(o.lines));
             |items| == |rest| && forall i :: 0 <= i < |items| ==> 0 < rest[i].accepted <= MAX64 && items[i] in {Asking(rest[i]), Inspecting(rest[i])}
    ensures ReconcileFault(items, o.lines, received).None?
  {
    var rest := Rest(o.lines, received, Above(o.lines));
    RestFills(o, received);
    RestIsAllAccepted(o.lines, received, Above(o.lines));
    forall l | l in rest
      ensures 0 < l.accepted <= MAX64
    {
      var i :| 0 <= i < |rest| && rest[i] == l;
    }
    RequestAccepted(o.lines, received, rest, items, |items|);
  }

  // ---------- orders that list a product twice ----------

  /** Nothing stops such an order from being issued. */
  lemma {:induction false} DuplicatesAreIssued(s: Store, p: nat, supplier: nat, cert: Option<nat>, day: int, outcome: ComplianceOutcome)
    requires OnSale(s, p) && Compliance.Passes(s, supplier, cert, day, outcome)
    ensures var items := [OrderItem(p, 1, 1), OrderItem(p, 1, 1)];
            var o := Order(supplier, cert, 2, ISSUED, [OrderLine(p, 1, 1, 1), OrderLine(p, 1, 1, 1)], outcome);
            PurchaseOrders.ItemsFault(items, |items|).None? && Enabled(s, PlaceOrder(items, o, day)) && !DistinctProducts(o.lines)
  {
    var items := [OrderItem(p, 1, 1), OrderItem(p, 1, 1)];
    var lines := [OrderLine(p, 1, 1, 1), OrderLine(p, 1, 1, 1)];
    SumOfTwo(items[0], items[1], CostOf());
    SumOfTwo(lines[0], lines[1], SubtotalOf());
    assert items[..2] == items && items[..1] == [] + [items[0]];
    SumAppend([], items[0], CostOf());
    assert PurchaseOrders.ItemsFault(items, 1).None?;
    assert lines[0].product == lines[1].product;
    assert OrderFor(supplier, cert, items, Order(supplier, cert, 2, ISSUED, lines, outcome));
  }

  /** In a consistent store it has no receipt, and stands as it was issued or cancelled. */
  lemma {:induction false} DuplicatesHaveNoReceipt(s: Store, k: nat)
    requires Filed(s) && k < |s.orders| && !DistinctProducts(s.orders[k].lines)
    ensures (forall r <- s.receipts :: r.order != k) && s.orders[k].status in {ISSUED, CANCELLED}
  {
    forall r | r in s.receipts
      ensures r.order != k
    {
      assert ReceiptRowSound(s, r);
    }
    forall p
      ensures Received(s.receipts, k, p) == 0
    {
      SumZero(s.receipts, AcceptedIn(k, p));
    }
    var o := s.orders[k];
    assert OrderSafe(s, k) && OrderRowSound(s, o);
    assert o.lines[0] in o.lines && LineSound(o.lines[0]);
    assert !Full(o, ReceivedOn(s.receipts, k));
    assert !Something(ReceivedOn(s.receipts, k));
    assert o.status.DRAFT? || o.status.ISSUED? || o.status.PARTIALLY_RECEIVED? || o.status.RECEIVED? || o.status.CANCELLED?;
  }

  lemma {:induction false} LinesStayForever(s: Store, es: seq<Event>, k: nat)
    requires CanRun(s, es) && k < |s.orders|
    ensures k < |After(s, es).orders| && After(s, es).orders[k].lines == s.orders[k].lines
    decreases |es|
  {
    if |es| > 0 {
      OrderLinesStay(s, es[0], k);
      LinesStayForever(Apply(s, es[0]), es[1..], k);
    }
  }

  /** No run ever gives it a receipt. */
  lemma {:induction false} DuplicatesAreNeverReceived(s: Store, es: seq<Event>, k: nat)
    requires Consistent(s) && CanRun(s, es) && k < |s.orders| && !DistinctProducts(s.orders[k].lines)
    ensures var t := After(s, es);
            k < |t.orders| && t.orders[k].status in {ISSUED, CANCELLED} && forall r <- t.receipts :: r.order != k
  {
    RunsKeepConsistent(s, es);
    LinesStayForever(s, es, k);
    DuplicatesHaveNoReceipt(After(s, es), k);
  }

  // ---------- both together ----------

  lemma {:induction false} OneEvent(s: Store, e: Event)
    requires Enabled(s, e)
    ensures CanRun(s, [e]) && After(s, [e]) == Apply(s, e)
  {
    assert [e][1..] == [];
    assert CanRun(Apply(s, e), []) && After(Apply(s, e), []) == Apply(s, e);
  }

  /** Some run brings order k to RECEIVED. */
  ghost predicate Completable(s: Store, k: nat) {
    exists es :: CanRun(s, es) && CompleteAfter(s, es, k)
  }

  ghost predicate CompleteAfter(s: Store, es: seq<Event>, k: nat)
    requires CanRun(s, es)
  {
    k < |After(s, es).orders| && After(s, es).orders[k].status == RECEIVED
  }

  lemma {:induction false} DuplicatesAreNotCompletable(s: Store, k: nat)
    requires Consistent(s) && k < |s.orders| && !DistinctProducts(s.orders[k].lines)
    ensures !Completable(s, k)
  {
    forall es | CanRun(s, es)
      ensures !CompleteAfter(s, es, k)
    {
      DuplicatesAreNeverReceived(s, es, k);
    }
  }

  lemma {:induction false} OneReceiptCompletes(s: Store, k: nat, e: Event)
    requires k < |s.orders| && Enabled(s, e) && k < |Apply(s, e).orders| && Apply(s, e).orders[k].status == RECEIVED
    ensures Completable(s, k)
  {
    OneEvent(s, e);
    assert CompleteAfter(s, [e], k);
  }

  /** An open order that passes the gate, with active accounts and an unused key, can be completed by some run if and only
      if it lists each product once. */
  lemma {:induction false} CompletableIffDistinct(s: Store, k: nat, key: string, outcome: ComplianceOutcome, at: int, day: int)
    requires Consistent(s) && k < |s.orders| && Open(s.orders[k])
    requires key != "" && !ReceiptKeyUsed(s.receipts, key) && !ReceiptJournalRefused(s)
    requires Compliance.Passes(s, s.orders[k].supplier, s.orders[k].cert, day, outcome)
    ensures Completable(s, k) <==> DistinctProducts(s.orders[k].lines)
  {
    if DistinctProducts(s.orders[k].lines) {
      OpenOrderIsReceivable(s, k, key, outcome, at, day);
      OneReceiptCompletes(s, k, Receive(RestReceipt(s, k, key, outcome), at, day));
    } else {
      DuplicatesAreNotCompletable(s, k);
    }
  }
}
