/** What a goods receipt reads from its request and what it leaves, said in the request's own figures. */
module ReceiptTerms {
  import opened Wrappers
  import opened Int64
  import opened Tables
  import opened Sums
  import opened PurchaseOrders
  import opened Receipts
  import opened GoodsReceipts
  import Compliance
  import Inventory

  /** Delivered, accepted and rejected. The older form counts everything received as accepted; in the inspected form a missing
      figure is zero. */
  datatype Figures = Figures(delivered: int, accepted: int, rejected: int)

  function Asked(item: ReceiptItem): Figures {
    match (item.delivered, item.accepted, item.rejected)
    case (None, None, None) => Figures(item.received, item.received, 0)
    case (d, a, r) => Figures(Given(d), Given(a), Given(r))
  }

  function Given(figure: Option<int64>): int {
    match figure
    case None => 0
    case Some(n) => n
  }

  predicate AddsUp(f: Figures) {
    f.delivered >= 1 && f.accepted >= 0 && f.rejected >= 0 && f.accepted + f.rejected == f.delivered
  }

  /** The item is on the order, adds up, gives a reason for what it rejects, and delivers no more than is outstanding. */
  ghost predicate FitsLine(item: ReceiptItem, o: OrderLine, received: int) {
    && item.product == o.product && AddsUp(Asked(item))
    && (Asked(item).rejected > 0 ==> !Compliance.Blank(item.reason))
    && received + Asked(item).delivered <= o.quantity
  }

  // ---------- reading one item ----------

  /** With all three figures given, the committed line carries exactly them, and the outcome they show. */
  lemma {:induction false} InspectedFiguresAreKept(item: ReceiptItem, l: ReceiptLine)
    requires LineStates(item, l) && item.delivered.Some? && item.accepted.Some? && item.rejected.Some?
    ensures l.delivered == item.delivered.value && l.accepted == item.accepted.value && l.rejected == item.rejected.value
    ensures l.outcome == (if l.rejected == 0 then PASS else if l.accepted == 0 then REJECT else PARTIAL_ACCEPT)
  {
  }

  lemma {:induction false} LineSaysWhatWasAsked(item: ReceiptItem, l: ReceiptLine)
    requires LineStates(item, l)
    ensures var f := Asked(item);
            l == ReceiptLine(item.product, f.delivered, f.accepted, f.rejected,
                             if f.rejected == 0 then PASS else if f.accepted == 0 then REJECT else PARTIAL_ACCEPT)
  {
  }

  lemma {:induction false} FoundOnOrder(olines: seq<OrderLine>, o: OrderLine)
    requires DistinctProducts(olines) && o in olines
    ensures o.product in ByProduct(olines) && ByProduct(olines)[o.product] == o
  {
    ByProductFinds(olines);
  }

  /** Which answer one item gets, check by check. */
  lemma {:induction false} ItemAnswers(olines: seq<OrderLine>, received: nat -> int, items: seq<ReceiptItem>, i: nat)
    requires i < |items| && DistinctProducts(olines)
    ensures (exists j :: 0 <= j < i && items[j].product == items[i].product) ==> ItemFault(olines, received, items, i) == Some(DuplicateReceiptItem)
    ensures (forall j :: 0 <= j < i ==> items[j].product != items[i].product) && (forall o <- olines :: o.product != items[i].product) ==>
              ItemFault(olines, received, items, i) == Some(ReceiptItemNotOnOrder)
    ensures forall o <- olines :: o.product == items[i].product && (forall j :: 0 <= j < i ==> items[j].product != items[i].product) ==>
              ItemFault(olines, received, items, i) ==
              if !AddsUp(Asked(items[i])) then Some(InvalidQcArithmetic)
              else if Asked(items[i]).rejected > 0 && Compliance.Blank(items[i].reason) then Some(QcReasonRequired)
              else if received(o.product) + Asked(items[i]).delivered > o.quantity then Some(QuantityExceeds)
              else None
  {
    ByProductFinds(olines);
  }

  // ---------- the whole request ----------

  ghost predicate FitsSomeLine(item: ReceiptItem, olines: seq<OrderLine>, received: nat -> int) {
    exists o <- olines :: FitsLine(item, o, received(o.product))
  }

  ghost predicate NewItem(items: seq<ReceiptItem>, i: nat)
    requires i < |items|
  {
    forall j :: 0 <= j < i ==> items[j].product != items[i].product
  }

  lemma {:induction false} ItemPasses(olines: seq<OrderLine>, received: nat -> int, items: seq<ReceiptItem>, i: nat)
    requires i < |items| && DistinctProducts(olines)
    ensures ItemFault(olines, received, items, i).None? <==> NewItem(items, i) && FitsSomeLine(items[i], olines, received)
  {
    ItemAnswers(olines, received, items, i);
  }

  lemma {:induction false} FittingItems(olines: seq<OrderLine>, received: nat -> int, items: seq<ReceiptItem>, n: nat)
    requires n <= |items| && DistinctProducts(olines)
    ensures Receipts.ItemsFault(olines, received, items, n).None? <==>
              forall i :: 0 <= i < n ==> NewItem(items, i) && FitsSomeLine(items[i], olines, received)
  {
    if n > 0 {
      FittingItems(olines, received, items, n - 1);
      ItemPasses(olines, received, items, n - 1);
    }
  }

  lemma {:induction false} NoProductTwice(items: seq<ReceiptItem>)
    ensures (forall i :: 0 <= i < |items| ==> NewItem(items, i)) <==> forall i, j :: 0 <= i < j < |items| ==> items[i].product != items[j].product
  {
    if forall i :: 0 <= i < |items| ==> NewItem(items, i) {
      forall i, j | 0 <= i < j < |items|
        ensures items[i].product != items[j].product
      {
        assert NewItem(items, j);
      }
    }
  }

  lemma {:induction false} EachFitsSome(olines: seq<OrderLine>, received: nat -> int, items: seq<ReceiptItem>)
    ensures (forall i :: 0 <= i < |items| ==> FitsSomeLine(items[i], olines, received)) <==>
            forall item <- items :: exists o <- olines :: FitsLine(item, o, received(o.product))
  {
    assert forall item <- items :: FitsSomeLine(item, olines, received) <==> exists o <- olines :: FitsLine(item, o, received(o.product));
    assert forall i :: 0 <= i < |items| ==> items[i] in items;
  }

  /** A request is accepted exactly when it has items, the order lists each product once, no item repeats a product, and every
      item fits its order line. */
  lemma {:induction false} AcceptedExactlyWhen(olines: seq<OrderLine>, received: nat -> int, items: seq<ReceiptItem>)
    ensures ReconcileFault(items, olines, received).None? <==>
              && items != []
              && (forall i, j :: 0 <= i < j < |olines| ==> olines[i].product != olines[j].product)
              && (forall i, j :: 0 <= i < j < |items| ==> items[i].product != items[j].product)
              && (forall item <- items :: exists o <- olines :: FitsLine(item, o, received(o.product)))
  {
    NoProductTwice(items);
    EachFitsSome(olines, received, items);
    if DistinctProducts(olines) {
      FittingItems(olines, received, items, |items|);
    }
  }

  /** In particular the dialog's form: delivered, accepted and rejected all given for one product of the order. */
  lemma {:induction false} InspectedRequestIsAccepted(olines: seq<OrderLine>, received: nat -> int, o: OrderLine, d: int64, a: int64, r: int64, reason: string)
    requires DistinctProducts(olines) && o in olines
    requires d == a + r > 0 && a >= 0 && r >= 0 && d <= o.quantity - received(o.product)
    requires r > 0 ==> !Compliance.Blank(reason)
    ensures ReconcileFault([ReceiptItem(o.product, Some(d), Some(a), Some(r), 0, reason)], olines, received).None?
  {
    var items := [ReceiptItem(o.product, Some(d), Some(a), Some(r), 0, reason)];
    assert FitsLine(items[0], o, received(o.product));
    AcceptedExactlyWhen(olines, received, items);
  }

  // ---------- the committed lines ----------

  /** Each requested item is one committed line, and each committed line is a requested item. */
  lemma {:induction false} ItemHasLine(r: Receipt, order: nat, key: string, items: seq<ReceiptItem>, i: nat) returns (l: ReceiptLine)
    requires AnswersRequest(r, order, key, items) && i < |items|
    ensures l in r.lines && |r.lines| == |items|
    ensures var f := Asked(items[i]);
            l == ReceiptLine(items[i].product, f.delivered, f.accepted, f.rejected,
                             if f.rejected == 0 then PASS else if f.accepted == 0 then REJECT else PARTIAL_ACCEPT)
  {
    var stated :| |stated| == |items| && AllStated(items, stated) && multiset(stated) == multiset(r.lines);
    assert |multiset(stated)| == |stated| && |multiset(r.lines)| == |r.lines|;
    assert stated[i] in multiset(stated) && stated[i] in multiset(r.lines);
    l := stated[i];
    LineSaysWhatWasAsked(items[i], l);
  }

  lemma {:induction false} LineHasItem(r: Receipt, order: nat, key: string, items: seq<ReceiptItem>, l: ReceiptLine) returns (i: nat)
    requires AnswersRequest(r, order, key, items) && l in r.lines
    ensures i < |items| && LineStates(items[i], l)
  {
    var stated :| |stated| == |items| && AllStated(items, stated) && multiset(stated) == multiset(r.lines);
    assert l in multiset(r.lines) && l in multiset(stated);
    i :| 0 <= i < |stated| && stated[i] == l;
  }

  lemma {:induction false} AcceptedAsAsked(r: Receipt, order: nat, key: string, items: seq<ReceiptItem>, i: nat)
    requires AnswersRequest(r, order, key, items) && NoRepeats(r.lines) && i < |items|
    ensures AcceptedFor(items[i].product, r.lines) == Asked(items[i]).accepted && exists l <- r.lines :: l.product == items[i].product
  {
    var l := ItemHasLine(r, order, key, items, i);
    AcceptedOnce(r.lines, items[i].product);
  }

  lemma {:induction false} NothingForOthers(r: Receipt, order: nat, key: string, items: seq<ReceiptItem>, p: nat)
    requires AnswersRequest(r, order, key, items) && forall item <- items :: item.product != p
    ensures AcceptedFor(p, r.lines) == 0
  {
    forall l | l in r.lines
      ensures AcceptedOf(p)(l) == 0
    {
      var i := LineHasItem(r, order, key, items, l);
      assert items[i] in items;
    }
    SumZero(r.lines, AcceptedOf(p));
  }

  /** Every requested product goes up by exactly its accepted figure, and no other product moves. */
  lemma {:induction false} AcceptedGoesOnStock(s: Store, r: Receipt, order: nat, key: string, items: seq<ReceiptItem>, at: int, day: int)
    requires r.order < |s.orders| && AnswersRequest(r, order, key, items) && InProductOrder(r.lines)
    requires forall l <- r.lines :: l.product in s.stock.onHand && l.accepted >= 0
    ensures var t := WithReceipt(s, r, at, day);
            && t.stock.onHand.Keys == s.stock.onHand.Keys
            && (forall i :: 0 <= i < |items| ==>
                  items[i].product in s.stock.onHand &&
                  t.stock.onHand[items[i].product] == s.stock.onHand[items[i].product] + Asked(items[i]).accepted)
            && (forall p <- s.stock.onHand :: (forall item <- items :: item.product != p) ==> t.stock.onHand[p] == s.stock.onHand[p])
  {
    var t := WithReceipt(s, r, at, day);
    var ms := ReceiptMovements(|s.receipts|, r.lines, at);
    forall p: nat
      ensures Sum(ms, Inventory.DeltaOf(p)) == AcceptedFor(p, r.lines)
    {
      ReceiptDeltas(|s.receipts|, r.lines, at, p);
    }
    assert t.stock == Inventory.Moved(s.stock, ms);
    forall i | 0 <= i < |items|
      ensures items[i].product in s.stock.onHand
      ensures t.stock.onHand[items[i].product] == s.stock.onHand[items[i].product] + Asked(items[i]).accepted
    {
      AcceptedAsAsked(r, order, key, items, i);
    }
    forall p | p in s.stock.onHand && (forall item <- items :: item.product != p)
      ensures t.stock.onHand[p] == s.stock.onHand[p]
    {
      NothingForOthers(r, order, key, items, p);
    }
  }

  /** With the three inspection figures given, that is the accepted figure itself. */
  lemma {:induction false} InspectedGoesOnStock(s: Store, r: Receipt, order: nat, key: string, items: seq<ReceiptItem>, i: nat, at: int, day: int)
    requires r.order < |s.orders| && AnswersRequest(r, order, key, items) && InProductOrder(r.lines)
    requires i < |items| && items[i].delivered.Some? && items[i].accepted.Some? && items[i].rejected.Some?
    requires forall l <- r.lines :: l.product in s.stock.onHand && l.accepted >= 0
    ensures items[i].product in s.stock.onHand
    ensures WithReceipt(s, r, at, day).stock.onHand[items[i].product] == s.stock.onHand[items[i].product] + items[i].accepted.value
    ensures exists l <- r.lines :: l.product == items[i].product && l.delivered == items[i].delivered.value
                                   && l.accepted == items[i].accepted.value && l.rejected == items[i].rejected.value
  {
    AcceptedGoesOnStock(s, r, order, key, items, at, day);
    var l := ItemHasLine(r, order, key, items, i);
  }

  // ---------- what a receipt leaves ----------

  /** Accepted of one product on one receipt, and over all receipts of an order. */
  function TakenOf(p: nat): ReceiptLine -> int {
    (l: ReceiptLine) => if l.product == p then l.accepted else 0
  }

  function TakenIn(order: nat, p: nat): Receipt -> int {
    (r: Receipt) => if r.order == order then Sum(r.lines, TakenOf(p)) else 0
  }

  /** What an order line costs for what a receipt accepts of it. */
  function CostTaken(lines: seq<ReceiptLine>): OrderLine -> int {
    (o: OrderLine) => o.unitCost * Sum(lines, TakenOf(o.product))
  }

  lemma {:induction false} TakenIsAccepted(receipts: seq<Receipt>, order: nat, p: nat, lines: seq<ReceiptLine>)
    ensures Sum(receipts, TakenIn(order, p)) == Received(receipts, order, p) && Sum(lines, TakenOf(p)) == AcceptedFor(p, lines)
  {
    SumCongruent(lines, TakenOf(p), AcceptedOf(p));
    forall r | r in receipts
      ensures TakenIn(order, p)(r) == AcceptedIn(order, p)(r)
    {
      SumCongruent(r.lines, TakenOf(p), AcceptedOf(p));
    }
    SumCongruent(receipts, TakenIn(order, p), AcceptedIn(order, p));
  }

  /** The row is added; the order is RECEIVED once everything ordered was accepted, PARTIALLY_RECEIVED once an ISSUED order got
      something, and keeps its status otherwise; accepted goods at order cost are debited to 1030 and credited to 2010. */
  lemma {:induction false} ReceiptLeaves(s: Store, r: Receipt, at: int, day: int)
    requires r.order < |s.orders| && DistinctProducts(s.orders[r.order].lines)
    ensures var t, o := WithReceipt(s, r, at, day), s.orders[r.order];
            var value := Sum(o.lines, CostTaken(r.lines));
            var full := forall l <- o.lines :: Sum(s.receipts, TakenIn(r.order, l.product)) + Sum(r.lines, TakenOf(l.product)) == l.quantity;
            && t == s.(receipts := t.receipts, stock := t.stock, orders := t.orders, entries := t.entries)
            && t.receipts == s.receipts + [r]
            && t.orders == s.orders[r.order := o.(status := if full then RECEIVED
                                                            else if o.status == ISSUED && exists l <- r.lines :: l.accepted > 0 then PARTIALLY_RECEIVED
                                                            else o.status)]
            && t.entries == (if value <= 0 then s.entries
                             else s.entries + [Entry(GOODS_RECEIPT, Some(|s.receipts|), day, POSTED, None, [Line(1030, value, 0), Line(2010, 0, value)])])
  {
    var o := s.orders[r.order];
    ValueByOrderLine(o.lines, r.lines);
    forall l | l in o.lines
      ensures CostTaken(r.lines)(l) == CostAccepted(r.lines)(l)
      ensures Sum(s.receipts, TakenIn(r.order, l.product)) == Received(s.receipts, r.order, l.product)
      ensures Sum(r.lines, TakenOf(l.product)) == AcceptedFor(l.product, r.lines)
    {
      TakenIsAccepted(s.receipts, r.order, l.product, r.lines);
    }
    SumCongruent(o.lines, CostTaken(r.lines), CostAccepted(r.lines));
  }

  /** One IN movement for each line that accepts goods, and none besides. */
  lemma {:induction false} ReceiptMoves(s: Store, r: Receipt, at: int, day: int)
    requires r.order < |s.orders|
    ensures var before, after := s.stock.movements, WithReceipt(s, r, at, day).stock.movements;
            && |before| <= |after| && after[..|before|] == before
            && (forall k :: 0 <= k < |r.lines| && r.lines[k].accepted > 0 ==>
                  Movement(r.lines[k].product, r.lines[k].accepted, IN, Source(GOODS_RECEIPT, |s.receipts|, Some(k)), at) in after[|before|..])
            && (forall m <- after[|before|..] ::
                  exists k :: 0 <= k < |r.lines| && r.lines[k].accepted > 0 &&
                              m == Movement(r.lines[k].product, r.lines[k].accepted, IN, Source(GOODS_RECEIPT, |s.receipts|, Some(k)), at))
  {
    var ms := ReceiptMovements(|s.receipts|, r.lines, at);
    assert (s.stock.movements + ms)[|s.stock.movements|..] == ms;
    MovementPerLine(|s.receipts|, r.lines, at);
  }

  lemma {:induction false} MovementPerLine(id: nat, lines: seq<ReceiptLine>, at: int)
    ensures forall k :: 0 <= k < |lines| && lines[k].accepted > 0 ==>
              Movement(lines[k].product, lines[k].accepted, IN, Source(GOODS_RECEIPT, id, Some(k)), at) in ReceiptMovements(id, lines, at)
    ensures forall m <- ReceiptMovements(id, lines, at) ::
              exists k :: 0 <= k < |lines| && lines[k].accepted > 0 &&
                          m == Movement(lines[k].product, lines[k].accepted, IN, Source(GOODS_RECEIPT, id, Some(k)), at)
  {
    if |lines| > 0 {
      MovementPerLine(id, lines[..|lines| - 1], at);
      assert forall k :: 0 <= k < |lines| - 1 ==> lines[..|lines| - 1][k] == lines[k];
    }
  }
}
