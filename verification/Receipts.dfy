/** Receiving goods against a purchase order (backend/internal/supplychain). */
module Receipts {
  import opened Wrappers
  import opened Int64
  import opened Tables
  import opened Sums
  import opened Sorting
  import opened PurchaseOrders
  import Compliance
  import Money

  datatype ReceiptError = EmptyReceipt | DuplicateProductOnOrder | DuplicateReceiptItem | ReceiptItemNotOnOrder | InvalidQcArithmetic
                        | QcReasonRequired | QuantityExceeds | KeyConflict | ReceiptOrderNotFound | InvalidOrderStatus
                        | ReceiptNotCompliant(reason: Compliance.ComplianceError) | ReceiptJournalFailed

  /** One requested line: the three inspection figures, or only the older received quantity. */
  datatype ReceiptItem = ReceiptItem(product: nat, delivered: Option<int64>, accepted: Option<int64>, rejected: Option<int64>,
                                     received: int64, reason: string)

  // ---------- what a requested line says ----------

  predicate Inspected(item: ReceiptItem) {
    item.delivered.Some? || item.accepted.Some? || item.rejected.Some?
  }

  function OrZero(figure: Option<int64>): int64 {
    if figure.Some? then figure.value else 0
  }

  function Delivered(item: ReceiptItem): int {
    if Inspected(item) then OrZero(item.delivered) else item.received
  }

  function Accepted(item: ReceiptItem): int {
    if Inspected(item) then OrZero(item.accepted) else item.received
  }

  function Rejected(item: ReceiptItem): int {
    if Inspected(item) then OrZero(item.rejected) else 0
  }

  predicate OutcomeFits(l: ReceiptLine) {
    (l.outcome == PASS <==> l.rejected == 0) && (l.outcome == REJECT <==> l.accepted == 0)
  }

  ghost predicate LineStates(item: ReceiptItem, l: ReceiptLine) {
    && l.product == item.product && l.delivered == Delivered(item) && l.accepted == Accepted(item) && l.rejected == Rejected(item)
    && l.delivered == l.accepted + l.rejected > 0 && l.accepted >= 0 && l.rejected >= 0 && OutcomeFits(l)
  }

  // ---------- an order as a receipt sees it ----------

  ghost predicate DistinctProducts(lines: seq<OrderLine>) {
    forall i, j :: 0 <= i < j < |lines| ==> lines[i].product != lines[j].product
  }

  function ByProduct(lines: seq<OrderLine>): map<nat, OrderLine> {
    if |lines| == 0 then map[]
    else ByProduct(lines[..|lines| - 1])[lines[|lines| - 1].product := lines[|lines| - 1]]
  }

  lemma {:induction false} ByProductFinds(lines: seq<OrderLine>)
    ensures forall p <- ByProduct(lines) :: ByProduct(lines)[p] in lines && ByProduct(lines)[p].product == p
    ensures forall l <- lines :: l.product in ByProduct(lines)
    ensures DistinctProducts(lines) ==> forall l <- lines :: ByProduct(lines)[l.product] == l
  {
    if |lines| > 0 {
      ByProductFinds(lines[..|lines| - 1]);
      assert lines == lines[..|lines| - 1] + [lines[|lines| - 1]];
    }
  }

  /** Why item i is refused, if it is, given what the order still expects. */
  function ItemFault(lines: seq<OrderLine>, received: nat -> int, items: seq<ReceiptItem>, i: nat): Option<ReceiptError>
    requires i < |items|
  {
    var item := items[i];
    if exists j :: 0 <= j < i && items[j].product == item.product then Some(DuplicateReceiptItem)
    else if item.product !in ByProduct(lines) then Some(ReceiptItemNotOnOrder)
    else if !(Delivered(item) > 0 && Accepted(item) >= 0 && Rejected(item) >= 0 && Delivered(item) == Accepted(item) + Rejected(item))
    then Some(InvalidQcArithmetic)
    else if Rejected(item) > 0 && Compliance.Blank(item.reason) then Some(QcReasonRequired)
    else if Delivered(item) > ByProduct(lines)[item.product].quantity - received(item.product) then Some(QuantityExceeds)
    else None
  }

  function ItemsFault(lines: seq<OrderLine>, received: nat -> int, items: seq<ReceiptItem>, n: nat): Option<ReceiptError>
    requires n <= |items|
  {
    if n == 0 then None
    else if ItemsFault(lines, received, items, n - 1).Some? then ItemsFault(lines, received, items, n - 1)
    else ItemFault(lines, received, items, n - 1)
  }

  lemma {:induction false} ItemsFaultStays(lines: seq<OrderLine>, received: nat -> int, items: seq<ReceiptItem>, k: nat, n: nat)
    requires k <= n <= |items|
    ensures ItemsFault(lines, received, items, k).Some? ==>
              ItemsFault(lines, received, items, n) == ItemsFault(lines, received, items, k)
  {
    if k < n {
      ItemsFaultStays(lines, received, items, k, n - 1);
    }
  }

  /** The items can only be refused for one of these five reasons. */
  lemma {:induction false} ItemsFaultKinds(lines: seq<OrderLine>, received: nat -> int, items: seq<ReceiptItem>, n: nat)
    requires n <= |items|
    ensures ItemsFault(lines, received, items, n).Some? ==>
              ItemsFault(lines, received, items, n).value
              in {DuplicateReceiptItem, ReceiptItemNotOnOrder, InvalidQcArithmetic, QcReasonRequired, QuantityExceeds}
  {
    if n > 0 {
      ItemsFaultKinds(lines, received, items, n - 1);
    }
  }

  /** Received so far on an order, as a function of the product. */
  function ReceivedOn(receipts: seq<Receipt>, order: nat): nat -> int {
    (p: nat) => Received(receipts, order, p)
  }

  /** A line that fits what the order still expects. */
  ghost predicate LineFits(olines: seq<OrderLine>, received: nat -> int, l: ReceiptLine) {
    && l.product in ByProduct(olines) && l.delivered == l.accepted + l.rejected > 0 && l.accepted >= 0 && l.rejected >= 0
    && OutcomeFits(l) && l.delivered <= ByProduct(olines)[l.product].quantity - received(l.product)
  }

  ghost predicate NoRepeats(lines: seq<ReceiptLine>) {
    forall i, j :: 0 <= i < j < |lines| ==> lines[i].product != lines[j].product
  }

  ghost predicate InProductOrder(lines: seq<ReceiptLine>) {
    forall i, j :: 0 <= i < j < |lines| ==> lines[i].product < lines[j].product
  }

  /** The lines of a receipt as committed: in product order, one per product, each fitting the order. */
  ghost predicate Deliverable(olines: seq<OrderLine>, received: nat -> int, lines: seq<ReceiptLine>) {
    |lines| > 0 && InProductOrder(lines) && forall l <- lines :: LineFits(olines, received, l)
  }

  function ValueAt(olines: seq<OrderLine>): ReceiptLine -> int {
    (l: ReceiptLine) => if l.product in ByProduct(olines) then ByProduct(olines)[l.product].unitCost * l.accepted else 0
  }

  /** What a receipt is worth: accepted quantities at the order's unit costs. */
  function Valuation(olines: seq<OrderLine>, lines: seq<ReceiptLine>): int {
    Sum(lines, ValueAt(olines))
  }

  function AcceptedFor(p: nat, lines: seq<ReceiptLine>): int {
    Sum(lines, AcceptedOf(p))
  }

  ghost predicate Fills(olines: seq<OrderLine>, received: nat -> int, lines: seq<ReceiptLine>) {
    forall o <- olines :: received(o.product) + AcceptedFor(o.product, lines) == o.quantity
  }

  predicate HasAccepted(lines: seq<ReceiptLine>) {
    exists l <- lines :: l.accepted > 0
  }

  // ---------- a receipt is never worth more than its order ----------

  function CostAccepted(lines: seq<ReceiptLine>): OrderLine -> int {
    (o: OrderLine) => o.unitCost * AcceptedFor(o.product, lines)
  }

  function LastCost(l: ReceiptLine): OrderLine -> int {
    (o: OrderLine) => if o.product == l.product then o.unitCost * l.accepted else 0
  }

  lemma AddedCost(cost: int, sofar: int, more: int)
    ensures cost * (sofar + more) == cost * sofar + cost * more
  {
  }

  /** Valuing line by line is valuing order line by order line. */
  lemma {:induction false} ValueByOrderLine(olines: seq<OrderLine>, lines: seq<ReceiptLine>)
    requires DistinctProducts(olines)
    ensures Valuation(olines, lines) == Sum(olines, CostAccepted(lines))
  {
    if |lines| == 0 {
      SumZero(olines, CostAccepted(lines));
    } else {
      var rest, last := lines[..|lines| - 1], lines[|lines| - 1];
      ValueByOrderLine(olines, rest);
      forall o | o in olines
        ensures CostAccepted(lines)(o) == Plus(CostAccepted(rest), LastCost(last))(o)
      {
        AddedCost(o.unitCost, AcceptedFor(o.product, rest), AcceptedOf(o.product)(last));
      }
      SumCongruent(olines, CostAccepted(lines), Plus(CostAccepted(rest), LastCost(last)));
      SumPlus(olines, CostAccepted(rest), LastCost(last));
      LastCostIsValue(olines, last);
    }
  }

  lemma LastCostIsValue(olines: seq<OrderLine>, l: ReceiptLine)
    requires DistinctProducts(olines)
    ensures Sum(olines, LastCost(l)) == ValueAt(olines)(l)
  {
    ByProductFinds(olines);
    if l.product in ByProduct(olines) {
      var k :| 0 <= k < |olines| && olines[k] == ByProduct(olines)[l.product];
      SumOneHit(olines, k, LastCost(l));
    } else {
      SumZero(olines, LastCost(l));
    }
  }

  lemma {:induction false} AcceptedOnce(lines: seq<ReceiptLine>, p: nat)
    requires NoRepeats(lines)
    ensures AcceptedFor(p, lines) == 0 || exists l <- lines :: l.product == p && AcceptedFor(p, lines) == l.accepted
    ensures forall l <- lines :: AcceptedFor(l.product, lines) == l.accepted
    ensures (forall l <- lines :: l.product != p) ==> AcceptedFor(p, lines) == 0
  {
    if exists k :: 0 <= k < |lines| && lines[k].product == p {
      var k :| 0 <= k < |lines| && lines[k].product == p;
      SumOneHit(lines, k, AcceptedOf(p));
    } else {
      SumZero(lines, AcceptedOf(p));
    }
    forall l | l in lines
      ensures AcceptedFor(l.product, lines) == l.accepted
    {
      var k :| 0 <= k < |lines| && lines[k] == l;
      SumOneHit(lines, k, AcceptedOf(l.product));
    }
  }

  lemma ProductAtMost(cost: int, a: int, b: int)
    requires cost >= 0 && a <= b
    ensures cost * a <= cost * b
  {
    assert cost * (b - a) >= 0;
  }

  lemma {:induction false} ValueWithinOrder(o: Order, received: nat -> int, lines: seq<ReceiptLine>)
    requires OrderSound(o) && DistinctProducts(o.lines) && NoRepeats(lines)
    requires forall p :: received(p) >= 0
    requires forall l <- lines :: LineFits(o.lines, received, l)
    ensures 0 <= Valuation(o.lines, lines) <= o.total
  {
    ValueByOrderLine(o.lines, lines);
    ByProductFinds(o.lines);
    forall x | x in o.lines
      ensures 0 <= CostAccepted(lines)(x) <= SubtotalOf()(x)
    {
      AcceptedOnce(lines, x.product);
      var a := AcceptedFor(x.product, lines);
      assert 0 <= a <= x.quantity;
      ProductAtMost(x.unitCost, 0, a);
      ProductAtMost(x.unitCost, a, x.quantity);
    }
    SumAtMost(o.lines, CostAccepted(lines), SubtotalOf());
    SumNonNegative(o.lines, CostAccepted(lines));
  }

  // ---------- reconciling the request against the order ----------

  lemma {:induction false} RepeatedProduct(lines: seq<OrderLine>, i: nat)
    requires i < |lines| && DistinctProducts(lines[..i])
    ensures lines[i].product in ByProduct(lines[..i]) ==> !DistinctProducts(lines)
    ensures lines[i].product !in ByProduct(lines[..i]) ==> DistinctProducts(lines[..i + 1])
    ensures ByProduct(lines[..i + 1]) == ByProduct(lines[..i])[lines[i].product := lines[i]]
  {
    ByProductFinds(lines[..i]);
    assert lines[..i + 1][..i] == lines[..i];
    if lines[i].product in ByProduct(lines[..i]) {
      var k :| 0 <= k < i && lines[..i][k] == ByProduct(lines[..i])[lines[i].product];
      assert lines[k].product == lines[i].product;
    } else {
      assert forall k :: 0 <= k < i ==> lines[k] == lines[..i][k] && lines[k] in lines[..i];
    }
  }

  /** Indexes the order by product; an order that lists a product twice cannot be received. */
  method IndexOrder(lines: seq<OrderLine>) returns (r: Option<map<nat, OrderLine>>)
    ensures r == if DistinctProducts(lines) then Some(ByProduct(lines)) else None
  {
    var byProduct: map<nat, OrderLine> := map[];
    for i := 0 to |lines|
      invariant DistinctProducts(lines[..i]) && byProduct == ByProduct(lines[..i])
    {
      RepeatedProduct(lines, i);
      if lines[i].product in byProduct { return None; }
      byProduct := byProduct[lines[i].product := lines[i]];
    }
    assert lines[..|lines|] == lines;
    return Some(byProduct);
  }

  /** Reads one requested line. The accepted and rejected figures are added in a Go int; a sum that wraps is refused too. */
  method ResolveItem(item: ReceiptItem) returns (r: Result<ReceiptLine, ReceiptError>)
    ensures r.Ok? ==> LineStates(item, r.value) && !(Rejected(item) > 0 && Compliance.Blank(item.reason))
    ensures r.Err? ==>
              r.error == if Delivered(item) > 0 && Accepted(item) >= 0 && Rejected(item) >= 0 && Delivered(item) == Accepted(item) + Rejected(item)
                         then QcReasonRequired else InvalidQcArithmetic
    ensures r == Err(QcReasonRequired) ==> Rejected(item) > 0 && Compliance.Blank(item.reason)
  {
    var delivered: int64, accepted: int64, rejected: int64 := 0, 0, 0;
    if Inspected(item) {
      delivered, accepted, rejected := OrZero(item.delivered), OrZero(item.accepted), OrZero(item.rejected);
      if delivered <= 0 || accepted < 0 || rejected < 0 { return Err(InvalidQcArithmetic); }
      if delivered != Wrap(accepted + rejected) { return Err(InvalidQcArithmetic); }
      if rejected > 0 && Compliance.Blank(item.reason) { return Err(QcReasonRequired); }
    } else if item.received > 0 {
      delivered, accepted := item.received, item.received;
    } else {
      return Err(InvalidQcArithmetic);
    }
    var outcome := if rejected == 0 then PASS else if accepted == 0 then REJECT else PARTIAL_ACCEPT;
    return Ok(ReceiptLine(item.product, delivered, accepted, rejected, outcome));
  }

  /** The first |lines| items read into lines. */
  ghost predicate AllStated(items: seq<ReceiptItem>, lines: seq<ReceiptLine>) {
    |lines| <= |items| && forall i :: 0 <= i < |lines| ==> LineStates(items[i], lines[i])
  }

  /** The accepted quantity noted per product. */
  function AcceptedMap(lines: seq<ReceiptLine>): map<nat, int> {
    if |lines| == 0 then map[] else AcceptedMap(lines[..|lines| - 1])[lines[|lines| - 1].product := lines[|lines| - 1].accepted]
  }

  lemma {:induction false} AcceptedMapKeys(lines: seq<ReceiptLine>, p: nat)
    ensures p in AcceptedMap(lines) <==> exists i :: 0 <= i < |lines| && lines[i].product == p
    ensures NoRepeats(lines) ==> Lookup(AcceptedMap(lines), p) == AcceptedFor(p, lines)
  {
    if |lines| > 0 {
      var rest := lines[..|lines| - 1];
      AcceptedMapKeys(rest, p);
      assert forall i :: 0 <= i < |rest| ==> rest[i] == lines[i];
      if lines[|lines| - 1].product == p && NoRepeats(lines) {
        AcceptedOnce(rest, p);
      }
    }
  }

  /** Checks and reads item i. */
  method ReconcileItem(ghost olines: seq<OrderLine>, byProduct: map<nat, OrderLine>, received: map<nat, int>,
                       ghost receivedOn: nat -> int, accepted: map<nat, int>, items: seq<ReceiptItem>, i: nat, ghost lines: seq<ReceiptLine>)
    returns (r: Result<ReceiptLine, ReceiptError>)
    requires |lines| == i < |items| && byProduct == ByProduct(olines) && AllStated(items, lines) && accepted == AcceptedMap(lines)
    requires forall p :: Lookup(received, p) == receivedOn(p)
    ensures ItemFault(olines, receivedOn, items, i) == if r.Ok? then None else Some(r.error)
    ensures r.Ok? ==> LineStates(items[i], r.value) && LineFits(olines, receivedOn, r.value) && forall l <- lines :: l.product != r.value.product
  {
    var item := items[i];
    AcceptedMapKeys(lines, item.product);
    if item.product in accepted { return Err(DuplicateReceiptItem); }
    if item.product !in byProduct { return Err(ReceiptItemNotOnOrder); }
    r := ResolveItem(item);
    if r.Err? { return; }
    var outstanding := byProduct[item.product].quantity - Lookup(received, item.product);
    if r.value.delivered > outstanding { return Err(QuantityExceeds); }
  }

  /** Lines read so far that fit the order, at most one per product. */
  ghost predicate Fitting(olines: seq<OrderLine>, received: nat -> int, lines: seq<ReceiptLine>) {
    NoRepeats(lines) && forall l <- lines :: LineFits(olines, received, l)
  }

  lemma {:induction false} FittingGrows(olines: seq<OrderLine>, received: nat -> int, lines: seq<ReceiptLine>, line: ReceiptLine)
    requires Fitting(olines, received, lines) && LineFits(olines, received, line) && forall l <- lines :: l.product != line.product
    ensures Fitting(olines, received, lines + [line])
    ensures AcceptedMap(lines + [line]) == AcceptedMap(lines)[line.product := line.accepted]
    ensures HasAccepted(lines + [line]) <==> HasAccepted(lines) || line.accepted > 0
    ensures Valuation(olines, lines + [line]) == Valuation(olines, lines) + ValueAt(olines)(line)
  {
    var all := lines + [line];
    assert all[..|lines|] == lines && line in all;
    assert forall l <- lines :: l in all;
    assert forall i :: 0 <= i < |lines| ==> all[i] in lines;
  }

  /** Adds the value of a line; it cannot leave int64, because the whole order fits. */
  method AddValue(ghost o: Order, byProduct: map<nat, OrderLine>, ghost received: nat -> int, ghost lines: seq<ReceiptLine>,
                  value: int64, line: ReceiptLine) returns (next: int64)
    requires OrderSound(o) && DistinctProducts(o.lines) && byProduct == ByProduct(o.lines) && forall p :: received(p) >= 0
    requires Fitting(o.lines, received, lines + [line]) && 0 <= value == Valuation(o.lines, lines) && line.accepted >= 0
    requires Valuation(o.lines, lines + [line]) == value + ValueAt(o.lines)(line)
    ensures 0 <= next == Valuation(o.lines, lines + [line])
  {
    ValueWithinOrder(o, received, lines + [line]);
    ByProductFinds(o.lines);
    assert line in lines + [line];
    if line.accepted == 0 { return value; }
    var product := byProduct[line.product];
    assert product in o.lines && LineSound(product) && line.accepted <= product.quantity;
    var added := Money.AddTimes(value, product.unitCost, line.accepted);
    assert added.Ok?; // the source's valuation errors are never returned
    return added.value;
  }

  function ProductOf(): ReceiptLine -> int {
    (l: ReceiptLine) => l.product
  }

  /** What comes out: the lines in product order, their value, and whether they fill the order. */
  ghost predicate ReconciledAs(o: Order, received: nat -> int, items: seq<ReceiptItem>, lines: seq<ReceiptLine>, value: int,
                               full: bool, hasAccepted: bool) {
    && (exists stated :: |stated| == |items| && AllStated(items, stated) && multiset(stated) == multiset(lines))
    && Deliverable(o.lines, received, lines)
    && 0 <= value == Valuation(o.lines, lines) <= o.total
    && (full <==> Fills(o.lines, received, lines)) && (hasAccepted <==> HasAccepted(lines))
  }

  /** Sorting keeps the lines, so it keeps what they are worth and what they accept. */
  lemma SortedLines(stated: seq<ReceiptLine>, lines: seq<ReceiptLine>)
    requires NoRepeats(stated) && SortedBy(lines, ProductOf()) && multiset(lines) == multiset(stated)
    ensures InProductOrder(lines)
    ensures forall olines :: Valuation(olines, lines) == Valuation(olines, stated)
    ensures forall p :: AcceptedFor(p, lines) == AcceptedFor(p, stated)
  {
    forall olines
      ensures Valuation(olines, lines) == Valuation(olines, stated)
    {
      SumPermute(lines, stated, ValueAt(olines));
    }
    forall p
      ensures AcceptedFor(p, lines) == AcceptedFor(p, stated)
    {
      SumPermute(lines, stated, AcceptedOf(p));
    }
    forall i, j | 0 <= i < j < |lines|
      ensures lines[i].product < lines[j].product
    {
      assert ProductOf()(lines[i]) <= ProductOf()(lines[j]);
      if lines[i].product == lines[j].product {
        SameProductSameLine(stated, lines, i, j);
      }
    }
  }

  lemma OncePresent(stated: seq<ReceiptLine>, x: ReceiptLine)
    requires NoRepeats(stated) && x in stated
    ensures multiset(stated)[x] == 1
  {
    var k :| 0 <= k < |stated| && stated[k] == x;
    assert stated == stated[..k] + [x] + stated[k + 1..];
    assert x !in stated[..k] && x !in stated[k + 1..];
  }

  lemma SameProductSameLine(stated: seq<ReceiptLine>, lines: seq<ReceiptLine>, i: nat, j: nat)
    requires NoRepeats(stated) && multiset(lines) == multiset(stated) && i < j < |lines|
    ensures lines[i].product != lines[j].product
  {
    var x := lines[i];
    assert x in multiset(lines) && lines[j] in multiset(lines);
    assert x in stated && lines[j] in stated;
    OncePresent(stated, x);
    assert lines == lines[..i] + [x] + lines[i + 1..j] + [lines[j]] + lines[j + 1..];
    assert multiset(lines)[x] >= 1 + (if lines[j] == x then 1 else 0);
  }

  /** Whether the lines complete the order. */
  method IsFilled(ghost olines: seq<OrderLine>, byProduct: map<nat, OrderLine>, received: map<nat, int>, ghost receivedOn: nat -> int,
                  accepted: map<nat, int>, ghost lines: seq<ReceiptLine>) returns (full: bool)
    requires DistinctProducts(olines) && byProduct == ByProduct(olines)
    requires forall p :: Lookup(received, p) == receivedOn(p)
    requires forall p :: Lookup(accepted, p) == AcceptedFor(p, lines)
    ensures full <==> Fills(olines, receivedOn, lines)
  {
    ByProductFinds(olines);
    var rest := byProduct.Keys;
    while rest != {}
      invariant rest <= byProduct.Keys
      invariant forall p <- byProduct :: p !in rest ==> receivedOn(p) + AcceptedFor(p, lines) == byProduct[p].quantity
    {
      var p :| p in rest;
      rest := rest - {p};
      if Lookup(received, p) + Lookup(accepted, p) != byProduct[p].quantity {
        assert byProduct[p] in olines;
        return false;
      }
    }
    assert forall o <- olines :: o == byProduct[o.product];
    return true;
  }

  /** The item loop: the lines read, their value, and whether any goods were accepted. */
  method ReconcileItems(ghost o: Order, byProduct: map<nat, OrderLine>, received: map<nat, int>, ghost receivedOn: nat -> int,
                        items: seq<ReceiptItem>) returns (r: Result<(seq<ReceiptLine>, map<nat, int>, int64, bool), ReceiptError>)
    requires OrderSound(o) && DistinctProducts(o.lines) && byProduct == ByProduct(o.lines) && forall p :: receivedOn(p) >= 0
    requires forall p :: Lookup(received, p) == receivedOn(p)
    ensures ItemsFault(o.lines, receivedOn, items, |items|) == if r.Ok? then None else Some(r.error)
    ensures r.Ok? ==> |r.value.0| == |items| && AllStated(items, r.value.0) && Fitting(o.lines, receivedOn, r.value.0)
    ensures r.Ok? ==> r.value.1 == AcceptedMap(r.value.0) && 0 <= r.value.2 == Valuation(o.lines, r.value.0)
    ensures r.Ok? ==> (r.value.3 <==> HasAccepted(r.value.0))
  {
    var lines: seq<ReceiptLine>, accepted: map<nat, int>, value: int64, hasAccepted := [], map[], 0, false;
    for i := 0 to |items|
      invariant ItemsFault(o.lines, receivedOn, items, i).None?
      invariant |lines| == i && AllStated(items, lines) && Fitting(o.lines, receivedOn, lines)
      invariant accepted == AcceptedMap(lines) && 0 <= value == Valuation(o.lines, lines)
      invariant hasAccepted <==> HasAccepted(lines)
    {
      ItemsFaultStays(o.lines, receivedOn, items, i + 1, |items|);
      var line := ReconcileItem(o.lines, byProduct, received, receivedOn, accepted, items, i, lines);
      if line.Err? { return Err(line.error); }
      FittingGrows(o.lines, receivedOn, lines, line.value);
      value := AddValue(o, byProduct, receivedOn, lines, value, line.value);
      hasAccepted := hasAccepted || line.value.accepted > 0;
      accepted := accepted[line.value.product := line.value.accepted];
      lines := lines + [line.value];
    }
    return Ok((lines, accepted, value, hasAccepted));
  }

  /** Lines that pass one by one are deliverable once sorted, with the same value and the same quantities. */
  lemma SortedDelivers(o: Order, received: nat -> int, items: seq<ReceiptItem>, stated: seq<ReceiptLine>, lines: seq<ReceiptLine>)
    requires OrderSound(o) && DistinctProducts(o.lines) && forall p :: received(p) >= 0
    requires |items| > 0 && |stated| == |items| && AllStated(items, stated) && Fitting(o.lines, received, stated)
    requires SortedBy(lines, ProductOf()) && multiset(lines) == multiset(stated)
    ensures Deliverable(o.lines, received, lines) && (HasAccepted(lines) <==> HasAccepted(stated))
    ensures Valuation(o.lines, lines) == Valuation(o.lines, stated) <= o.total
    ensures forall p :: Lookup(AcceptedMap(stated), p) == AcceptedFor(p, lines)
  {
    SortedLines(stated, lines);
    ValueWithinOrder(o, received, stated);
    assert forall l :: l in lines <==> l in multiset(lines);
    assert forall l :: l in stated <==> l in multiset(stated);
    assert |multiset(stated)| == |stated| && |multiset(lines)| == |lines|;
    forall p
      ensures Lookup(AcceptedMap(stated), p) == AcceptedFor(p, lines)
    {
      AcceptedMapKeys(stated, p);
    }
  }

  /** Why the requested items are refused, if they are. */
  function ReconcileFault(items: seq<ReceiptItem>, olines: seq<OrderLine>, received: nat -> int): Option<ReceiptError> {
    if |items| == 0 then Some(EmptyReceipt)
    else if exists i, j :: 0 <= i < j < |olines| && olines[i].product == olines[j].product then Some(DuplicateProductOnOrder)
    else ItemsFault(olines, received, items, |items|)
  }

  /** The receipt lines, their value, whether they fill the order, and whether anything was accepted; or the first fault. */
  method ReconcileReceiptItems(items: seq<ReceiptItem>, ghost o: Order, olines: seq<OrderLine>, received: map<nat, int>,
                               ghost receivedOn: nat -> int)
    returns (r: Result<(seq<ReceiptLine>, int64, bool, bool), ReceiptError>)
    requires OrderSound(o) && olines == o.lines && forall p :: receivedOn(p) >= 0
    requires forall p :: Lookup(received, p) == receivedOn(p)
    ensures ReconcileFault(items, olines, receivedOn) == if r.Ok? then None else Some(r.error)
    ensures r.Ok? ==> ReconciledAs(o, receivedOn, items, r.value.0, r.value.1, r.value.2, r.value.3)
  {
    if |items| == 0 { return Err(EmptyReceipt); }
    var byProduct := IndexOrder(olines);
    if byProduct.None? { return Err(DuplicateProductOnOrder); }
    var taken := ReconcileItems(o, byProduct.value, received, receivedOn, items);
    if taken.Err? { return Err(taken.error); }
    var (stated, accepted, value, hasAccepted) := taken.value;
    var lines := SortBy(stated, ProductOf());
    SortedDelivers(o, receivedOn, items, stated, lines);
    var full := IsFilled(olines, byProduct.value, received, receivedOn, accepted, lines);
    return Ok((lines, value, full, hasAccepted));
  }
}
