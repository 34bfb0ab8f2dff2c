/** Committing a goods receipt: rows, stock, order status and journal (backend/internal/supplychain). */
module GoodsReceipts {
  import opened Wrappers
  import opened Int64
  import opened Tables
  import opened Database
  import opened Sums
  import opened PurchaseOrders
  import opened Receipts
  import Checkout
  import Compliance
  import Inventory
  import Ledger

  // ---------- what a receipt does to the store ----------

  /** One IN movement for each line with accepted goods. */
  function ReceiptMovements(id: nat, lines: seq<ReceiptLine>, at: int): seq<Movement> {
    if |lines| == 0 then []
    else
      var n := |lines| - 1;
      ReceiptMovements(id, lines[..n], at)
      + if lines[n].accepted > 0 then [Movement(lines[n].product, lines[n].accepted, IN, Source(GOODS_RECEIPT, id, Some(n)), at)] else []
  }

  /** The order's status once the receipt is counted. */
  function NextStatus(o: Order, received: nat -> int, lines: seq<ReceiptLine>): OrderStatus {
    if forall l <- o.lines :: received(l.product) + AcceptedFor(l.product, lines) == l.quantity then RECEIVED
    else if HasAccepted(lines) && o.status == ISSUED then PARTIALLY_RECEIVED
    else o.status
  }

  function WithReceipt(s: Store, r: Receipt, at: int, today: int): Store
    requires r.order < |s.orders|
  {
    var id, o := |s.receipts|, s.orders[r.order];
    var value := Valuation(o.lines, r.lines);
    s.(receipts := s.receipts + [r],
       stock := Inventory.Moved(s.stock, ReceiptMovements(id, r.lines, at)),
       orders := s.orders[r.order := o.(status := NextStatus(o, ReceivedOn(s.receipts, r.order), r.lines))],
       entries := if value > 0 then s.entries + [Ledger.ReceiptEntry(id, value, today)] else s.entries)
  }

  // ---------- when a receipt is refused ----------

  predicate ReceiptKeyUsed(receipts: seq<Receipt>, key: string) {
    exists i :: 0 <= i < |receipts| && receipts[i].key == key
  }

  predicate Open(o: Order) {
    o.status == ISSUED || o.status == PARTIALLY_RECEIVED
  }

  predicate ReceiptJournalRefused(s: Store) {
    !Ledger.ActiveAccount(s, Ledger.INVENTORY) || !Ledger.ActiveAccount(s, Ledger.PAYABLE)
  }

  /** A receipt that may be committed now. */
  ghost predicate Receivable(s: Store, r: Receipt, day: int) {
    && r.key != "" && r.order < |s.orders| && Open(s.orders[r.order]) && !ReceiptKeyUsed(s.receipts, r.key)
    && var o := s.orders[r.order];
       && DistinctProducts(o.lines) && Deliverable(o.lines, ReceivedOn(s.receipts, r.order), r.lines)
       && Compliance.Passes(s, o.supplier, o.cert, day, r.decision)
       && (Valuation(o.lines, r.lines) > 0 ==> !ReceiptJournalRefused(s))
  }

  // ---------- posting the stock ----------

  lemma {:induction false} ReceiptSources(id: nat, lines: seq<ReceiptLine>, at: int)
    ensures forall m <- ReceiptMovements(id, lines, at) ::
              m.source.doc == GOODS_RECEIPT && m.source.id == id && m.source.line.Some? && m.source.line.value < |lines| && m.delta > 0 && m.kind == IN
  {
    if |lines| > 0 {
      ReceiptSources(id, lines[..|lines| - 1], at);
    }
  }

  lemma {:induction false} ReceiptDeltas(id: nat, lines: seq<ReceiptLine>, at: int, p: nat)
    requires forall l <- lines :: l.accepted >= 0
    ensures Sum(ReceiptMovements(id, lines, at), Inventory.DeltaOf(p)) == AcceptedFor(p, lines) >= 0
  {
    if |lines| > 0 {
      var n := |lines| - 1;
      var rest := ReceiptMovements(id, lines[..n], at);
      ReceiptDeltas(id, lines[..n], at, p);
      if lines[n].accepted > 0 {
        SumAppend(rest, Movement(lines[n].product, lines[n].accepted, IN, Source(GOODS_RECEIPT, id, Some(n)), at), Inventory.DeltaOf(p));
      } else {
        assert rest + [] == rest;
      }
    }
  }

  /** Where posting stands after i lines, and what line i adds. */
  lemma {:induction false} ReceiptPostedSoFar(stock: Stock, id: nat, lines: seq<ReceiptLine>, at: int, i: nat)
    requires i < |lines| && lines[i].product in stock.onHand && forall l <- lines :: l.accepted >= 0
    requires Checkout.NoMovementsOf(stock.movements, GOODS_RECEIPT, id)
    requires forall p <- stock.onHand :: stock.onHand[p] >= 0
    ensures var ms := ReceiptMovements(id, lines[..i], at);
            var now, m := Inventory.Moved(stock, ms), Movement(lines[i].product, lines[i].accepted, IN, Source(GOODS_RECEIPT, id, Some(i)), at);
            && Inventory.Moved(stock, ReceiptMovements(id, lines[..i + 1], at)) == (if lines[i].accepted > 0 then Inventory.Moved(now, [m]) else now)
            && Inventory.SourceUnused(now.movements, m.source)
            && now.onHand[lines[i].product] >= 0
  {
    var ms := ReceiptMovements(id, lines[..i], at);
    var m := Movement(lines[i].product, lines[i].accepted, IN, Source(GOODS_RECEIPT, id, Some(i)), at);
    assert lines[..i + 1][..i] == lines[..i];
    Inventory.MovedTwice(stock, ms, [m]);
    assert ms + [] == ms;
    ReceiptSources(id, lines[..i], at);
    ReceiptDeltas(id, lines[..i], at, lines[i].product);
  }

  /** Posts the accepted goods of each line. Nothing can refuse them. */
  method PostReceiptMovements(tx: Tx, id: nat, lines: seq<ReceiptLine>, at: int)
    requires forall l <- lines :: l.accepted >= 0 && l.product in tx.store.stock.onHand
    requires Checkout.NoMovementsOf(tx.store.stock.movements, GOODS_RECEIPT, id)
    requires forall p <- tx.store.stock.onHand :: tx.store.stock.onHand[p] >= 0
    modifies tx
    ensures tx.store == old(tx.store).(stock := Inventory.Moved(old(tx.store.stock), ReceiptMovements(id, lines, at)))
  {
    ghost var stock := tx.store.stock;
    Inventory.MovedNothing(stock);
    for i := 0 to |lines|
      invariant tx.store == old(tx.store).(stock := Inventory.Moved(stock, ReceiptMovements(id, lines[..i], at)))
    {
      assert lines[i] in lines;
      ReceiptPostedSoFar(stock, id, lines, at, i);
      if lines[i].accepted > 0 {
        var posted := Inventory.PostMovementTx(tx, Movement(lines[i].product, lines[i].accepted, IN, Source(GOODS_RECEIPT, id, Some(i)), at));
        assert posted.None?; // the source's error returns here are never taken
      }
    }
    assert lines[..|lines|] == lines;
  }

  // ---------- the receipt itself ----------

  method GetGoodsReceiptByIdempotencyKey(tx: Tx, key: string) returns (r: Option<nat>)
    ensures r.Some? <==> ReceiptKeyUsed(tx.store.receipts, key)
    ensures r.Some? ==> r.value < |tx.store.receipts| && tx.store.receipts[r.value].key == key
  {
    for i := 0 to |tx.store.receipts|
      invariant forall k :: 0 <= k < i ==> tx.store.receipts[k].key != key
    {
      if tx.store.receipts[i].key == key { return Some(i); }
    }
    return None;
  }

  /** The guarded update: only an open order changes status. */
  method UpdatePurchaseOrderStatus(tx: Tx, id: nat, status: OrderStatus) returns (ok: bool)
    modifies tx
    ensures ok <==> id < |old(tx.store.orders)| && Open(old(tx.store.orders[id]))
    ensures ok ==> tx.store == old(tx.store).(orders := old(tx.store.orders)[id := old(tx.store.orders[id]).(status := status)])
    ensures !ok ==> tx.store == old(tx.store)
  {
    if id >= |tx.store.orders| || !Open(tx.store.orders[id]) { return false; }
    tx.store := tx.store.(orders := tx.store.orders[id := tx.store.orders[id].(status := status)]);
    return true;
  }

  /** Moves the order on: received if full, partially received once something was accepted. */
  method AdvanceOrder(tx: Tx, order: nat, ghost received: nat -> int, ghost lines: seq<ReceiptLine>, full: bool, hasAccepted: bool)
    requires order < |tx.store.orders| && Open(tx.store.orders[order])
    requires (full <==> Fills(tx.store.orders[order].lines, received, lines)) && (hasAccepted <==> HasAccepted(lines))
    modifies tx
    ensures var o := old(tx.store.orders[order]);
            tx.store == old(tx.store).(orders := old(tx.store.orders)[order := o.(status := NextStatus(o, received, lines))])
  {
    var o := tx.store.orders[order];
    if full {
      var updated := UpdatePurchaseOrderStatus(tx, order, RECEIVED);
      assert updated;
    } else if hasAccepted && o.status == ISSUED {
      var updated := UpdatePurchaseOrderStatus(tx, order, PARTIALLY_RECEIVED);
      assert updated;
    } else {
      assert tx.store.orders[order := o] == tx.store.orders;
    }
  }

  /** Writes the receipt, its stock, the order's status and the journal. Only switched-off accounts can refuse it. */
  method RecordReceipt(tx: Tx, r: Receipt, value: int64, full: bool, hasAccepted: bool, at: int, today: int) returns (ok: bool)
    requires r.order < |tx.store.orders| && Open(tx.store.orders[r.order])
    requires forall l <- r.lines :: l.accepted >= 0 && l.product in tx.store.stock.onHand
    requires Checkout.NoMovementsOf(tx.store.stock.movements, GOODS_RECEIPT, |tx.store.receipts|)
    requires forall p <- tx.store.stock.onHand :: tx.store.stock.onHand[p] >= 0
    requires var o := tx.store.orders[r.order];
             && 0 <= value == Valuation(o.lines, r.lines) && (hasAccepted <==> HasAccepted(r.lines))
             && (full <==> Fills(o.lines, ReceivedOn(tx.store.receipts, r.order), r.lines))
    modifies tx
    ensures ok <==> value == 0 || !ReceiptJournalRefused(old(tx.store))
    ensures ok ==> tx.store == WithReceipt(old(tx.store), r, at, today)
  {
    var id := |tx.store.receipts|;
    ghost var received := ReceivedOn(tx.store.receipts, r.order);
    tx.store := tx.store.(receipts := tx.store.receipts + [r]);
    PostReceiptMovements(tx, id, r.lines, at);
    AdvanceOrder(tx, r.order, received, r.lines, full, hasAccepted);
    if value > 0 {
      var journal := Ledger.PostGoodsReceiptJournal(tx, id, value, today);
      if journal.Some? { return false; }
    }
    return true;
  }

  /** The receipt already committed under this key, or None for a new one; an order that cannot be received is an error. */
  method AdmitReceipt(tx: Tx, order: nat, key: string) returns (r: Result<Option<nat>, ReceiptError>)
    ensures r == if key == "" then Err(KeyConflict)
                 else if order >= |tx.store.orders| then Err(ReceiptOrderNotFound)
                 else if r.Ok? && r.value.Some? then r
                 else if ReceiptKeyUsed(tx.store.receipts, key) then Err(KeyConflict)
                 else if !Open(tx.store.orders[order]) then Err(InvalidOrderStatus)
                 else Ok(None)
    ensures r.Ok? && r.value.Some? ==>
              r.value.value < |tx.store.receipts| && tx.store.receipts[r.value.value].key == key && tx.store.receipts[r.value.value].order == order
    ensures (key != "" && order < |tx.store.orders| && ReceiptKeyUsed(tx.store.receipts, key)) ==>
              exists i :: 0 <= i < |tx.store.receipts| && tx.store.receipts[i].key == key &&
                          r == (if tx.store.receipts[i].order == order then Ok(Some(i)) else Err(KeyConflict))
  {
    if key == "" { return Err(KeyConflict); }
    if order >= |tx.store.orders| { return Err(ReceiptOrderNotFound); }
    var existing := GetGoodsReceiptByIdempotencyKey(tx, key);
    if existing.Some? {
      if tx.store.receipts[existing.value].order != order { return Err(KeyConflict); }
      return Ok(existing);
    }
    if !Open(tx.store.orders[order]) { return Err(InvalidOrderStatus); }
    return Ok(None);
  }

  /** Why a receipt that is not a replay is refused. */
  ghost predicate RefusedFor(s: Store, order: nat, items: seq<ReceiptItem>, day: int, e: ReceiptError)
    requires order < |s.orders|
  {
    var o, fault := s.orders[order], ReconcileFault(items, s.orders[order].lines, ReceivedOn(s.receipts, order));
    if !Open(o) then e == InvalidOrderStatus
    else if Compliance.Blocked(s, o.supplier, o.cert, day) then e == ReceiptNotCompliant(Compliance.BlockReason(s, o.supplier, o.cert, day))
    else if fault.Some? then e == fault.value
    else e == ReceiptJournalFailed && ReceiptJournalRefused(s) && BringsValue(o, items)
  }

  /** Some accepted goods cost something, so there is a journal to post. */
  ghost predicate BringsValue(o: Order, items: seq<ReceiptItem>) {
    exists item <- items, l <- o.lines :: l.product == item.product && Accepted(item) > 0 && l.unitCost > 0
  }

  lemma {:induction false} ItemOf(items: seq<ReceiptItem>, lines: seq<ReceiptLine>, l: ReceiptLine) returns (item: ReceiptItem)
    requires exists stated :: |stated| == |items| && AllStated(items, stated) && multiset(stated) == multiset(lines)
    requires l in lines
    ensures item in items && LineStates(item, l)
  {
    var stated :| |stated| == |items| && AllStated(items, stated) && multiset(stated) == multiset(lines);
    assert l in multiset(lines) && l in multiset(stated);
    var i :| 0 <= i < |stated| && stated[i] == l;
    item := items[i];
  }

  lemma {:induction false} WorthLine(olines: seq<OrderLine>, lines: seq<ReceiptLine>) returns (l: ReceiptLine, o: OrderLine)
    requires Valuation(olines, lines) > 0 && forall l <- lines :: l.accepted >= 0
    requires forall o <- olines :: o.unitCost >= 0
    ensures l in lines && o in olines && o.product == l.product && l.accepted > 0 && o.unitCost > 0
  {
    if forall l <- lines :: ValueAt(olines)(l) == 0 {
      SumZero(lines, ValueAt(olines));
    }
    l :| l in lines && ValueAt(olines)(l) != 0;
    ByProductFinds(olines);
    o := ByProduct(olines)[l.product];
    assert o.unitCost * l.accepted != 0;
  }

  lemma {:induction false} ValueIsBrought(o: Order, items: seq<ReceiptItem>, lines: seq<ReceiptLine>)
    requires (forall l <- lines :: l.accepted >= 0) && (forall ol <- o.lines :: ol.unitCost >= 0) && Valuation(o.lines, lines) > 0
    requires exists stated :: |stated| == |items| && AllStated(items, stated) && multiset(stated) == multiset(lines)
    ensures BringsValue(o, items)
  {
    var l, ol := WorthLine(o.lines, lines);
    var item := ItemOf(items, lines, l);
    assert ol.product == item.product && Accepted(item) > 0;
  }

  /** What the database guarantees of the order before a receipt. */
  ghost predicate ReadyToReceive(s: Store, order: nat) {
    && Checkout.NoMovementsOf(s.stock.movements, GOODS_RECEIPT, |s.receipts|)
    && (forall p <- s.stock.onHand :: s.stock.onHand[p] >= 0)
    && (forall p :: Received(s.receipts, order, p) >= 0)
    && (order < |s.orders| ==> OrderSound(s.orders[order]) && forall l <- s.orders[order].lines :: l.product in s.stock.onHand)
  }

  /** The new lines come from the requested items, in product order, and go with the key and order asked for. */
  ghost predicate AnswersRequest(r: Receipt, order: nat, key: string, items: seq<ReceiptItem>) {
    && r.key == key && r.order == order
    && exists stated :: |stated| == |items| && AllStated(items, stated) && multiset(stated) == multiset(r.lines)
  }

  /** A receipt under a fresh key on an open order: compliance, reconciliation, then the writes. */
  method ReceiveNew(tx: Tx, order: nat, key: string, items: seq<ReceiptItem>, at: int, day: int) returns (r: Result<Receipt, ReceiptError>)
    requires ReadyToReceive(tx.store, order) && key != "" && order < |tx.store.orders| && Open(tx.store.orders[order])
    requires !ReceiptKeyUsed(tx.store.receipts, key)
    modifies tx
    ensures r.Err? ==> RefusedFor(old(tx.store), order, items, day, r.error)
    ensures r.Err? ==> r.error != InvalidOrderStatus && (r.error == ReceiptJournalFailed ==> ReceiptJournalRefused(old(tx.store)))
    ensures r.Ok? ==> && AnswersRequest(r.value, order, key, items) && Receivable(old(tx.store), r.value, day)
                      && tx.store == WithReceipt(old(tx.store), r.value, at, day)
  {
    var o := tx.store.orders[order];
    var decision := Compliance.CheckCompliance(tx.store, o.supplier, o.cert, day);
    if decision.Err? { return Err(ReceiptNotCompliant(decision.error)); }
    ghost var receivedOn := ReceivedOn(tx.store.receipts, order);
    var received := GetReceivedQuantities(tx.store.receipts, order);
    forall p
      ensures Lookup(received, p) == receivedOn(p)
    {
      ReceivedIsLookup(tx.store.receipts, order, p);
    }
    ItemsFaultKinds(o.lines, receivedOn, items, |items|);
    var reconciled := ReconcileReceiptItems(items, o, o.lines, received, receivedOn);
    if reconciled.Err? { return Err(reconciled.error); }
    var (lines, value, full, hasAccepted) := reconciled.value;
    ByProductFinds(o.lines);
    var gr := Receipt(key, order, lines, decision.value);
    if value > 0 { ValueIsBrought(o, items, lines); }
    var recorded := RecordReceipt(tx, gr, value, full, hasAccepted, at, day);
    if !recorded { return Err(ReceiptJournalFailed); }
    return Ok(gr);
  }

  /** Receives goods in one transaction. A key already used on this order yields that receipt again and changes nothing;
      otherwise the receipt commits whole, or nothing changes and the first failing check is reported. */
  method CreateGoodsReceipt(db: Database, order: nat, key: string, items: seq<ReceiptItem>, at: int, day: int) returns (r: Result<nat, ReceiptError>)
    requires ReadyToReceive(db.store, order)
    modifies db
    ensures key == "" ==> r == Err(KeyConflict)
    ensures key != "" && order >= |old(db.store.orders)| ==> r == Err(ReceiptOrderNotFound)
    ensures key != "" && order < |old(db.store.orders)| && ReceiptKeyUsed(old(db.store.receipts), key) ==>
              exists i :: 0 <= i < |old(db.store.receipts)| && old(db.store.receipts)[i].key == key &&
                          r == (if old(db.store.receipts)[i].order == order then Ok(i) else Err(KeyConflict)) && db.store == old(db.store)
    ensures key != "" && order < |old(db.store.orders)| && !ReceiptKeyUsed(old(db.store.receipts), key) ==>
              && (r.Err? ==> RefusedFor(old(db.store), order, items, day, r.error))
              && (r.Ok? ==> r.value == |old(db.store.receipts)|
                            && exists gr :: AnswersRequest(gr, order, key, items) && Receivable(old(db.store), gr, day)
                                            && db.store == WithReceipt(old(db.store), gr, at, day))
    ensures r.Err? ==> db.store == old(db.store)
    ensures var s := old(db.store);
            key != "" && order < |s.orders| && (forall gr <- s.receipts :: gr.key != key) ==>
              && (r == Err(InvalidOrderStatus) <==> s.orders[order].status !in {ISSUED, PARTIALLY_RECEIVED})
              && (r == Err(ReceiptJournalFailed) ==> exists code <- [1030, 2010] :: code !in s.accounts || !s.accounts[code].isActive)
  {
    var tx := db.Begin();
    var admitted := AdmitReceipt(tx, order, key);
    if admitted.Err? { return Err(admitted.error); }
    if admitted.value.Some? { return Ok(admitted.value.value); }
    var received := ReceiveNew(tx, order, key, items, at, day);
    if received.Err? { return Err(received.error); }
    db.Commit(tx);
    return Ok(|db.store.receipts| - 1);
  }
}
