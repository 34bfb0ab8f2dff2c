/** Manual stock corrections (backend/internal/pos). */
module StockCounts {
  import opened Wrappers
  import opened Int64
  import opened Tables
  import opened Database
  import opened Sums
  import opened Checkout
  import Inventory
  import Ledger

  datatype AdjustmentType = ADD | SUBTRACT | SET

  datatype AdjustmentError = InvalidAdjustmentQuantity | UnknownProduct | StaleStockCount | NegativeAdjustmentStock | AdjustmentJournalFailed

  datatype AdjustmentRequest = AdjustmentRequest(product: nat, kind: AdjustmentType, quantity: int64, expected: Option<int>)

  /** The change an adjustment asks for, against the balance it finds. */
  function DeltaFor(kind: AdjustmentType, quantity: int, previous: int): int {
    match kind
    case ADD => quantity
    case SUBTRACT => -quantity
    case SET => quantity - previous
  }

  function AdjustmentMovement(id: nat, product: nat, delta: int, at: int): Movement {
    Movement(product, delta, ADJUSTMENT, Source(MANUAL_ADJUSTMENT, id, None), at)
  }

  /** The store after an adjustment: an audit row; unless the difference is zero, one movement; and, when the
      difference is worth something, one journal. */
  function WithAdjustment(s: Store, product: nat, delta: int, previous: int, cost: int64, at: int, today: int): Store {
    var id := |s.adjustments|;
    var posts := delta != 0 && Ledger.Worth(delta, cost) != 0;
    s.(stock := if delta == 0 then s.stock else Inventory.Moved(s.stock, [AdjustmentMovement(id, product, delta, at)]),
       entries := if posts then s.entries + [Ledger.AdjustmentEntry(id, delta, Ledger.Worth(delta, cost), today)] else s.entries,
       adjustments := s.adjustments + [Adjustment(product, delta, previous, previous + delta, if posts then Some(|s.entries|) else None)])
  }

  /** ADD puts the quantity on top, SUBTRACT takes it off, SET leaves exactly it; no other product moves. */
  ghost predicate LeavesOnHand(req: AdjustmentRequest, before: map<nat, int>, after: map<nat, int>) {
    && req.product in before && after.Keys == before.Keys
    && (req.kind == ADD ==> after[req.product] == before[req.product] + req.quantity)
    && (req.kind == SUBTRACT ==> after[req.product] == before[req.product] - req.quantity)
    && (req.kind == SET ==> after[req.product] == req.quantity)
    && forall p <- before :: p != req.product ==> after[p] == before[p]
  }

  lemma WrapsBelowZero(a: nat, b: nat)
    requires a <= 0x7FFF_FFFF && b <= MAX64
    ensures Wrap(a + b) < 0 <==> a + b > MAX64
  {
  }

  /** Works out the change against the locked balance and posts it. Yields the previous quantity and the change. */
  method PostAdjustmentMovement(tx: Tx, id: nat, req: AdjustmentRequest, at: int) returns (r: Result<(int, int), AdjustmentError>)
    requires NoMovementsOf(tx.store.stock.movements, MANUAL_ADJUSTMENT, id)
    requires req.quantity >= 0 && forall p <- tx.store.stock.onHand :: 0 <= tx.store.stock.onHand[p] <= 0x7FFF_FFFF
    modifies tx
    ensures var s := old(tx.store.stock);
            r == if req.product !in s.onHand then Err(UnknownProduct)
                 else if req.kind == SET && req.expected != Some(s.onHand[req.product]) then Err(StaleStockCount)
                 else
                   var delta := DeltaFor(req.kind, req.quantity, s.onHand[req.product]);
                   if !(0 <= s.onHand[req.product] + delta <= MAX64) then Err(NegativeAdjustmentStock) else Ok((s.onHand[req.product], delta))
    ensures r.Ok? ==> tx.store == old(tx.store).(stock :=
                        if r.value.1 == 0 then old(tx.store.stock)
                        else Inventory.Moved(old(tx.store.stock), [AdjustmentMovement(id, req.product, r.value.1, at)]))
    ensures r.Err? ==> tx.store == old(tx.store)
  {
    var locked := Inventory.LockInventoryForUpdate(tx, req.product);
    if locked.Err? { return Err(UnknownProduct); }
    var previous := locked.value;
    var quantity: int := req.quantity;
    var delta: int, counted: int;
    WrapsBelowZero(previous, quantity);
    match req.kind {
      case ADD => delta, counted := quantity, Wrap(previous + quantity);
      case SUBTRACT => delta, counted := -quantity, previous - quantity;
      case SET =>
        if req.expected.None? || req.expected.value != previous { return Err(StaleStockCount); }
        delta, counted := quantity - previous, quantity;
    }
    if counted < 0 { return Err(NegativeAdjustmentStock); }
    if delta == 0 { return Ok((previous, delta)); }
    var posted := Inventory.PostMovementTx(tx, AdjustmentMovement(id, req.product, delta, at));
    assert posted.None?;
    return Ok((previous, delta));
  }

  /** Why an adjustment is refused, in the order of the checks. */
  function AdjustmentFault(s: Store, req: AdjustmentRequest): Option<AdjustmentError> {
    if req.kind != SET && req.quantity <= 0 then Some(InvalidAdjustmentQuantity)
    else if req.product !in s.products || req.product !in s.stock.onHand then Some(UnknownProduct)
    else
      var previous, cost := s.stock.onHand[req.product], s.products[req.product].costPrice;
      var delta := DeltaFor(req.kind, req.quantity, previous);
      if req.kind == SET && req.expected != Some(previous) then Some(StaleStockCount)
      else if !(0 <= previous + delta <= MAX64) then Some(NegativeAdjustmentStock)
      else if AdjustmentJournalRefused(s, delta, cost) then Some(AdjustmentJournalFailed)
      else None
  }

  predicate AdjustmentJournalRefused(s: Store, delta: int, cost: int64) {
    delta != 0 && cost > 0 &&
    (Ledger.Worth(delta, cost) > MAX64 || !Ledger.ActiveAccount(s, Ledger.INVENTORY) || !Ledger.ActiveAccount(s, Ledger.SHRINKAGE))
  }

  /** After the movement: the journal, if the difference is worth anything, and the audit row. */
  method RecordAdjustment(tx: Tx, ghost s: Store, product: nat, delta: int, previous: int, cost: int64, at: int, today: int) returns (ok: bool)
    requires -MAX64 <= delta <= MAX64 && cost >= 0
    requires tx.store == s.(stock := if delta == 0 then s.stock
                                     else Inventory.Moved(s.stock, [AdjustmentMovement(|s.adjustments|, product, delta, at)]))
    modifies tx
    ensures ok <==> !AdjustmentJournalRefused(s, delta, cost)
    ensures ok ==> tx.store == WithAdjustment(s, product, delta, previous, cost, at, today)
  {
    var id := |tx.store.adjustments|;
    WorthSign(delta, cost);
    var journal: Option<nat> := None;
    if delta != 0 && cost > 0 {
      var entry := Ledger.PostInventoryAdjustmentJournal(tx, id, delta, cost, today);
      if entry.Err? { return false; }
      journal := entry.value;
    }
    tx.store := tx.store.(adjustments := tx.store.adjustments + [Adjustment(product, delta, previous, previous + delta, journal)]);
    return true;
  }

  /** Corrects stock in one transaction. A SET leaves exactly the counted quantity, or is refused as stale and changes
      nothing; no adjustment drives stock below zero. */
  method AdjustStock(db: Database, req: AdjustmentRequest, at: int, today: int) returns (r: Result<nat, AdjustmentError>)
    requires Linked(db.store) && NoMovementsOf(db.store.stock.movements, MANUAL_ADJUSTMENT, |db.store.adjustments|)
    requires req.quantity >= 0
    requires forall p <- db.store.stock.onHand :: 0 <= db.store.stock.onHand[p] <= 0x7FFF_FFFF
    modifies db
    ensures AdjustmentFault(old(db.store), req) == if r.Ok? then None else Some(r.error)
    ensures r.Ok? ==>
              && r.value == |old(db.store.adjustments)|
              && var s := old(db.store);
                 var previous := s.stock.onHand[req.product];
                 db.store == WithAdjustment(s, req.product, DeltaFor(req.kind, req.quantity, previous), previous,
                                            s.products[req.product].costPrice, at, today)
    ensures r.Ok? ==> LeavesOnHand(req, old(db.store.stock.onHand), db.store.stock.onHand)
    ensures req.kind == SUBTRACT && req.quantity > 0 && req.product in old(db.store.products) ==>
              (r == Err(NegativeAdjustmentStock) <==> req.quantity > old(db.store.stock.onHand[req.product]))
    ensures req.kind == ADD && req.quantity > 0 && req.product in old(db.store.products) ==>
              (r == Err(NegativeAdjustmentStock) <==> old(db.store.stock.onHand[req.product]) + req.quantity > MAX64)
    ensures req.kind == SET && req.product in old(db.store.products) && req.expected != Some(old(db.store.stock.onHand[req.product])) ==>
              r == Err(StaleStockCount) && db.store == old(db.store)
    ensures r.Err? ==> db.store == old(db.store)
  {
    if req.kind != SET && req.quantity <= 0 { return Err(InvalidAdjustmentQuantity); }
    var tx := db.Begin();
    r := AdjustTx(tx, req, at, today);
    NegativeExactlyWhen(db.store, req);
    if r.Err? { return; }
    LeavesAim(db.store, req, at, today);
    db.Commit(tx);
  }

  /** The same inside the transaction. */
  method AdjustTx(tx: Tx, req: AdjustmentRequest, at: int, today: int) returns (r: Result<nat, AdjustmentError>)
    requires Linked(tx.store) && NoMovementsOf(tx.store.stock.movements, MANUAL_ADJUSTMENT, |tx.store.adjustments|)
    requires req.quantity >= 0 && (req.kind != SET ==> req.quantity > 0)
    requires forall p <- tx.store.stock.onHand :: 0 <= tx.store.stock.onHand[p] <= 0x7FFF_FFFF
    modifies tx
    ensures AdjustmentFault(old(tx.store), req) == if r.Ok? then None else Some(r.error)
    ensures r.Ok? ==>
              && r.value == |old(tx.store.adjustments)|
              && var s := old(tx.store);
                 var previous := s.stock.onHand[req.product];
                 tx.store == WithAdjustment(s, req.product, DeltaFor(req.kind, req.quantity, previous), previous,
                                            s.products[req.product].costPrice, at, today)
  {
    ghost var s := tx.store;
    if req.product !in tx.store.products { return Err(UnknownProduct); }
    var cost := tx.store.products[req.product].costPrice;
    var id := |tx.store.adjustments|;
    var posted := PostAdjustmentMovement(tx, id, req, at);
    if posted.Err? { return Err(posted.error); }
    var (previous, delta) := posted.value;
    var ok := RecordAdjustment(tx, s, req.product, delta, previous, cost, at, today);
    if !ok { return Err(AdjustmentJournalFailed); }
    return Ok(id);
  }

  lemma {:induction false} AdjustmentLands(s: Store, product: nat, delta: int, id: nat, at: int)
    requires product in s.stock.onHand
    ensures var after := Inventory.Moved(s.stock, [AdjustmentMovement(id, product, delta, at)]);
            && after.onHand == s.stock.onHand[product := s.stock.onHand[product] + delta]
            && after.movements == s.stock.movements + [Movement(product, delta, ADJUSTMENT, Source(MANUAL_ADJUSTMENT, id, None), at)]
  {
    var m := AdjustmentMovement(id, product, delta, at);
    forall p | p in s.stock.onHand
      ensures Inventory.Moved(s.stock, [m]).onHand[p] == s.stock.onHand[product := s.stock.onHand[product] + delta][p]
    {
      SumAppend([], m, Inventory.DeltaOf(p));
      assert [] + [m] == [m];
    }
  }

  lemma {:induction false} WorthSign(delta: int, cost: int64)
    requires cost >= 0
    ensures Ledger.Worth(delta, cost) != 0 <==> delta != 0 && cost > 0
  {
    var m := if delta < 0 then -delta else delta;
    if m > 0 && cost > 0 {
      assert cost * m >= cost;
    }
  }

  // ---------- the answers in plain figures ----------

  /** The quantity an adjustment aims at: up by the request, down by it, or exactly it. */
  function Aim(req: AdjustmentRequest, onHand: int): int {
    if req.kind == SET then req.quantity else if req.kind == ADD then onHand + req.quantity else onHand - req.quantity
  }

  /** What an adjustment leaves behind: the balance aimed at and no other balance changed; an audit row; a movement and a journal
      at cost, against shrinkage, for the difference. */
  lemma {:induction false} AdjustmentLeaves(s: Store, req: AdjustmentRequest, cost: int64, at: int, today: int)
    requires req.product in s.stock.onHand && cost >= 0
    ensures var was, now, id := s.stock.onHand[req.product], Aim(req, s.stock.onHand[req.product]), |s.adjustments|;
            var t := WithAdjustment(s, req.product, DeltaFor(req.kind, req.quantity, was), was, cost, at, today);
            var value := cost * (if now < was then was - now else now - was);
            && t == s.(stock := t.stock, entries := t.entries, adjustments := t.adjustments)
            && t.stock.onHand == s.stock.onHand[req.product := now]
            && t.stock.movements == (if now == was then s.stock.movements
                                     else s.stock.movements + [Movement(req.product, now - was, ADJUSTMENT, Source(MANUAL_ADJUSTMENT, id, None), at)])
            && t.adjustments == s.adjustments + [Adjustment(req.product, now - was, was, now, if value == 0 then None else Some(|s.entries|))]
            && t.entries == (if value == 0 then s.entries
                             else s.entries + [Entry(MANUAL_ADJUSTMENT, Some(id), today, POSTED, None,
                                                     if now < was then [Line(5020, value, 0), Line(1030, 0, value)]
                                                     else [Line(1030, value, 0), Line(5020, 0, value)])])
  {
    var was := s.stock.onHand[req.product];
    var delta := DeltaFor(req.kind, req.quantity, was);
    AdjustmentLands(s, req.product, delta, |s.adjustments|, at);
    WorthSign(delta, cost);
  }

  /** Why an adjustment is refused, check by check: a quantity that is not positive, an unknown product, a stale count, a quantity
      below zero, and a difference that is worth something but cannot be posted. */
  lemma {:induction false} AdjustmentAnswers(s: Store, req: AdjustmentRequest)
    requires Linked(s)
    ensures AdjustmentFault(s, req) ==
            if req.kind != SET && req.quantity <= 0 then Some(InvalidAdjustmentQuantity)
            else if req.product !in s.products then Some(UnknownProduct)
            else
              var was, now, cost := s.stock.onHand[req.product], Aim(req, s.stock.onHand[req.product]), s.products[req.product].costPrice;
              if req.kind == SET && req.expected != Some(was) then Some(StaleStockCount)
              else if now < 0 || now > MAX64 then Some(NegativeAdjustmentStock)
              else if cost * (if now < was then was - now else now - was) > MAX64 then Some(AdjustmentJournalFailed)
              else if now == was || cost == 0 then None
              else if (forall code <- {1030, 5020} :: code in s.accounts && s.accounts[code].isActive) then None
              else Some(AdjustmentJournalFailed)
  {
    if req.product in s.products {
      var was, cost := s.stock.onHand[req.product], s.products[req.product].costPrice;
      WorthSign(DeltaFor(req.kind, req.quantity, was), cost);
    }
  }

  lemma {:induction false} NegativeExactlyWhen(s: Store, req: AdjustmentRequest)
    requires Linked(s) && req.quantity >= 0 && forall p <- s.stock.onHand :: 0 <= s.stock.onHand[p] <= 0x7FFF_FFFF
    ensures req.product in s.products && req.quantity > 0 && req.kind == SUBTRACT ==>
              (AdjustmentFault(s, req) == Some(NegativeAdjustmentStock) <==> req.quantity > s.stock.onHand[req.product])
    ensures req.product in s.products && req.quantity > 0 && req.kind == ADD ==>
              (AdjustmentFault(s, req) == Some(NegativeAdjustmentStock) <==> s.stock.onHand[req.product] + req.quantity > MAX64)
  {
  }

  lemma {:induction false} LeavesAim(s: Store, req: AdjustmentRequest, at: int, today: int)
    requires req.product in s.products && req.product in s.stock.onHand && s.products[req.product].costPrice >= 0
    ensures var before := s.stock.onHand;
            var t := WithAdjustment(s, req.product, DeltaFor(req.kind, req.quantity, before[req.product]), before[req.product],
                                    s.products[req.product].costPrice, at, today);
            LeavesOnHand(req, before, t.stock.onHand)
  {
    AdjustmentLeaves(s, req, s.products[req.product].costPrice, at, today);
  }
}
