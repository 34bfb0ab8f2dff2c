/** The durable idempotency layer in front of the mutating endpoints, interleaved step by step
    (backend/pkg/idempotency/middleware.go): Redis cache, durable row, lease, completion, crashes and lost caches. */
module Idempotency {
  import opened Wrappers
  import opened Tables
  import opened Handler
  import opened Events
  import opened SalesBooks
  import opened Runs
  import Checkout

  const LEASE: nat := 30

  const REUSED: string := "IDEMPOTENCY_KEY_REUSED_WITH_DIFFERENT_PAYLOAD"
  const IN_PROGRESS: string := "CONCURRENT_MUTATION_IN_PROGRESS"

  datatype Route = CheckoutRoute | OtherRoute(path: string)

  /** What the durable table is unique on. */
  datatype Slot = Slot(key: string, route: Route)

  datatype RowStatus = PROCESSING | COMPLETED_ROW | FAILED_ROW

  /** The durable row. `owner` is the request that inserted it and `firstExpiry` the end of its first lease; `settled`
      says whether a result was ever recorded. These three only serve the statements below. */
  datatype Row = Row(hash: string, status: RowStatus, response: Option<Outcome>, expiresAt: int, owner: nat, firstExpiry: int, settled: bool)

  datatype Cached = Cached(hash: string, response: Outcome)

  datatype Stage =
    | Arrived                   // about to look into the cache
    | Selecting                 // about to read the durable row
    | Renewing                  // found an expired lease
    | Inserting                 // found no row
    | Admitted                  // about to run the handler
    | Selling                   // handler: no sale under this key was found
    | Ran                       // handler done, result not yet recorded
    | Caching                   // completion recorded, cache not yet filled
    | Refilling(cached: Cached) // replayed from the row, cache not yet filled
    | Gone                      // answered, crashed or abandoned

  datatype Reply = Handled(outcome: Outcome) | Replayed(outcome: Outcome) | Rejected(code: string)

  datatype Call = Call(slot: Slot, hash: string, cashier: nat, cart: Checkout.Request, at: int, stage: Stage,
                       outcome: Option<Outcome>, reply: Option<Reply>)

  datatype System = System(now: int, cache: map<Slot, Cached>, rows: map<Slot, Row>, store: Store, calls: seq<Call>)

  datatype Action =
    | Arrive(slot: Slot, hash: string, cashier: nat, cart: Checkout.Request, at: int)
    | LookInCache(who: nat, hit: bool)
    | Select(who: nat)
    | Renew(who: nat, ok: bool)
    | Insert(who: nat)
    | FindSale(who: nat)
    | RunHandler(who: nat, sale: Sale, other: Outcome)
    | HandlerFault(who: nat)
    | CommitFault(who: nat, sale: Sale)
    | Record(who: nat, ok: bool)
    | FillCache(who: nat, ok: bool)
    | Crash(who: nat)
    | LoseCache(lost: Slot)
    | Wait(later: int)
    | Business(event: Event)

  // ---------- one step ----------

  function With(st: System, i: nat, c: Call): System
    requires i < |st.calls|
  {
    st.(calls := st.calls[i := c])
  }

  function WithRow(st: System, slot: Slot, row: Row): System {
    st.(rows := st.rows[slot := row])
  }

  function Answered(c: Call, r: Reply): Call {
    c.(stage := Gone, reply := Some(r))
  }

  /** The first tier. A hit with another fingerprint is a conflict; a hit that cannot be read counts as a miss. */
  function AfterCache(c: Call, found: Option<Cached>): Call {
    if found.None? then c.(stage := Selecting)
    else if found.value.hash != c.hash then Answered(c, Rejected(REUSED))
    else Answered(c, Replayed(found.value.response))
  }

  function CacheStep(st: System, i: nat, hit: bool): System
    requires i < |st.calls| && (hit ==> st.calls[i].slot in st.cache)
  {
    With(st, i, AfterCache(st.calls[i], if hit then Some(st.cache[st.calls[i].slot]) else None))
  }

  /** The second tier: the durable row decides between replay, conflict, renewal, retry and a first run. */
  function AfterSelect(c: Call, found: Option<Row>, now: int): Call {
    if found.None? then c.(stage := Inserting)
    else
      var row := found.value;
      if row.hash != c.hash then Answered(c, Rejected(REUSED))
      else match row.status
           case COMPLETED_ROW =>
             if row.response.None? then c.(stage := Gone)
             else c.(stage := Refilling(Cached(row.hash, row.response.value)), reply := Some(Replayed(row.response.value)))
           case PROCESSING =>
             if now < row.expiresAt then Answered(c, Rejected(IN_PROGRESS))
             else c.(stage := Renewing)
           case FAILED_ROW => c.(stage := Admitted)
  }

  function SelectStep(st: System, i: nat): System
    requires i < |st.calls|
  {
    var c := st.calls[i];
    With(st, i, AfterSelect(c, if c.slot in st.rows then Some(st.rows[c.slot]) else None, st.now))
  }

  /** Extending an expired lease; whether or not the update works, the request goes on. */
  function RenewStep(st: System, i: nat, ok: bool): System
    requires i < |st.calls|
  {
    var c := st.calls[i];
    With(if ok && c.slot in st.rows then WithRow(st, c.slot, Extended(st.rows[c.slot], st.now)) else st, i, c.(stage := Admitted))
  }

  function Extended(row: Row, now: int): Row {
    row.(expiresAt := now + LEASE)
  }

  /** INSERT … ON CONFLICT DO NOTHING: whoever comes second is told the key is in use. */
  function InsertStep(st: System, i: nat): System
    requires i < |st.calls|
  {
    var c := st.calls[i];
    if c.slot in st.rows then With(st, i, Answered(c, Rejected(IN_PROGRESS)))
    else
      With(WithRow(st, c.slot, FirstRow(st, i)), i, c.(stage := Admitted))
  }

  function FirstRow(st: System, i: nat): Row
    requires i < |st.calls|
  {
    Row(st.calls[i].hash, PROCESSING, None, st.now + LEASE, i, st.now + LEASE, false)
  }

  function Finished(c: Call, outcome: Outcome): Call {
    c.(stage := Ran, outcome := Some(outcome), reply := Some(Handled(outcome)))
  }

  /** The handler's own lookup, at the start of its transaction. */
  function FindStep(st: System, i: nat, found: Option<nat>): System
    requires i < |st.calls| && (found.Some? ==> found.value < |st.store.sales|)
  {
    var c := st.calls[i];
    if c.slot.route == CheckoutRoute && found.Some? then With(st, i, Finished(c, SaleReply(found.value, st.store.sales[found.value])))
    else With(st, i, c.(stage := Selling))
  }

  predicate IsSaleOf(s: Store, key: string, found: Option<nat>) {
    if Checkout.KeyUsed(s.sales, key) then found.Some? && found.value < |s.sales| && s.sales[found.value].key == key else found.None?
  }

  function FoundBy(s: Store, key: string): (found: Option<nat>)
    ensures IsSaleOf(s, key, found)
  {
    FirstWithKey(s.sales, key, 0)
  }

  function FirstWithKey(sales: seq<Sale>, key: string, from: nat): (found: Option<nat>)
    requires from <= |sales| && forall i :: 0 <= i < from ==> sales[i].key != key
    ensures if Checkout.KeyUsed(sales, key) then found.Some? && found.value < |sales| && sales[found.value].key == key else found.None?
    decreases |sales| - from
  {
    if from == |sales| then None
    else if sales[from].key == key then Some(from)
    else FirstWithKey(sales, key, from + 1)
  }

  /** The handler's transaction: the sale commits whole, or the error is reported and nothing changes. Other endpoints
      may answer anything; their effects on the store are business events. */
  ghost function RunStep(st: System, i: nat, sale: Sale, other: Outcome): System
    requires i < |st.calls|
    requires st.calls[i].slot.route == CheckoutRoute ==>
               Checkout.Refusal(st.store, st.calls[i].slot.key, st.calls[i].cart).Some? || Enabled(st.store, SellOf(st.calls[i], sale))
  {
    var c := st.calls[i];
    if c.slot.route != CheckoutRoute then With(st, i, Finished(c, other))
    else
      var refusal := Checkout.Refusal(st.store, c.slot.key, c.cart);
      if refusal.Some? then With(st, i, Finished(c, ErrorReply(refusal.value)))
      else With(st, i, Finished(c, SaleReply(|st.store.sales|, sale))).(store := Apply(st.store, SellOf(c, sale)))
  }

  function FaultReply(): Outcome {
    Failure(500, "CHECKOUT_FAILED")
  }

  /** The database fails under the handler and nothing is committed. */
  function FaultStep(st: System, i: nat): System
    requires i < |st.calls|
  {
    With(st, i, Finished(st.calls[i], FaultReply()))
  }

  /** The sale is committed, but the handler is told that the commit failed. */
  function CommitFaultStep(st: System, i: nat, sale: Sale): System
    requires i < |st.calls|
  {
    With(st, i, Finished(st.calls[i], FaultReply())).(store := Apply(st.store, SellOf(st.calls[i], sale)))
  }

  function SellOf(c: Call, sale: Sale): Event {
    Sell(c.cashier, c.slot.key, c.cart, sale, c.at)
  }

  /** Writing the result to the durable row, which may fail; then a success still goes on to the cache. */
  function RecordStep(st: System, i: nat, ok: bool): System
    requires i < |st.calls| && st.calls[i].outcome.Some?
  {
    var c := st.calls[i];
    var outcome := c.outcome.value;
    With(if ok && c.slot in st.rows then WithRow(st, c.slot, Recorded(st.rows[c.slot], outcome)) else st, i,
         c.(stage := if outcome.Success? then Caching else Gone))
  }

  function Recorded(row: Row, outcome: Outcome): Row {
    if outcome.Success? then row.(status := COMPLETED_ROW, response := Some(outcome), settled := true)
    else row.(status := FAILED_ROW, settled := true)
  }

  function CacheFillStep(st: System, i: nat, ok: bool): System
    requires i < |st.calls| && (st.calls[i].stage.Refilling? || (st.calls[i].stage == Caching && st.calls[i].outcome.Some?))
  {
    var c := st.calls[i];
    var t := With(st, i, c.(stage := Gone));
    if ok then t.(cache := st.cache[c.slot := EntryFrom(c)]) else t
  }

  predicate At(st: System, i: nat, stage: Stage) {
    i < |st.calls| && st.calls[i].stage == stage
  }

  ghost predicate Can(st: System, a: Action) {
    match a
    case Arrive(slot, _, _, cart, _) => slot.key != "" && Checkout.Bound(cart)
    case LookInCache(i, hit) => At(st, i, Arrived) && (hit ==> st.calls[i].slot in st.cache)
    case Select(i) => At(st, i, Selecting)
    case Renew(i, _) => At(st, i, Renewing)
    case Insert(i) => At(st, i, Inserting)
    case FindSale(i) => At(st, i, Admitted)
    case RunHandler(i, sale, other) =>
      && At(st, i, Selling)
      && (st.calls[i].slot.route == CheckoutRoute ==>
            Checkout.Refusal(st.store, st.calls[i].slot.key, st.calls[i].cart).Some? || Enabled(st.store, SellOf(st.calls[i], sale)))
    case HandlerFault(i) => At(st, i, Admitted) || At(st, i, Selling)
    case CommitFault(i, sale) => At(st, i, Selling) && st.calls[i].slot.route == CheckoutRoute && Enabled(st.store, SellOf(st.calls[i], sale))
    case Record(i, _) => At(st, i, Ran) && st.calls[i].outcome.Some?
    case FillCache(i, _) => i < |st.calls| && (st.calls[i].stage.Refilling? || (st.calls[i].stage == Caching && st.calls[i].outcome.Some?))
    case Crash(i) => i < |st.calls|
    case LoseCache(_) => true
    case Wait(later) => st.now <= later
    case Business(e) => Enabled(st.store, e) && !e.Sell?
  }

  ghost function Do(st: System, a: Action): System
    requires Can(st, a)
  {
    match a
    case Arrive(slot, hash, cashier, cart, at) => st.(calls := st.calls + [Call(slot, hash, cashier, cart, at, Arrived, None, None)])
    case LookInCache(i, hit) => CacheStep(st, i, hit)
    case Select(i) => SelectStep(st, i)
    case Renew(i, ok) => RenewStep(st, i, ok)
    case Insert(i) => InsertStep(st, i)
    case FindSale(i) => FindStep(st, i, FoundBy(st.store, st.calls[i].slot.key))
    case RunHandler(i, sale, other) => RunStep(st, i, sale, other)
    case HandlerFault(i) => FaultStep(st, i)
    case CommitFault(i, sale) => CommitFaultStep(st, i, sale)
    case Record(i, ok) => RecordStep(st, i, ok)
    case FillCache(i, ok) => CacheFillStep(st, i, ok)
    case Crash(i) => With(st, i, st.calls[i].(stage := Gone))
    case LoseCache(slot) => st.(cache := st.cache - {slot})
    case Wait(later) => st.(now := later)
    case Business(e) => st.(store := Apply(st.store, e))
  }

  // ---------- the invariant ----------

  function Standing(sale: Sale): Sale {
    sale.(status := COMPLETED)
  }

  /** A success of the checkout names the sale committed under its key, with its amounts; only its status may have moved. */
  ghost predicate BodyTrue(s: Store, slot: Slot, outcome: Outcome) {
    outcome.Success? && slot.route == CheckoutRoute ==>
      && outcome.body.SaleBody? && outcome.body.id < |s.sales|
      && s.sales[outcome.body.id].key == slot.key && Standing(s.sales[outcome.body.id]) == Standing(outcome.body.sale)
  }

  /** Some request with this slot and fingerprint ran its handler to this success. */
  ghost predicate Backed(st: System, slot: Slot, hash: string, outcome: Outcome) {
    outcome.Success? && exists j :: 0 <= j < |st.calls| && RanTo(st.calls[j], slot, hash, outcome)
  }

  predicate RanTo(c: Call, slot: Slot, hash: string, outcome: Outcome) {
    c.slot == slot && c.hash == hash && c.outcome == Some(outcome)
  }

  predicate InHandler(c: Call) {
    c.stage in {Renewing, Admitted, Selling, Ran, Caching}
  }

  predicate BeforeResult(c: Call) {
    c.stage in {Arrived, Selecting, Renewing, Inserting, Admitted, Selling}
  }

  /** The first lease of a slot is running and no result was recorded. */
  predicate FirstLease(st: System, slot: Slot) {
    slot in st.rows && !st.rows[slot].settled && st.now < st.rows[slot].firstExpiry
  }

  ghost predicate CallFits(st: System, i: nat, c: Call) {
    && (c.outcome.Some? ==> BodyTrue(st.store, c.slot, c.outcome.value))
    && (BeforeResult(c) ==> c.outcome == None && c.reply == None)
    && (InHandler(c) || c.stage.Refilling? ==> c.slot in st.rows && st.rows[c.slot].hash == c.hash)
    && (c.stage == Caching ==> c.outcome.Some? && c.outcome.value.Success?)
    && (c.stage.Refilling? ==> c.stage.cached.hash == c.hash && Backed(st, c.slot, c.hash, c.stage.cached.response))
    && (c.reply.Some? && c.reply.value.Replayed? ==> Backed(st, c.slot, c.hash, c.reply.value.outcome))
    && (c.reply.Some? && c.reply.value.Handled? ==> c.outcome == Some(c.reply.value.outcome))
    && (c.reply.Some? && c.reply.value.Rejected? ==> c.reply.value.code == REUSED || c.reply.value.code == IN_PROGRESS)
    && (InHandler(c) && FirstLease(st, c.slot) ==> st.rows[c.slot].owner == i && c.stage != Renewing)
  }

  ghost predicate RowFits(st: System, slot: Slot, row: Row) {
    && (row.status == COMPLETED_ROW ==> row.response.Some? && Backed(st, slot, row.hash, row.response.value))
    && (!row.settled ==> row.status == PROCESSING && row.expiresAt >= row.firstExpiry)
    && row.owner < |st.calls| && st.calls[row.owner].slot == slot && st.calls[row.owner].hash == row.hash
  }

  ghost predicate CacheFits(st: System, slot: Slot, entry: Cached) {
    slot in st.rows && st.rows[slot].hash == entry.hash && Backed(st, slot, entry.hash, entry.response)
  }

  ghost predicate Tidy(st: System) {
    && (forall i :: 0 <= i < |st.calls| ==> CallFits(st, i, st.calls[i]))
    && (forall slot <- st.rows :: RowFits(st, slot, st.rows[slot]))
    && (forall slot <- st.cache :: CacheFits(st, slot, st.cache[slot]))
  }

  ghost predicate Safe(st: System) {
    Consistent(st.store) && Tidy(st)
  }

  // ---------- what no step takes back ----------

  ghost predicate SalesPersist(s: Store, t: Store) {
    |s.sales| <= |t.sales| && forall id :: 0 <= id < |s.sales| ==> Standing(t.sales[id]) == Standing(s.sales[id])
  }

  ghost predicate CallsPersist(a: seq<Call>, b: seq<Call>) {
    |a| <= |b| && forall j :: 0 <= j < |a| ==>
                    && b[j].slot == a[j].slot && b[j].hash == a[j].hash && b[j].cart == a[j].cart
                    && (a[j].outcome.Some? ==> b[j].outcome == a[j].outcome) && (a[j].reply.Some? ==> b[j].reply == a[j].reply)
  }

  /** One row written over another keeps its fingerprint and its history. */
  predicate RowPersists(a: Row, b: Row) {
    b.hash == a.hash && b.owner == a.owner && b.firstExpiry == a.firstExpiry && (a.settled ==> b.settled)
  }

  ghost predicate RowsPersist(a: map<Slot, Row>, b: map<Slot, Row>) {
    forall slot <- a :: slot in b && RowPersists(a[slot], b[slot])
  }

  ghost predicate Persists(st: System, t: System) {
    st.now <= t.now && SalesPersist(st.store, t.store) && CallsPersist(st.calls, t.calls) && RowsPersist(st.rows, t.rows)
  }

  lemma PersistsOn(a: System, b: System, c: System)
    requires Persists(a, b) && Persists(b, c)
    ensures Persists(a, c)
  {
  }

  lemma BackedPersists(st: System, t: System, slot: Slot, hash: string, outcome: Outcome)
    requires CallsPersist(st.calls, t.calls) && Backed(st, slot, hash, outcome)
    ensures Backed(t, slot, hash, outcome)
  {
    var j :| 0 <= j < |st.calls| && RanTo(st.calls[j], slot, hash, outcome);
    assert RanTo(t.calls[j], slot, hash, outcome);
  }

  lemma CallStillFits(st: System, t: System, i: nat, c: Call)
    requires Persists(st, t) && CallFits(st, i, c)
    ensures CallFits(t, i, c)
  {
    if c.stage.Refilling? { BackedPersists(st, t, c.slot, c.hash, c.stage.cached.response); }
    if c.reply.Some? && c.reply.value.Replayed? { BackedPersists(st, t, c.slot, c.hash, c.reply.value.outcome); }
  }

  lemma RowStillFits(st: System, t: System, slot: Slot, row: Row)
    requires Persists(st, t) && RowFits(st, slot, row)
    ensures RowFits(t, slot, row)
  {
    if row.status == COMPLETED_ROW { BackedPersists(st, t, slot, row.hash, row.response.value); }
  }

  lemma CacheStillFits(st: System, t: System, slot: Slot, entry: Cached)
    requires Persists(st, t) && CacheFits(st, slot, entry)
    ensures CacheFits(t, slot, entry)
  {
    BackedPersists(st, t, slot, entry.hash, entry.response);
  }

  /** What changed must fit where it was written; everything else goes on fitting. */
  lemma ChangesFit(st: System, t: System)
    requires Tidy(st) && Persists(st, t)
    requires forall j :: 0 <= j < |t.calls| ==> CallFits(st, j, t.calls[j])
    requires forall slot <- t.rows :: RowFits(st, slot, t.rows[slot])
    requires forall slot <- t.cache :: CacheFits(st, slot, t.cache[slot])
    ensures Tidy(t)
  {
    forall j | 0 <= j < |t.calls|
      ensures CallFits(t, j, t.calls[j])
    {
      CallStillFits(st, t, j, t.calls[j]);
    }
    forall slot | slot in t.rows
      ensures RowFits(t, slot, t.rows[slot])
    {
      RowStillFits(st, t, slot, t.rows[slot]);
    }
    forall slot | slot in t.cache
      ensures CacheFits(t, slot, t.cache[slot])
    {
      CacheStillFits(st, t, slot, t.cache[slot]);
    }
  }

  lemma CallChanges(st: System, i: nat, c: Call)
    requires Tidy(st) && i < |st.calls| && CallFits(st, i, c)
    requires c.slot == st.calls[i].slot && c.hash == st.calls[i].hash && c.cart == st.calls[i].cart
    requires st.calls[i].outcome.Some? ==> c.outcome == st.calls[i].outcome
    requires st.calls[i].reply.Some? ==> c.reply == st.calls[i].reply
    ensures Tidy(With(st, i, c)) && Persists(st, With(st, i, c))
  {
    ChangesFit(st, With(st, i, c));
  }

  lemma RowChanges(st: System, slot: Slot, row: Row)
    requires Tidy(st) && RowFits(st, slot, row) && (slot in st.rows ==> RowPersists(st.rows[slot], row))
    ensures Tidy(WithRow(st, slot, row)) && Persists(st, WithRow(st, slot, row))
  {
    ChangesFit(st, WithRow(st, slot, row));
  }

  lemma CacheChanges(st: System, slot: Slot, entry: Cached)
    requires Tidy(st) && CacheFits(st, slot, entry)
    ensures var t := st.(cache := st.cache[slot := entry]); Tidy(t) && Persists(st, t)
  {
    ChangesFit(st, st.(cache := st.cache[slot := entry]));
  }

  lemma StoreChanges(st: System, e: Event)
    requires Tidy(st) && Enabled(st.store, e)
    ensures var t := st.(store := Apply(st.store, e)); Tidy(t) && Persists(st, t)
  {
    EventPersistsSales(st.store, e);
    ChangesFit(st, st.(store := Apply(st.store, e)));
  }

  /** Then the call moves on. */
  lemma CallFollows(st: System, mid: System, i: nat, next: Call)
    requires Persists(st, mid) && Tidy(mid) && i < |mid.calls| && CallFits(mid, i, next)
    requires next.slot == mid.calls[i].slot && next.hash == mid.calls[i].hash && next.cart == mid.calls[i].cart
    requires mid.calls[i].outcome.Some? ==> next.outcome == mid.calls[i].outcome
    requires mid.calls[i].reply.Some? ==> next.reply == mid.calls[i].reply
    ensures Tidy(With(mid, i, next)) && Persists(st, With(mid, i, next))
  {
    CallChanges(mid, i, next);
    PersistsOn(st, mid, With(mid, i, next));
  }

  // ---------- each step ----------

  lemma {:induction false} CacheAnswerFits(st: System, i: nat, c: Call, found: Option<Cached>)
    requires CallFits(st, i, c) && c.stage == Arrived && (found.Some? ==> CacheFits(st, c.slot, found.value))
    ensures CallFits(st, i, AfterCache(c, found))
  {
  }

  lemma {:induction false} CacheStepSafe(st: System, i: nat, hit: bool)
    requires Tidy(st) && At(st, i, Arrived) && (hit ==> st.calls[i].slot in st.cache)
    ensures Persists(st, CacheStep(st, i, hit)) && Tidy(CacheStep(st, i, hit))
  {
    var c := st.calls[i];
    var found := if hit then Some(st.cache[c.slot]) else None;
    assert CallFits(st, i, c) && (hit ==> CacheFits(st, c.slot, st.cache[c.slot]));
    CacheAnswerFits(st, i, c, found);
    CallChanges(st, i, AfterCache(c, found));
  }

  lemma {:induction false} SelectAnswerFits(st: System, i: nat, c: Call, found: Option<Row>)
    requires CallFits(st, i, c) && c.stage == Selecting && (found.Some? ==> c.slot in st.rows && found.value == st.rows[c.slot] && RowFits(st, c.slot, found.value))
    ensures CallFits(st, i, AfterSelect(c, found, st.now))
  {
  }

  lemma {:induction false} SelectStepSafe(st: System, i: nat)
    requires Tidy(st) && At(st, i, Selecting)
    ensures Persists(st, SelectStep(st, i)) && Tidy(SelectStep(st, i))
  {
    var c := st.calls[i];
    var found := if c.slot in st.rows then Some(st.rows[c.slot]) else None;
    assert CallFits(st, i, c) && (c.slot in st.rows ==> RowFits(st, c.slot, st.rows[c.slot]));
    SelectAnswerFits(st, i, c, found);
    CallChanges(st, i, AfterSelect(c, found, st.now));
  }

  lemma {:induction false} AdmittedFits(st: System, i: nat, c: Call)
    requires CallFits(st, i, c) && c.stage == Renewing
    ensures CallFits(st, i, c.(stage := Admitted))
  {
  }

  lemma {:induction false} RenewStepSafe(st: System, i: nat, ok: bool)
    requires Tidy(st) && At(st, i, Renewing)
    ensures Persists(st, RenewStep(st, i, ok)) && Tidy(RenewStep(st, i, ok))
  {
    var c := st.calls[i];
    assert CallFits(st, i, c);
    AdmittedFits(st, i, c);
    if ok {
      var row := Extended(st.rows[c.slot], st.now);
      RenewedRowFits(st, i);
      RowChanges(st, c.slot, row);
      CallStillFits(st, WithRow(st, c.slot, row), i, c.(stage := Admitted));
      CallFollows(st, WithRow(st, c.slot, row), i, c.(stage := Admitted));
    } else {
      CallChanges(st, i, c.(stage := Admitted));
    }
  }

  /** A lease is renewed only after it ran out, so never into its first one. */
  lemma RenewedRowFits(st: System, i: nat)
    requires Tidy(st) && At(st, i, Renewing) && st.calls[i].slot in st.rows
    ensures RowFits(st, st.calls[i].slot, Extended(st.rows[st.calls[i].slot], st.now))
  {
  }

  lemma {:induction false} NewRowFits(st: System, i: nat)
    requires Tidy(st) && At(st, i, Inserting) && st.calls[i].slot !in st.rows
    ensures var mid := WithRow(st, st.calls[i].slot, FirstRow(st, i));
            && Persists(st, mid) && Tidy(mid) && CallFits(mid, i, st.calls[i].(stage := Admitted))
  {
    var c := st.calls[i];
    RowChanges(st, c.slot, FirstRow(st, i));
    assert CallFits(st, i, c);
  }

  lemma {:induction false} InsertStepSafe(st: System, i: nat)
    requires Tidy(st) && At(st, i, Inserting)
    ensures Persists(st, InsertStep(st, i)) && Tidy(InsertStep(st, i))
  {
    var c := st.calls[i];
    if c.slot in st.rows {
      assert CallFits(st, i, c);
      CallChanges(st, i, Answered(c, Rejected(IN_PROGRESS)));
    } else {
      var (mid, next) := (WithRow(st, c.slot, FirstRow(st, i)), c.(stage := Admitted));
      NewRowFits(st, i);
      CallFollows(st, mid, i, next);
    }
  }

  lemma {:induction false} FindStepSafe(st: System, i: nat)
    requires Tidy(st) && At(st, i, Admitted)
    ensures Persists(st, FindStep(st, i, FoundBy(st.store, st.calls[i].slot.key))) && Tidy(FindStep(st, i, FoundBy(st.store, st.calls[i].slot.key)))
  {
    assert CallFits(st, i, st.calls[i]);
    CallChanges(st, i, FindStep(st, i, FoundBy(st.store, st.calls[i].slot.key)).calls[i]);
  }

  lemma {:induction false} EventPersistsSales(s: Store, e: Event)
    requires Enabled(s, e)
    ensures SalesPersist(s, Apply(s, e))
  {
    ApplyGrows(s, e);
    forall id | 0 <= id < |s.sales|
      ensures Standing(Apply(s, e).sales[id]) == Standing(s.sales[id])
    {
      SalesAfter(s, e, id);
    }
  }

  lemma {:induction false} RunStepSafe(st: System, i: nat, sale: Sale, other: Outcome)
    requires Tidy(st) && Can(st, RunHandler(i, sale, other))
    ensures Persists(st, RunStep(st, i, sale, other)) && Tidy(RunStep(st, i, sale, other))
  {
    var c := st.calls[i];
    assert CallFits(st, i, c);
    if c.slot.route == CheckoutRoute && Checkout.Refusal(st.store, c.slot.key, c.cart).None? {
      SoldStepSafe(st, i, sale);
    } else {
      CallChanges(st, i, RunStep(st, i, sale, other).calls[i]);
    }
  }

  lemma {:induction false} SoldStepSafe(st: System, i: nat, sale: Sale)
    requires Tidy(st) && At(st, i, Selling) && st.calls[i].slot.route == CheckoutRoute && Enabled(st.store, SellOf(st.calls[i], sale))
    ensures var t := With(st, i, Finished(st.calls[i], SaleReply(|st.store.sales|, sale))).(store := Apply(st.store, SellOf(st.calls[i], sale)));
            Persists(st, t) && Tidy(t)
  {
    var (c, e) := (st.calls[i], SellOf(st.calls[i], sale));
    var mid, done := st.(store := Apply(st.store, e)), Finished(c, SaleReply(|st.store.sales|, sale));
    StoreChanges(st, e);
    assert mid.store.sales == st.store.sales + [sale] && sale.key == c.slot.key;
    assert CallFits(mid, i, c);
    CallFollows(st, mid, i, done);
  }

  lemma {:induction false} FaultStepSafe(st: System, i: nat)
    requires Tidy(st) && (At(st, i, Admitted) || At(st, i, Selling))
    ensures Persists(st, FaultStep(st, i)) && Tidy(FaultStep(st, i))
  {
    assert CallFits(st, i, st.calls[i]);
    CallChanges(st, i, Finished(st.calls[i], FaultReply()));
  }

  lemma {:induction false} CommitFaultSafe(st: System, i: nat, sale: Sale)
    requires Tidy(st) && At(st, i, Selling) && Enabled(st.store, SellOf(st.calls[i], sale))
    ensures Persists(st, CommitFaultStep(st, i, sale)) && Tidy(CommitFaultStep(st, i, sale))
  {
    var (c, e) := (st.calls[i], SellOf(st.calls[i], sale));
    var mid, done := st.(store := Apply(st.store, e)), Finished(c, FaultReply());
    StoreChanges(st, e);
    assert CallFits(mid, i, c);
    CallFollows(st, mid, i, done);
  }

  lemma {:induction false} RecordedFits(st: System, i: nat)
    requires Tidy(st) && At(st, i, Ran) && st.calls[i].outcome.Some?
    ensures var (c, outcome) := (st.calls[i], st.calls[i].outcome.value);
            && c.slot in st.rows && RowFits(st, c.slot, Recorded(st.rows[c.slot], outcome))
            && CallFits(st, i, c.(stage := if outcome.Success? then Caching else Gone))
  {
    var c := st.calls[i];
    assert CallFits(st, i, c) && RowFits(st, c.slot, st.rows[c.slot]);
    if c.outcome.value.Success? { assert RanTo(c, c.slot, c.hash, c.outcome.value); }
  }

  lemma {:induction false} RecordStepSafe(st: System, i: nat, ok: bool)
    requires Tidy(st) && At(st, i, Ran) && st.calls[i].outcome.Some?
    ensures Persists(st, RecordStep(st, i, ok)) && Tidy(RecordStep(st, i, ok))
  {
    var c := st.calls[i];
    var next := c.(stage := if c.outcome.value.Success? then Caching else Gone);
    RecordedFits(st, i);
    if ok {
      var row := Recorded(st.rows[c.slot], c.outcome.value);
      var mid := WithRow(st, c.slot, row);
      RowChanges(st, c.slot, row);
      CallStillFits(st, mid, i, next);
      CallFollows(st, mid, i, next);
    } else {
      CallChanges(st, i, next);
    }
  }

  function EntryFrom(c: Call): Cached
    requires c.stage.Refilling? || c.outcome.Some?
  {
    if c.stage.Refilling? then c.stage.cached else Cached(c.hash, c.outcome.value)
  }

  lemma {:induction false} EntryFits(st: System, i: nat)
    requires Tidy(st) && i < |st.calls| && (st.calls[i].stage.Refilling? || (st.calls[i].stage == Caching && st.calls[i].outcome.Some?))
    ensures CacheFits(st, st.calls[i].slot, EntryFrom(st.calls[i]))
  {
    var c := st.calls[i];
    assert CallFits(st, i, c);
    if !c.stage.Refilling? { assert RanTo(c, c.slot, c.hash, c.outcome.value); }
  }

  lemma {:induction false} CacheFillSafe(st: System, i: nat, ok: bool)
    requires Tidy(st) && i < |st.calls| && (st.calls[i].stage.Refilling? || (st.calls[i].stage == Caching && st.calls[i].outcome.Some?))
    ensures Persists(st, CacheFillStep(st, i, ok)) && Tidy(CacheFillStep(st, i, ok))
  {
    var c := st.calls[i];
    if ok {
      var mid := st.(cache := st.cache[c.slot := EntryFrom(c)]);
      EntryFits(st, i);
      CacheChanges(st, c.slot, EntryFrom(c));
      CrashSafe(mid, i);
      PersistsOn(st, mid, With(mid, i, c.(stage := Gone)));
      assert CacheFillStep(st, i, ok) == With(mid, i, c.(stage := Gone));
    } else {
      CrashSafe(st, i);
    }
  }

  lemma {:induction false} AmbientSafe(st: System, a: Action)
    requires Tidy(st) && Can(st, a) && (a.Arrive? || a.LoseCache? || a.Wait? || a.Business? || a.Crash?)
    ensures Persists(st, Do(st, a)) && Tidy(Do(st, a))
  {
    if a.Crash? {
      CrashSafe(st, a.who);
    } else if a.Business? {
      StoreChanges(st, a.event);
    } else if a.Arrive? {
      ArriveSafe(st, Call(a.slot, a.hash, a.cashier, a.cart, a.at, Arrived, None, None));
    } else {
      ChangesFit(st, Do(st, a));
    }
  }

  lemma {:induction false} CrashSafe(st: System, i: nat)
    requires Tidy(st) && i < |st.calls|
    ensures var t := With(st, i, st.calls[i].(stage := Gone)); Persists(st, t) && Tidy(t)
  {
    assert CallFits(st, i, st.calls[i]);
    CallChanges(st, i, st.calls[i].(stage := Gone));
  }

  lemma {:induction false} ArriveSafe(st: System, c: Call)
    requires Tidy(st) && c.stage == Arrived && c.outcome == None && c.reply == None
    ensures var t := st.(calls := st.calls + [c]); Persists(st, t) && Tidy(t)
  {
    ChangesFit(st, st.(calls := st.calls + [c]));
  }

  /** Every step, in any order, under crashes, lost caches and failed updates. */
  lemma {:induction false} DoIsTidy(st: System, a: Action)
    requires Tidy(st) && Can(st, a)
    ensures Persists(st, Do(st, a)) && Tidy(Do(st, a))
  {
    if a.LookInCache? {
      CacheStepSafe(st, a.who, a.hit);
    } else if a.Select? {
      SelectStepSafe(st, a.who);
    } else if a.Renew? {
      RenewStepSafe(st, a.who, a.ok);
    } else if a.Insert? {
      InsertStepSafe(st, a.who);
    } else if a.FindSale? {
      FindStepSafe(st, a.who);
    } else if a.RunHandler? {
      RunStepSafe(st, a.who, a.sale, a.other);
    } else if a.HandlerFault? {
      FaultStepSafe(st, a.who);
    } else if a.CommitFault? {
      CommitFaultSafe(st, a.who, a.sale);
    } else if a.Record? {
      RecordStepSafe(st, a.who, a.ok);
    } else if a.FillCache? {
      CacheFillSafe(st, a.who, a.ok);
    } else {
      AmbientSafe(st, a);
    }
  }

  lemma {:induction false} RunMovesByEvent(st: System, i: nat, sale: Sale, other: Outcome)
    requires At(st, i, Selling)
    requires st.calls[i].slot.route == CheckoutRoute ==>
               Checkout.Refusal(st.store, st.calls[i].slot.key, st.calls[i].cart).Some? || Enabled(st.store, SellOf(st.calls[i], sale))
    ensures var t := RunStep(st, i, sale, other).store; t == st.store || exists e :: Enabled(st.store, e) && t == Apply(st.store, e)
  {
    if RunStep(st, i, sale, other).store != st.store { assert Enabled(st.store, SellOf(st.calls[i], sale)); }
  }

  lemma {:induction false} StoreMovesByEvents(st: System, a: Action)
    requires Can(st, a)
    ensures Do(st, a).store == st.store || exists e :: Enabled(st.store, e) && Do(st, a).store == Apply(st.store, e)
  {
    if a.RunHandler? { RunMovesByEvent(st, a.who, a.sale, a.other); }
    if a.CommitFault? { assert Enabled(st.store, SellOf(st.calls[a.who], a.sale)); }
  }

  lemma {:induction false} DoIsSafe(st: System, a: Action)
    requires Safe(st) && Can(st, a)
    ensures Persists(st, Do(st, a)) && Safe(Do(st, a))
  {
    DoIsTidy(st, a);
    StoreMovesByEvents(st, a);
    var t := Do(st, a).store;
    if t != st.store {
      var e :| Enabled(st.store, e) && t == Apply(st.store, e);
      StepKeepsConsistent(st.store, e);
    }
  }

  // ---------- every interleaving ----------

  ghost predicate CanAll(st: System, acts: seq<Action>)
    decreases |acts|
  {
    |acts| == 0 || (Can(st, acts[0]) && CanAll(Do(st, acts[0]), acts[1..]))
  }

  ghost function DoAll(st: System, acts: seq<Action>): System
    requires CanAll(st, acts)
    decreases |acts|
  {
    if |acts| == 0 then st else DoAll(Do(st, acts[0]), acts[1..])
  }

  function Start(now: int, s: Store): System {
    System(now, map[], map[], s, [])
  }

  lemma {:induction false} InterleavingsAreSafe(st: System, acts: seq<Action>)
    requires Safe(st) && CanAll(st, acts)
    ensures Safe(DoAll(st, acts)) && Persists(st, DoAll(st, acts))
    decreases |acts|
  {
    if |acts| > 0 {
      DoIsSafe(st, acts[0]);
      InterleavingsAreSafe(Do(st, acts[0]), acts[1..]);
      PersistsOn(st, Do(st, acts[0]), DoAll(Do(st, acts[0]), acts[1..]));
    }
  }

  predicate AnswersWith(c: Call, body: Body) {
    c.reply.Some? && ((c.reply.value.Handled? && c.reply.value.outcome.Success? && c.reply.value.outcome.body == body)
                      || (c.reply.value.Replayed? && c.reply.value.outcome.Success? && c.reply.value.outcome.body == body))
  }

  /** Whatever checkouts under one key are answered with names the one sale under that key. */
  lemma {:induction false} AnswerNamesTheSale(st: System, i: nat, body: Body)
    requires Safe(st) && i < |st.calls| && st.calls[i].slot.route == CheckoutRoute && AnswersWith(st.calls[i], body)
    ensures body.SaleBody? && body.id < |st.store.sales| && st.store.sales[body.id].key == st.calls[i].slot.key
    ensures Standing(body.sale) == Standing(st.store.sales[body.id])
  {
    var c := st.calls[i];
    assert CallFits(st, i, st.calls[i]);
    if c.reply.value.Replayed? {
      var j :| 0 <= j < |st.calls| && RanTo(st.calls[j], c.slot, c.hash, c.reply.value.outcome);
      assert CallFits(st, j, st.calls[j]);
    }
  }

  /** Over every interleaving of requests, crashes, database faults with or without a sale behind them, lost caches, expired
      leases and failed updates: all successful answers
      to one checkout key carry the same sale and the same amounts; the store holds exactly one sale under that key, with
      one set of stock movements and one journal entry. */
  lemma {:induction false} OneSalePerKey(now: int, s: Store, acts: seq<Action>, i: nat, j: nat, one: Body, two: Body)
    requires Consistent(s) && CanAll(Start(now, s), acts)
    requires var st := DoAll(Start(now, s), acts);
             && i < |st.calls| && j < |st.calls| && st.calls[i].slot == st.calls[j].slot && st.calls[i].slot.route == CheckoutRoute
             && AnswersWith(st.calls[i], one) && AnswersWith(st.calls[j], two)
    ensures one.SaleBody? && two.SaleBody? && one.id == two.id && Standing(one.sale) == Standing(two.sale)
    ensures var t := DoAll(Start(now, s), acts).store;
            && one.id < |t.sales| && SaleBooked(t, one.id)
            && forall k :: 0 <= k < |t.sales| && t.sales[k].key == DoAll(Start(now, s), acts).calls[i].slot.key ==> k == one.id
  {
    InterleavingsAreSafe(Start(now, s), acts);
    var st := DoAll(Start(now, s), acts);
    AnswerNamesTheSale(st, i, one);
    AnswerNamesTheSale(st, j, two);
    assert KeysUnique(st.store);
  }

  /** A sale that was committed although its request was told of a failure is found by the next request that runs under its
      key: it answers with that sale and commits nothing. */
  lemma {:induction false} RetryFindsTheSale(st: System, i: nat)
    requires Safe(st) && At(st, i, Admitted) && st.calls[i].slot.route == CheckoutRoute
    requires Checkout.KeyUsed(st.store.sales, st.calls[i].slot.key)
    ensures var t := Do(st, FindSale(i));
            && t.store == st.store
            && exists id :: 0 <= id < |st.store.sales| && st.store.sales[id].key == st.calls[i].slot.key
                            && t.calls[i].reply == Some(Handled(SaleReply(id, st.store.sales[id])))
  {
    var found := FoundBy(st.store, st.calls[i].slot.key);
    assert st.store.sales[found.value].key == st.calls[i].slot.key;
  }

  /** The fingerprint of a slot never changes once it is taken. */
  lemma {:induction false} FingerprintIsForever(st: System, acts: seq<Action>, slot: Slot)
    requires Safe(st) && CanAll(st, acts) && slot in st.rows
    ensures slot in DoAll(st, acts).rows && DoAll(st, acts).rows[slot].hash == st.rows[slot].hash
  {
    InterleavingsAreSafe(st, acts);
  }

  /** A replayed answer was really given by a run of a request with the same fingerprint on the same slot. */
  lemma {:induction false} ReplaysAreGenuine(now: int, s: Store, acts: seq<Action>, i: nat)
    requires Consistent(s) && CanAll(Start(now, s), acts)
    requires var st := DoAll(Start(now, s), acts); i < |st.calls| && st.calls[i].reply.Some? && st.calls[i].reply.value.Replayed?
    ensures var st := DoAll(Start(now, s), acts);
            st.calls[i].reply.value.outcome.Success? &&
            exists j :: 0 <= j < |st.calls| && RanTo(st.calls[j], st.calls[i].slot, st.calls[i].hash, st.calls[i].reply.value.outcome)
  {
    InterleavingsAreSafe(Start(now, s), acts);
    assert CallFits(DoAll(Start(now, s), acts), i, DoAll(Start(now, s), acts).calls[i]);
  }

  /** Of any number of first requests, the one that inserted the row is alone in the handler until its lease runs out or a
      result is recorded. */
  lemma {:induction false} FirstLeaseExcludes(now: int, s: Store, acts: seq<Action>, i: nat)
    requires Consistent(s) && CanAll(Start(now, s), acts)
    requires var st := DoAll(Start(now, s), acts);
             i < |st.calls| && InHandler(st.calls[i]) && FirstLease(st, st.calls[i].slot)
    ensures var st := DoAll(Start(now, s), acts);
            st.rows[st.calls[i].slot].owner == i &&
            forall j :: 0 <= j < |st.calls| && st.calls[j].slot == st.calls[i].slot && InHandler(st.calls[j]) ==> j == i
  {
    InterleavingsAreSafe(Start(now, s), acts);
    var st := DoAll(Start(now, s), acts);
    forall j | 0 <= j < |st.calls| && st.calls[j].slot == st.calls[i].slot && InHandler(st.calls[j])
      ensures j == st.rows[st.calls[i].slot].owner
    {
      assert CallFits(st, j, st.calls[j]);
    }
    assert CallFits(st, i, st.calls[i]);
  }

  /** Whoever inserts the row enters the handler, alone, with its first lease running. */
  lemma {:induction false} InsertAdmitsOne(st: System, i: nat)
    requires Safe(st) && Can(st, Insert(i)) && st.calls[i].slot !in st.rows
    ensures var t := Do(st, Insert(i));
            && InHandler(t.calls[i]) && FirstLease(t, t.calls[i].slot)
            && forall j :: 0 <= j < |t.calls| && t.calls[j].slot == t.calls[i].slot && InHandler(t.calls[j]) ==> j == i
  {
    InsertStepSafe(st, i);
    var t := Do(st, Insert(i));
    forall j | 0 <= j < |t.calls| && t.calls[j].slot == t.calls[i].slot && InHandler(t.calls[j])
      ensures j == i
    {
      assert CallFits(t, j, t.calls[j]);
    }
  }
}
