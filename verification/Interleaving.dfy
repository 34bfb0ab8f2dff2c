/** Supply-chain and catalogue transactions interleaved lock by lock. Each reads only what it has locked, works on what it
    read, and publishes its writes at commit; the result is always a serial run of events, in commit order. */
module Interleaving {
  import opened Wrappers
  import opened Int64
  import opened Tables
  import opened Sums
  import opened PurchaseOrders
  import opened Receipts
  import opened GoodsReceipts
  import opened Catalogue
  import opened Events
  import opened Integrity
  import opened OrderBooks
  import opened Runs
  import opened Locks
  import Compliance
  import opened Checkout
  import Inventory
  import Ledger

  // ---------- reading under a lock ----------

  /** What a transaction reads when it gets lock l: the committed rows that the lock protects. */
  function Refreshed(view: Store, s: Store, l: Lock): Store {
    match l
    case OrderRow(_) => view.(orders := s.orders, receipts := s.receipts)
    case ConfigTable => view.(policy := s.policy)
    case SupplierRow(_) => view.(suppliers := s.suppliers)
    case CertRow(_) => view.(certificates := s.certificates)
    case ReceiptKey(_) => view
    case ProductRow(_) => view.(products := s.products)
    case InventoryRow(_) => view.(stock := s.stock)
  }

  /** Whether the compliance decision is due under lock l, and whether it passes on what was read. */
  ghost predicate ComplianceMet(job: Job, view: Store, l: Lock) {
    match job
    case PlaceJob(supplier, cert, _, _, _, _, day) =>
      l == (if cert.Some? then CertRow(cert.value) else SupplierRow(supplier)) ==> !Compliance.Blocked(view, supplier, cert, day)
    case ReceiveJob(k, _, _, _, day) =>
      k < |view.orders| &&
      var o := view.orders[k];
      l == (if o.cert.Some? then CertRow(o.cert.value) else SupplierRow(o.supplier)) ==> !Compliance.Blocked(view, o.supplier, o.cert, day)
    case _ => true
  }

  /** The checks a transaction makes on what it read under lock l. */
  ghost predicate Passed(job: Job, view: Store, l: Lock) {
    match l
    case OrderRow(k) =>
      && k < |view.orders|
      && (job.ReceiveJob? ==> job.key != "" && Open(view.orders[k]))
      && (job.CancelJob? ==> view.orders[k].status in {DRAFT, ISSUED} && !AcceptsSome(view.receipts, k))
    case SupplierRow(_) => ComplianceMet(job, view, l)
    case CertRow(_) => ComplianceMet(job, view, l)
    case ReceiptKey(_) =>
      job.ReceiveJob? ==>
        && job.order < |view.orders| && DistinctProducts(view.orders[job.order].lines)
        && Deliverable(view.orders[job.order].lines, ReceivedOn(view.receipts, job.order), job.lines)
    case _ => true
  }

  /** What stays true of the committed rows while transaction f holds lock l. */
  ghost predicate Claim(s: Store, f: Flight, l: Lock) {
    var job, view := f.job, f.view;
    match l
    case OrderRow(k) =>
      && k < |s.orders| && k < |view.orders| && view.orders[k] == s.orders[k]
      && (forall p :: Received(view.receipts, k, p) == Received(s.receipts, k, p))
      && (job.ReceiveJob? ==> forall r <- s.receipts :: r.order == k ==> r.key != job.key)
    case ConfigTable => view.policy == s.policy
    case SupplierRow(x) => x in s.suppliers && x in view.suppliers && view.suppliers[x] == s.suppliers[x]
    case CertRow(c) => c in s.certificates && c in view.certificates && view.certificates[c] == s.certificates[c]
    case ReceiptKey(key) => !ReceiptKeyUsed(s.receipts, key)
    case ProductRow(p) =>
      && (job.PlaceJob? ==> OnSale(s, p))
      && (job.ProductJob? ==> p in s.products && p in view.products && view.products[p] == s.products[p] && (!job.active ==> !HasOutstanding(s, p)))
    case InventoryRow(p) =>
      job.ReceiveJob? ==> p in s.stock.onHand && p in view.stock.onHand && view.stock.onHand[p] == s.stock.onHand[p]
  }

  // ---------- committing ----------

  /** The row after a product job: an update brings prices and may raise the threshold, a deletion only the flag. */
  function RowAfter(row: Product, prices: Option<(int64, int64)>, active: bool, threshold: nat): Product {
    var priced := if prices.Some? then row.(unitPrice := prices.value.0, costPrice := prices.value.1) else row;
    priced.(isActive := active, reorderAt := if threshold > 0 then threshold else row.reorderAt)
  }

  function Decision(view: Store, supplier: nat, cert: Option<nat>, day: int): ComplianceOutcome {
    if Compliance.Passes(view, supplier, cert, day, ACCEPTED) then ACCEPTED else WARNING
  }

  /** The event a transaction stands for, from what it read. */
  function EventOf(f: Flight): Event
    requires f.job.ReceiveJob? ==> f.job.order < |f.view.orders|
    requires f.job.ProductJob? ==> f.job.product in f.view.products
    requires f.job.SupplierJob? ==> f.job.supplier in f.view.suppliers
  {
    match f.job
    case PlaceJob(supplier, cert, items, lines, total, _, day) =>
      PlaceOrder(items, Order(supplier, cert, total, ISSUED, lines, Decision(f.view, supplier, cert, day)), day)
    case ReceiveJob(k, key, lines, at, day) =>
      var o := f.view.orders[k];
      Events.Receive(Receipt(key, k, lines, Decision(f.view, o.supplier, o.cert, day)), at, day)
    case CancelJob(k) => CancelOrder(k)
    case ProductJob(p, prices, active, threshold) => SetProduct(p, RowAfter(f.view.products[p], prices, active, threshold))
    case SupplierJob(x, flag) => SetSupplier(x, if flag.Some? then flag.value else f.view.suppliers[x].isActive)
    case RevokeJob(c) => Revoke(c)
  }

  /** The balance rows a receipt writes: what it read, plus what it accepted. */
  function StockWritten(view: Store, s: Store, lines: seq<ReceiptLine>, at: int): Stock {
    Stock(map p | p in s.stock.onHand ::
            if AcceptedFor(p, lines) > 0 && p in view.stock.onHand then view.stock.onHand[p] + AcceptedFor(p, lines) else s.stock.onHand[p],
          s.stock.movements + ReceiptMovements(|s.receipts|, lines, at))
  }

  /** The writes a transaction publishes. Updated rows come from what it read; inserted rows go to the end. */
  function Written(s: Store, f: Flight): Store
    requires f.job.ReceiveJob? || f.job.CancelJob? ==> f.job.order < |f.view.orders| && f.job.order < |s.orders|
    requires f.job.ProductJob? ==> f.job.product in f.view.products
    requires f.job.SupplierJob? ==> f.job.supplier in f.view.suppliers
    requires f.job.RevokeJob? ==> f.job.revoked in f.view.certificates
  {
    match f.job
    case PlaceJob(supplier, cert, _, lines, total, _, day) =>
      s.(orders := s.orders + [Order(supplier, cert, total, ISSUED, lines, Decision(f.view, supplier, cert, day))])
    case ReceiveJob(k, key, lines, at, day) =>
      var o, value := f.view.orders[k], Valuation(f.view.orders[k].lines, lines);
      s.(receipts := s.receipts + [Receipt(key, k, lines, Decision(f.view, o.supplier, o.cert, day))],
         stock := StockWritten(f.view, s, lines, at),
         orders := s.orders[k := o.(status := NextStatus(o, ReceivedOn(f.view.receipts, k), lines))],
         entries := if value > 0 then s.entries + [Ledger.ReceiptEntry(|s.receipts|, value, day)] else s.entries)
    case CancelJob(k) => s.(orders := s.orders[k := f.view.orders[k].(status := CANCELLED)])
    case ProductJob(p, prices, active, threshold) => s.(products := s.products[p := RowAfter(f.view.products[p], prices, active, threshold)])
    case SupplierJob(x, flag) => s.(suppliers := s.suppliers[x := if flag.Some? then Supplier(flag.value) else f.view.suppliers[x]])
    case RevokeJob(c) => s.(certificates := s.certificates[c := f.view.certificates[c].(revoked := true)])
  }

  /** A receipt's journal is refused while an account it posts to is switched off. */
  predicate JournalBlocks(s: Store, f: Flight) {
    f.job.ReceiveJob? && f.job.order < |f.view.orders|
    && Valuation(f.view.orders[f.job.order].lines, f.job.lines) > 0 && ReceiptJournalRefused(s)
  }

  // ---------- the machine ----------

  datatype System = System(store: Store, flights: seq<Flight>, log: seq<Event>)

  /** `Other` is any other transaction, taken whole, while no row it writes is locked. */
  datatype Action = Begin(job: Job) | Take(who: nat) | Finish(who: nat) | Other(event: Event)

  /** A job as its request leaves the checks made before any lock. */
  ghost predicate JobSound(job: Job) {
    && SortedJob(job)
    && match job
       case PlaceJob(supplier, cert, items, lines, total, products, _) =>
         && |items| >= 1 && OrderFor(supplier, cert, items, Order(supplier, cert, total, ISSUED, lines, ACCEPTED))
         && (forall item <- items :: item.product in products) && (forall l <- lines :: l.product in products)
       case ProductJob(_, prices, _, _) => prices.Some? ==> PricesInBounds(Product("", None, prices.value.0, prices.value.1, true, 0))
       case _ => true
  }

  predicate Complete(f: Flight) {
    f.progress.Running? && f.progress.pc == |Plan(f.job, f.view.orders)|
  }

  function NextLock(f: Flight): Lock
    requires Asks(f)
  {
    Plan(f.job, f.view.orders)[f.progress.pc]
  }

  /** Whether transaction f goes on once it has its next lock; otherwise it rolls back. */
  ghost predicate GoesOn(s: Store, f: Flight)
    requires Asks(f)
  {
    var l := NextLock(f);
    var g := f.(view := Refreshed(f.view, s, l));
    Claim(s, g, l) && Passed(g.job, g.view, l)
  }

  /** The rows an event writes. */
  ghost predicate Touches(s: Store, e: Event, l: Lock)
    requires Addressed(s, e)
  {
    match l
    case OrderRow(k) => (e.Receive? && e.receipt.order == k) || (e.CancelOrder? && e.cancelled == k)
    case ConfigTable => e.SetPolicy?
    case SupplierRow(x) => e.SetSupplier? && e.supplier == x
    case CertRow(c) => e.Revoke? && e.cert == c
    case ReceiptKey(key) => e.Receive? && e.receipt.key == key
    case ProductRow(p) => (e.SetProduct? && e.product == p) || (e.PlaceOrder? && exists l <- e.order.lines :: l.product == p)
    case InventoryRow(p) => exists m <- NewMovements(s, e) :: m.product == p
  }

  ghost predicate Can(st: System, a: Action) {
    match a
    case Begin(job) => JobSound(job)
    case Take(i) => i < |st.flights| && Asks(st.flights[i]) && CanAdvance(st.flights, i)
    case Finish(i) => i < |st.flights| && Complete(st.flights[i]) && Ready(st.store, st.flights[i])
    case Other(e) => Enabled(st.store, e) && forall f <- st.flights, l <- Held(f) :: !Touches(st.store, e, l)
  }

  /** The rows a complete transaction names are there; an invariant, see CompleteIsReady. */
  predicate Ready(s: Store, f: Flight) {
    && (f.job.ReceiveJob? || f.job.CancelJob? ==> f.job.order < |f.view.orders| && f.job.order < |s.orders|)
    && (f.job.ProductJob? ==> f.job.product in f.view.products)
    && (f.job.SupplierJob? ==> f.job.supplier in f.view.suppliers)
    && (f.job.RevokeJob? ==> f.job.revoked in f.view.certificates)
  }

  ghost function Do(st: System, a: Action): System
    requires Can(st, a)
  {
    match a
    case Begin(job) => st.(flights := st.flights + [Flight(job, st.store, Running(0))])
    case Take(i) =>
      var f := st.flights[i];
      st.(flights := st.flights[i := if GoesOn(st.store, f)
                                     then f.(view := Refreshed(f.view, st.store, NextLock(f)), progress := Running(f.progress.pc + 1))
                                     else f.(progress := Aborted)])
    case Finish(i) =>
      var f := st.flights[i];
      if JournalBlocks(st.store, f) then st.(flights := st.flights[i := f.(progress := Aborted)])
      else System(Written(st.store, f), st.flights[i := f.(progress := Committed)], st.log + [EventOf(f)])
    case Other(e) => st.(store := Apply(st.store, e), log := st.log + [e])
  }

  // ---------- the invariant ----------

  ghost predicate FlightSafe(s: Store, f: Flight) {
    JobSound(f.job) && WellFlown(f) && forall l <- Held(f) :: Claim(s, f, l) && Passed(f.job, f.view, l)
  }

  /** No lock is held by two transactions unless both share it. */
  ghost predicate LocksExclude(fs: seq<Flight>) {
    forall i, j :: 0 <= i < |fs| && 0 <= j < |fs| && i != j ==> NoClash(fs[i], fs[j])
  }

  predicate NoClash(f: Flight, g: Flight) {
    forall l <- Held(f) :: !Clashes(f, g, l)
  }

  ghost predicate Safe(st: System) {
    Consistent(st.store) && (forall f <- st.flights :: FlightSafe(st.store, f)) && LocksExclude(st.flights)
  }

  // ---------- what a lock protects survives every event that does not write it ----------

  lemma {:induction false} OrderClaimStays(s: Store, e: Event, f: Flight, k: nat)
    requires Claim(s, f, OrderRow(k)) && Enabled(s, e) && !Touches(s, e, OrderRow(k))
    ensures Claim(Apply(s, e), f, OrderRow(k))
  {
    OrderLinesStay(s, e, k);
    OrdersAfter(s, e, k);
    forall p
      ensures Received(Apply(s, e).receipts, k, p) == Received(s.receipts, k, p)
    {
      ReceivedAfter(s, e, k, p);
    }
    if !e.Receive? { ApplyFrame(s, e); }
  }

  lemma {:induction false} OutstandingNeedsOrder(s: Store, e: Event, p: nat)
    requires Enabled(s, e) && !HasOutstanding(s, p) && !Touches(s, e, ProductRow(p))
    ensures !HasOutstanding(Apply(s, e), p)
  {
    var t := Apply(s, e);
    forall k, i | 0 <= k < |t.orders| && 0 <= i < |t.orders[k].lines| && LineOutstanding(t, k, i)
      ensures t.orders[k].lines[i].product != p
    {
      OutstandingBefore(s, e, k, i);
      if k >= |s.orders| { assert t.orders[k].lines[i] in e.order.lines; }
    }
  }

  lemma {:induction false} ProductRowStays(s: Store, e: Event, p: nat)
    requires Enabled(s, e) && p in s.products && !Touches(s, e, ProductRow(p))
    ensures p in Apply(s, e).products && Apply(s, e).products[p] == s.products[p]
  {
    if !e.AddProduct? && !e.SetProduct? { ApplyFrame(s, e); }
  }

  lemma {:induction false} ProductClaimStays(s: Store, e: Event, f: Flight, p: nat)
    requires Claim(s, f, ProductRow(p)) && Enabled(s, e) && !Touches(s, e, ProductRow(p))
    ensures Claim(Apply(s, e), f, ProductRow(p))
  {
    if f.job.PlaceJob? || f.job.ProductJob? { ProductRowStays(s, e, p); }
    if f.job.ProductJob? && !f.job.active { OutstandingNeedsOrder(s, e, p); }
  }

  lemma {:induction false} BalanceStays(s: Store, e: Event, p: nat)
    requires Enabled(s, e) && p in s.stock.onHand && !Touches(s, e, InventoryRow(p)) && s.stock.onHand.Keys == s.products.Keys
    ensures p in Apply(s, e).stock.onHand && Apply(s, e).stock.onHand[p] == s.stock.onHand[p]
  {
    ApplyPosts(s, e);
    SumZero(NewMovements(s, e), Inventory.DeltaOf(p));
  }

  lemma {:induction false} KeyClaimStays(s: Store, e: Event, f: Flight, key: string)
    requires Claim(s, f, ReceiptKey(key)) && Enabled(s, e) && !Touches(s, e, ReceiptKey(key))
    ensures Claim(Apply(s, e), f, ReceiptKey(key))
  {
    if !e.Receive? { ApplyFrame(s, e); }
  }

  lemma {:induction false} RowClaimStays(s: Store, e: Event, f: Flight, l: Lock)
    requires Claim(s, f, l) && Addressed(s, e) && !Touches(s, e, l) && (l.ConfigTable? || l.SupplierRow? || l.CertRow?)
    requires e.AddCertificate? ==> e.cert !in s.certificates
    ensures Claim(Apply(s, e), f, l)
  {
  }

  /** The lock discipline: an event that does not write the rows behind a lock leaves its holder's claim true. */
  lemma {:induction false} ClaimStays(s: Store, e: Event, f: Flight, l: Lock)
    requires s.stock.onHand.Keys == s.products.Keys && Claim(s, f, l) && Enabled(s, e) && !Touches(s, e, l)
    ensures Claim(Apply(s, e), f, l)
  {
    if l.OrderRow? {
      OrderClaimStays(s, e, f, l.order);
    } else if l.ProductRow? {
      ProductClaimStays(s, e, f, l.product);
    } else if l.InventoryRow? {
      if f.job.ReceiveJob? { BalanceStays(s, e, l.product); }
    } else if l.ReceiptKey? {
      KeyClaimStays(s, e, f, l.key);
    } else {
      RowClaimStays(s, e, f, l);
    }
  }

  // ---------- what a complete transaction may commit ----------

  lemma {:induction false} ProductLockHeld(products: seq<nat>, p: nat)
    requires p in products
    ensures ProductRow(p) in ProductLocks(products)
  {
    if products[|products| - 1] != p {
      ProductLockHeld(products[..|products| - 1], p);
    }
  }

  lemma {:induction false} InventoryLockHeld(lines: seq<ReceiptLine>, l: ReceiptLine)
    requires l in lines && l.accepted > 0
    ensures InventoryRow(l.product) in LineLocks(lines)
  {
    if lines[|lines| - 1] != l {
      InventoryLockHeld(lines[..|lines| - 1], l);
    }
  }

  /** With equal rows behind its locks, the gate decides the same on what was read and on what is committed. */
  lemma SameDecision(view: Store, s: Store, supplier: nat, cert: Option<nat>, day: int)
    requires view.policy == s.policy
    requires supplier in s.suppliers && supplier in view.suppliers && view.suppliers[supplier] == s.suppliers[supplier]
    requires cert.Some? ==> cert.value in s.certificates && cert.value in view.certificates && view.certificates[cert.value] == s.certificates[cert.value]
    ensures forall outcome :: Compliance.Passes(view, supplier, cert, day, outcome) <==> Compliance.Passes(s, supplier, cert, day, outcome)
  {
    assert Compliance.CertificateOf(view, supplier, cert) == Compliance.CertificateOf(s, supplier, cert);
  }

  lemma DecisionPasses(view: Store, supplier: nat, cert: Option<nat>, day: int)
    requires !Compliance.Blocked(view, supplier, cert, day)
    ensures Compliance.Passes(view, supplier, cert, day, Decision(view, supplier, cert, day))
  {
  }

  /** A complete transaction holds its whole plan. */
  lemma AllHeld(s: Store, f: Flight)
    requires FlightSafe(s, f) && Complete(f)
    ensures Held(f) == Plan(f.job, f.view.orders)
  {
  }

  lemma {:induction false} PlaceMayCommit(s: Store, f: Flight)
    requires FlightSafe(s, f) && Complete(f) && f.job.PlaceJob?
    ensures Enabled(s, EventOf(f)) && Written(s, f) == Apply(s, EventOf(f))
    ensures forall l :: Touches(s, EventOf(f), l) ==> l in Held(f) && Exclusive(f.job, l)
  {
    AllHeld(s, f);
    var job := f.job;
    var (supplier, cert) := (job.supplier, job.cert);
    var plan := [ConfigTable, SupplierRow(supplier)] + CertLocks(cert) + ProductLocks(job.products);
    assert plan[0] == ConfigTable && plan[1] == SupplierRow(supplier);
    assert ConfigTable in Held(f) && SupplierRow(supplier) in Held(f);
    if cert.Some? { assert plan[2] == CertRow(cert.value); assert CertRow(cert.value) in Held(f); }
    SameDecision(f.view, s, supplier, cert, job.day);
    DecisionPasses(f.view, supplier, cert, job.day);
    forall p | p in job.products
      ensures ProductRow(p) in Held(f) && OnSale(s, p)
    {
      ProductLockHeld(job.products, p);
      assert Claim(s, f, ProductRow(p));
    }
    PlacedOrderFits(job, Decision(f.view, supplier, cert, job.day));
  }

  lemma PlacedOrderFits(job: Job, decision: ComplianceOutcome)
    requires JobSound(job) && job.PlaceJob?
    ensures OrderFor(job.supplier, job.cert, job.items, Order(job.supplier, job.cert, job.total, ISSUED, job.orderLines, decision))
  {
    var (a, b) := (Order(job.supplier, job.cert, job.total, ISSUED, job.orderLines, ACCEPTED), Order(job.supplier, job.cert, job.total, ISSUED, job.orderLines, decision));
    assert OrderSound(a) && b.lines == a.lines && b.total == a.total;
  }

  /** What the locks of a complete receipt give. */
  lemma {:induction false} ReceiptClaims(s: Store, f: Flight)
    requires FlightSafe(s, f) && Complete(f) && f.job.ReceiveJob?
    ensures f.job.order < |f.view.orders| && f.job.order < |s.orders|
    ensures var o := f.view.orders[f.job.order];
            && OrderRow(f.job.order) in Held(f) && ReceiptKey(f.job.key) in Held(f) && ConfigTable in Held(f) && SupplierRow(o.supplier) in Held(f)
            && (o.cert.Some? ==> CertRow(o.cert.value) in Held(f))
            && (forall l <- f.job.lines :: l.accepted > 0 ==> InventoryRow(l.product) in Held(f))
  {
    AllHeld(s, f);
    var k := f.job.order;
    var plan := Plan(f.job, f.view.orders);
    assert plan[0] == OrderRow(k);
    assert OrderRow(k) in Held(f) && Claim(s, f, OrderRow(k));
    var o := f.view.orders[k];
    var front := [ConfigTable, SupplierRow(o.supplier)] + CertLocks(o.cert) + [ReceiptKey(f.job.key)];
    assert plan == [OrderRow(k)] + (front + LineLocks(f.job.lines));
    assert front[0] == ConfigTable && front[1] == SupplierRow(o.supplier) && front[|front| - 1] == ReceiptKey(f.job.key);
    if o.cert.Some? { assert front[2] == CertRow(o.cert.value); }
    assert forall l <- front :: l in plan;
    forall l | l in f.job.lines && l.accepted > 0
      ensures InventoryRow(l.product) in Held(f)
    {
      InventoryLockHeld(f.job.lines, l);
    }
  }

  /** The balances written from what was read are the committed balances plus the accepted goods. */
  lemma {:induction false} StockIsMoved(view: Store, s: Store, lines: seq<ReceiptLine>, at: int)
    requires NoRepeats(lines) && forall l <- lines :: l.accepted >= 0
    requires forall l <- lines :: l.accepted > 0 && l.product in s.stock.onHand ==>
               l.product in view.stock.onHand && view.stock.onHand[l.product] == s.stock.onHand[l.product]
    ensures StockWritten(view, s, lines, at) == Inventory.Moved(s.stock, ReceiptMovements(|s.receipts|, lines, at))
  {
    var id := |s.receipts|;
    forall p | p in s.stock.onHand
      ensures StockWritten(view, s, lines, at).onHand[p] == Inventory.Moved(s.stock, ReceiptMovements(id, lines, at)).onHand[p]
    {
      ReceiptDeltas(id, lines, at, p);
      AcceptedOnce(lines, p);
    }
    assert StockWritten(view, s, lines, at).onHand == Inventory.Moved(s.stock, ReceiptMovements(id, lines, at)).onHand;
  }

  lemma {:induction false} BalancesWereRead(s: Store, f: Flight)
    requires FlightSafe(s, f) && Complete(f) && f.job.ReceiveJob?
    ensures forall l <- f.job.lines :: l.accepted > 0 && l.product in s.stock.onHand ==>
              l.product in f.view.stock.onHand && f.view.stock.onHand[l.product] == s.stock.onHand[l.product]
  {
    ReceiptClaims(s, f);
    forall l | l in f.job.lines && l.accepted > 0
      ensures l.product in f.view.stock.onHand && l.product in s.stock.onHand && f.view.stock.onHand[l.product] == s.stock.onHand[l.product]
    {
      assert Claim(s, f, InventoryRow(l.product));
    }
  }

  lemma SameReceived(view: Store, s: Store, k: nat, olines: seq<OrderLine>, lines: seq<ReceiptLine>)
    requires forall p :: Received(view.receipts, k, p) == Received(s.receipts, k, p)
    ensures Deliverable(olines, ReceivedOn(view.receipts, k), lines) <==> Deliverable(olines, ReceivedOn(s.receipts, k), lines)
    ensures forall o: Order :: NextStatus(o, ReceivedOn(view.receipts, k), lines) == NextStatus(o, ReceivedOn(s.receipts, k), lines)
    ensures AcceptsSome(view.receipts, k) <==> AcceptsSome(s.receipts, k)
  {
  }

  lemma {:induction false} ReceiptIsReceivable(s: Store, f: Flight)
    requires FlightSafe(s, f) && Complete(f) && f.job.ReceiveJob? && !JournalBlocks(s, f)
    ensures f.job.order < |f.view.orders| && Receivable(s, EventOf(f).receipt, f.job.day)
  {
    var (job, view, k) := (f.job, f.view, f.job.order);
    ReceiptClaims(s, f);
    assert Claim(s, f, OrderRow(k)) && Passed(job, view, OrderRow(k));
    var o := view.orders[k];
    assert Claim(s, f, ReceiptKey(job.key)) && Passed(job, view, ReceiptKey(job.key));
    assert Claim(s, f, ConfigTable) && Claim(s, f, SupplierRow(o.supplier)) && Passed(job, view, SupplierRow(o.supplier));
    if o.cert.Some? { assert Claim(s, f, CertRow(o.cert.value)) && Passed(job, view, CertRow(o.cert.value)); }
    SameDecision(view, s, o.supplier, o.cert, job.day);
    DecisionPasses(view, o.supplier, o.cert, job.day);
    SameReceived(view, s, k, o.lines, job.lines);
  }

  lemma {:induction false} ReceiptMayCommit(s: Store, f: Flight)
    requires FlightSafe(s, f) && Complete(f) && f.job.ReceiveJob? && !JournalBlocks(s, f)
    ensures Ready(s, f) && Enabled(s, EventOf(f)) && Written(s, f) == Apply(s, EventOf(f))
  {
    var (job, view, k) := (f.job, f.view, f.job.order);
    ReceiptClaims(s, f);
    assert Claim(s, f, OrderRow(k));
    ReceiptIsReceivable(s, f);
    BalancesWereRead(s, f);
    StockIsMoved(view, s, job.lines, job.at);
    SameReceived(view, s, k, view.orders[k].lines, job.lines);
  }

  /** The rows a receipt writes. */
  lemma {:induction false} ReceiptTouches(s: Store, r: Receipt, at: int, day: int, l: Lock)
    requires r.order < |s.orders| && Touches(s, Events.Receive(r, at, day), l)
    ensures l == OrderRow(r.order) || l == ReceiptKey(r.key)
            || (l.InventoryRow? && exists line <- r.lines :: line.accepted > 0 && line.product == l.product)
  {
    if l.InventoryRow? {
      var m :| m in ReceiptMovements(|s.receipts|, r.lines, at) && m.product == l.product;
      MovementHasLine(|s.receipts|, r.lines, at, m);
    }
  }

  lemma {:induction false} ReceiptTouchesHeld(s: Store, f: Flight, l: Lock)
    requires FlightSafe(s, f) && Complete(f) && f.job.ReceiveJob? && f.job.order < |f.view.orders| && f.job.order < |s.orders|
    requires Touches(s, EventOf(f), l)
    ensures l in Held(f) && Exclusive(f.job, l)
  {
    ReceiptClaims(s, f);
    ReceiptTouches(s, EventOf(f).receipt, f.job.at, f.job.day, l);
  }

  lemma {:induction false} MovementHasLine(id: nat, lines: seq<ReceiptLine>, at: int, m: Movement)
    requires m in ReceiptMovements(id, lines, at)
    ensures exists l <- lines :: l.accepted > 0 && l.product == m.product
  {
    var n := |lines| - 1;
    if m in ReceiptMovements(id, lines[..n], at) {
      MovementHasLine(id, lines[..n], at, m);
    } else {
      assert lines[n] in lines;
    }
  }

  lemma {:induction false} OneRowMayCommit(s: Store, f: Flight)
    requires FlightSafe(s, f) && Complete(f) && (f.job.CancelJob? || f.job.SupplierJob? || f.job.RevokeJob?)
    ensures Ready(s, f) && Enabled(s, EventOf(f)) && Written(s, f) == Apply(s, EventOf(f))
    ensures forall l :: Touches(s, EventOf(f), l) ==> l in Held(f) && Exclusive(f.job, l)
  {
    AllHeld(s, f);
    var l := Plan(f.job, f.view.orders)[0];
    assert l in Held(f) && Claim(s, f, l) && Passed(f.job, f.view, l);
    if f.job.CancelJob? { SameReceived(f.view, s, f.job.order, [], []); }
  }

  lemma {:induction false} ProductMayCommit(s: Store, f: Flight)
    requires Checkout.Linked(s) && FlightSafe(s, f) && Complete(f) && f.job.ProductJob?
    ensures Ready(s, f) && Enabled(s, EventOf(f)) && Written(s, f) == Apply(s, EventOf(f))
    ensures forall l :: Touches(s, EventOf(f), l) ==> l in Held(f) && Exclusive(f.job, l)
  {
    AllHeld(s, f);
    var p := f.job.product;
    assert Plan(f.job, f.view.orders)[0] == ProductRow(p);
    assert ProductRow(p) in Held(f) && Claim(s, f, ProductRow(p));
  }

  /** A complete transaction commits exactly one event that is allowed now, from what it read, and writes only rows it
      holds exclusively. */
  lemma {:induction false} CompleteMayCommit(s: Store, f: Flight)
    requires Consistent(s) && FlightSafe(s, f) && Complete(f) && !JournalBlocks(s, f)
    ensures Ready(s, f) && Enabled(s, EventOf(f)) && Written(s, f) == Apply(s, EventOf(f))
    ensures forall l :: Touches(s, EventOf(f), l) ==> l in Held(f) && Exclusive(f.job, l)
  {
    match f.job
    case PlaceJob(_, _, _, _, _, _, _) => PlaceMayCommit(s, f);
    case ReceiveJob(_, _, _, _, _) =>
      ReceiptMayCommit(s, f);
      forall l | Touches(s, EventOf(f), l)
        ensures l in Held(f) && Exclusive(f.job, l)
      {
        ReceiptTouchesHeld(s, f, l);
      }
    case ProductJob(_, _, _, _) => ProductMayCommit(s, f);
    case _ => OneRowMayCommit(s, f);
  }

  // ---------- every step of the machine keeps it safe ----------

  lemma {:induction false} HeldStays(f: Flight, view: Store)
    requires Asks(f) && WellFlown(f) && (f.job.ReceiveJob? && f.progress.pc > 0 ==> view.orders == f.view.orders)
    requires f.job.ReceiveJob? && f.progress.pc == 0 ==> NextLock(f) == OrderRow(f.job.order)
    ensures var g := f.(view := view, progress := Running(f.progress.pc + 1));
            WellFlown(g) && Held(g) == Held(f) + [NextLock(f)]
  {
    var pc, plan := f.progress.pc, Plan(f.job, f.view.orders);
    var g := f.(view := view, progress := Running(pc + 1));
    if f.job.ReceiveJob? && pc == 0 {
      assert Plan(g.job, g.view.orders)[0] == OrderRow(f.job.order);
    } else {
      assert Plan(g.job, g.view.orders) == plan;
    }
    assert plan[..pc + 1] == plan[..pc] + [plan[pc]];
  }

  /** A receipt locks its order first and never again. */
  lemma {:induction false} OrderLockFirst(f: Flight)
    requires Asks(f) && WellFlown(f) && f.job.ReceiveJob?
    ensures f.progress.pc == 0 ==> NextLock(f) == OrderRow(f.job.order)
    ensures f.progress.pc > 0 ==> !NextLock(f).OrderRow?
  {
    var plan := Plan(f.job, f.view.orders);
    assert plan[0] == OrderRow(f.job.order);
    PlansClimb(f.job, f.view.orders);
    if f.progress.pc > 0 { assert Rank(plan[0]) < Rank(plan[f.progress.pc]); }
  }

  /** Reading more rows keeps what was read before. */
  lemma {:induction false} ClaimOutlivesRead(s: Store, f: Flight, l: Lock, next: Lock)
    requires Claim(s, f, l)
    ensures Claim(s, f.(view := Refreshed(f.view, s, next)), l)
  {
  }

  /** A check passed once still passes after later reads. */
  lemma {:induction false} PassedOutlivesRead(s: Store, f: Flight, l: Lock, next: Lock)
    requires Passed(f.job, f.view, l) && Rank(l) < Rank(next)
    ensures Passed(f.job, Refreshed(f.view, s, next), l)
  {
  }

  /** Later locks rank higher than held ones. */
  lemma {:induction false} HeldRanksBelow(f: Flight, l: Lock)
    requires WellFlown(f) && Asks(f) && l in Held(f)
    ensures Rank(l) < Rank(NextLock(f))
  {
    PlansClimb(f.job, f.view.orders);
  }

  /** What was read and checked before holds after one more read. */
  lemma {:induction false} EarlierReadsHold(s: Store, f: Flight, next: Lock)
    requires WellFlown(f) && Asks(f) && next == NextLock(f) && (forall l <- Held(f) :: Claim(s, f, l) && Passed(f.job, f.view, l))
    ensures var g := f.(view := Refreshed(f.view, s, next)); forall l <- Held(f) :: Claim(s, g, l) && Passed(f.job, g.view, l)
  {
    forall l | l in Held(f)
      ensures Claim(s, f.(view := Refreshed(f.view, s, next)), l) && Passed(f.job, Refreshed(f.view, s, next), l)
    {
      HeldRanksBelow(f, l);
      ClaimOutlivesRead(s, f, l, next);
      PassedOutlivesRead(s, f, l, next);
    }
  }

  lemma SameClaims(s: Store, f: Flight, g: Flight, l: Lock)
    requires Claim(s, f, l) && g.job == f.job && g.view == f.view
    ensures Claim(s, g, l)
  {
  }

  lemma {:induction false} TakingKeepsFlight(s: Store, f: Flight)
    requires FlightSafe(s, f) && Asks(f) && GoesOn(s, f)
    ensures var g := f.(view := Refreshed(f.view, s, NextLock(f)), progress := Running(f.progress.pc + 1));
            FlightSafe(s, g) && Held(g) == Held(f) + [NextLock(f)]
  {
    var next := NextLock(f);
    var read := f.(view := Refreshed(f.view, s, next));
    var g := read.(progress := Running(f.progress.pc + 1));
    if f.job.ReceiveJob? { OrderLockFirst(f); }
    HeldStays(f, g.view);
    EarlierReadsHold(s, f, next);
    forall l | l in Held(g)
      ensures Claim(s, g, l) && Passed(g.job, g.view, l)
    {
      SameClaims(s, read, g, l);
    }
  }

  lemma {:induction false} TakingKeepsExclusion(fs: seq<Flight>, i: nat, g: Flight)
    requires i < |fs| && LocksExclude(fs) && CanAdvance(fs, i) && Asks(fs[i]) && g.job == fs[i].job
    requires Held(g) == Held(fs[i]) + [NextLock(fs[i])]
    ensures LocksExclude(fs[i := g])
  {
    forall j | 0 <= j < |fs| && j != i
      ensures NoClash(g, fs[j]) && NoClash(fs[j], g)
    {
      var f, next := fs[i], NextLock(fs[i]);
      assert NoClash(f, fs[j]) && NoClash(fs[j], f) && !WaitsFor(fs, i, j) && Wants(f, next);
      assert !Clashes(f, fs[j], next);
    }
  }

  /** A transaction that ends lets its locks go. */
  lemma EndingKeepsExclusion(fs: seq<Flight>, i: nat, g: Flight)
    requires i < |fs| && LocksExclude(fs) && Held(g) == []
    ensures LocksExclude(fs[i := g])
  {
  }

  lemma FlightOutlives(s: Store, e: Event, f: Flight)
    requires s.stock.onHand.Keys == s.products.Keys && FlightSafe(s, f) && Enabled(s, e) && forall l <- Held(f) :: !Touches(s, e, l)
    ensures FlightSafe(Apply(s, e), f)
  {
    forall l | l in Held(f)
      ensures Claim(Apply(s, e), f, l)
    {
      ClaimStays(s, e, f, l);
    }
  }

  lemma {:induction false} TakeKeepsSafe(st: System, i: nat)
    requires Safe(st) && Can(st, Take(i))
    ensures Safe(Do(st, Take(i)))
  {
    var f := st.flights[i];
    assert f in st.flights;
    var t := Do(st, Take(i));
    if GoesOn(st.store, f) {
      TakingKeepsFlight(st.store, f);
      TakingKeepsExclusion(st.flights, i, t.flights[i]);
    } else {
      EndingKeepsExclusion(st.flights, i, t.flights[i]);
    }
    UpdateMembers(st.flights, i, t.flights[i]);
  }

  /** Committing does not touch a row another transaction has locked. */
  lemma {:induction false} OthersOutlive(st: System, i: nat, j: nat)
    requires Safe(st) && i < |st.flights| && j < |st.flights| && i != j && Complete(st.flights[i]) && !JournalBlocks(st.store, st.flights[i])
    requires Ready(st.store, st.flights[i]) && Enabled(st.store, EventOf(st.flights[i]))
    ensures FlightSafe(Apply(st.store, EventOf(st.flights[i])), st.flights[j])
  {
    var (f, g) := (st.flights[i], st.flights[j]);
    assert f in st.flights && g in st.flights && NoClash(g, f);
    CompleteMayCommit(st.store, f);
    forall l | l in Held(g)
      ensures !Touches(st.store, EventOf(f), l)
    {
      assert !Clashes(g, f, l);
    }
    FlightOutlives(st.store, EventOf(f), g);
  }

  lemma {:induction false} FinishKeepsSafe(st: System, i: nat)
    requires Safe(st) && Can(st, Finish(i))
    ensures Safe(Do(st, Finish(i)))
  {
    var f := st.flights[i];
    assert f in st.flights;
    var t := Do(st, Finish(i));
    EndingKeepsExclusion(st.flights, i, t.flights[i]);
    if JournalBlocks(st.store, f) {
      UpdateMembers(st.flights, i, t.flights[i]);
    } else {
      CompleteMayCommit(st.store, f);
      StepKeepsConsistent(st.store, EventOf(f));
      forall j | 0 <= j < |t.flights|
        ensures FlightSafe(t.store, t.flights[j])
      {
        if j != i { OthersOutlive(st, i, j); }
      }
    }
  }

  lemma {:induction false} OtherKeepsSafe(st: System, e: Event)
    requires Safe(st) && Can(st, Other(e))
    ensures Safe(Do(st, Other(e)))
  {
    StepKeepsConsistent(st.store, e);
    forall f | f in st.flights
      ensures FlightSafe(Apply(st.store, e), f)
    {
      FlightOutlives(st.store, e, f);
    }
  }

  lemma {:induction false} DoKeepsSafe(st: System, a: Action)
    requires Safe(st) && Can(st, a)
    ensures Safe(Do(st, a))
  {
    if a.Take? {
      TakeKeepsSafe(st, a.who);
    } else if a.Finish? {
      FinishKeepsSafe(st, a.who);
    } else if a.Other? {
      OtherKeepsSafe(st, a.event);
    } else {
      var g := Flight(a.job, st.store, Running(0));
      assert forall f <- st.flights + [g] :: f in st.flights || f == g;
    }
  }

  // ---------- interleavings ----------

  ghost predicate CanAll(st: System, acts: seq<Action>)
    decreases |acts|
  {
    |acts| == 0 || (Can(st, acts[0]) && CanAll(Do(st, acts[0]), acts[1..]))
  }

  ghost function DoAll(st: System, acts: seq<Action>): System
    requires CanAll(st, acts)
    decreases |acts|
  {
    if |acts| == 0 then st else DoAll(Do(st, acts[0]), acts[1..])
  }

  lemma {:induction false} RunAppends(s: Store, es: seq<Event>, e: Event)
    requires CanRun(s, es) && Enabled(After(s, es), e)
    ensures CanRun(s, es + [e]) && After(s, es + [e]) == Apply(After(s, es), e)
    decreases |es|
  {
    if |es| > 0 {
      RunAppends(Apply(s, es[0]), es[1..], e);
      assert (es + [e])[1..] == es[1..] + [e];
    } else {
      assert [] + [e] == [e] && [e][1..] == [];
    }
  }

  /** The log is the serial run that explains the store. */
  ghost predicate Explained(s: Store, st: System) {
    CanRun(s, st.log) && st.store == After(s, st.log)
  }

  lemma {:induction false} DoStaysExplained(s: Store, st: System, a: Action)
    requires Safe(st) && Explained(s, st) && Can(st, a)
    ensures Explained(s, Do(st, a))
  {
    match a
    case Finish(i) =>
      var f := st.flights[i];
      assert f in st.flights;
      if !JournalBlocks(st.store, f) {
        CompleteMayCommit(st.store, f);
        RunAppends(s, st.log, EventOf(f));
      }
    case Other(e) => RunAppends(s, st.log, e);
    case _ =>
  }

  /** However transactions interleave, the store is the one a serial run of their commits leaves, in commit order. */
  lemma {:induction false} InterleavingsAreSerial(s: Store, st: System, acts: seq<Action>)
    requires Safe(st) && Explained(s, st) && CanAll(st, acts)
    ensures Safe(DoAll(st, acts)) && Explained(s, DoAll(st, acts))
    decreases |acts|
  {
    if |acts| > 0 {
      DoKeepsSafe(st, acts[0]);
      DoStaysExplained(s, st, acts[0]);
      InterleavingsAreSerial(s, Do(st, acts[0]), acts[1..]);
    }
  }

  /** Under every interleaving of order creation, receipts and product deactivation, no open order waits for a product
      that is switched off, and no receipt key is used twice. */
  lemma {:induction false} NoOrderIsStranded(s: Store, acts: seq<Action>)
    requires Consistent(s) && CanAll(System(s, [], []), acts)
    ensures var t := DoAll(System(s, [], []), acts).store;
            OpenOrdersActive(t) && ReceiptKeysUnique(t) && (forall k :: 0 <= k < |t.orders| ==> OrderSafe(t, k))
  {
    InterleavingsAreSerial(s, System(s, [], []), acts);
  }

  /** A receipt that has locked its order never runs into a receipt of that order under the same key: the lookup, made
      under the order lock, has already seen every one of them. */
  lemma {:induction false} ReplayNeverCollides(s: Store, acts: seq<Action>, i: nat, r: Receipt)
    requires Consistent(s) && CanAll(System(s, [], []), acts)
    requires var st := DoAll(System(s, [], []), acts);
             && i < |st.flights| && st.flights[i].job.ReceiveJob? && OrderRow(st.flights[i].job.order) in Held(st.flights[i])
             && r in st.store.receipts && r.order == st.flights[i].job.order
    ensures r.key != DoAll(System(s, [], []), acts).flights[i].job.key
  {
    InterleavingsAreSerial(s, System(s, [], []), acts);
    var st := DoAll(System(s, [], []), acts);
    assert FlightSafe(st.store, st.flights[i]);
    assert Claim(st.store, st.flights[i], OrderRow(st.flights[i].job.order));
  }

  /** No interleaving deadlocks: while a transaction is unfinished, some transaction can take its next lock or finish. */
  lemma {:induction false} NeverDeadlocked(s: Store, acts: seq<Action>)
    requires Consistent(s) && CanAll(System(s, [], []), acts)
    requires exists i :: 0 <= i < |DoAll(System(s, [], []), acts).flights| && DoAll(System(s, [], []), acts).flights[i].progress.Running?
    ensures exists i :: Can(DoAll(System(s, [], []), acts), Take(i)) || Can(DoAll(System(s, [], []), acts), Finish(i))
  {
    InterleavingsAreSerial(s, System(s, [], []), acts);
    var st := DoAll(System(s, [], []), acts);
    SomeoneAdvances(st.flights);
    var i :| 0 <= i < |st.flights| && CanAdvance(st.flights, i);
    var f := st.flights[i];
    assert FlightSafe(st.store, f);
    if Asks(f) {
      assert Can(st, Take(i));
    } else {
      CompleteIsReady(st.store, f);
      assert Can(st, Finish(i));
    }
  }

  lemma {:induction false} CompleteIsReady(s: Store, f: Flight)
    requires Consistent(s) && FlightSafe(s, f) && Complete(f)
    ensures Ready(s, f)
  {
    AllHeld(s, f);
    if f.job.ReceiveJob? {
      ReceiptClaims(s, f);
    } else if !f.job.PlaceJob? {
      var l := Plan(f.job, f.view.orders)[0];
      assert l in Held(f) && Claim(s, f, l) && Passed(f.job, f.view, l);
    }
  }

  // ---------- the locks bite ----------

  lemma {:induction false} ThreeActions(st: System, a: Action, b: Action, c: Action)
    requires Can(st, a) && Can(Do(st, a), b) && Can(Do(Do(st, a), b), c)
    ensures CanAll(st, [a, b, c]) && DoAll(st, [a, b, c]) == Do(Do(Do(st, a), b), c)
  {
    var t := Do(Do(st, a), b);
    assert [a, b, c][1..] == [b, c] && [b, c][1..] == [c] && [c][1..] == [];
    assert CanAll(Do(t, c), []) && DoAll(Do(t, c), []) == Do(t, c);
    assert CanAll(t, [c]) && DoAll(t, [c]) == Do(t, c);
    assert CanAll(Do(st, a), [b, c]) && DoAll(Do(st, a), [b, c]) == Do(t, c);
  }

  /** The machine does block: of two cancellations of one order, the second waits once the first has locked the row. */
  lemma {:induction false} SecondCancellationWaits(s: Store, k: nat)
    requires k < |s.orders| && s.orders[k].status == ISSUED && !AcceptsSome(s.receipts, k)
    ensures var acts := [Begin(CancelJob(k)), Begin(CancelJob(k)), Take(0)];
            && CanAll(System(s, [], []), acts)
            && |DoAll(System(s, [], []), acts).flights| == 2 && WaitsFor(DoAll(System(s, [], []), acts).flights, 1, 0)
  {
    var (st, begin) := (System(s, [], []), Begin(CancelJob(k)));
    var f := Flight(CancelJob(k), s, Running(0));
    var two := Do(Do(st, begin), begin);
    assert two == System(s, [f, f], []);
    assert Plan(f.job, s.orders) == [OrderRow(k)] && NextLock(f) == OrderRow(k);
    assert Held(f) == [];
    assert CanAdvance(two.flights, 0);
    var g := f.(progress := Running(1));
    assert Refreshed(s, s, OrderRow(k)) == s;
    assert GoesOn(s, f);
    var three := Do(two, Take(0));
    assert three.flights == [g, f];
    assert Held(g) == [OrderRow(k)] && Clashes(f, g, OrderRow(k)) && Wants(f, OrderRow(k));
    var fs := three.flights;
    assert Wants(fs[1], OrderRow(k)) && Clashes(fs[1], fs[0], OrderRow(k)) && OrderRow(k) in Plan(fs[1].job, fs[1].view.orders);
    assert WaitsFor(three.flights, 1, 0);
    ThreeActions(st, begin, begin, Take(0));
  }
}
