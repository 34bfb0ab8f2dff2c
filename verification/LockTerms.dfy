/** What the interleaved transactions lock, when one waits for another, and that a transaction nothing interferes with
    commits exactly what its request asks for. */
module LockTerms {
  import opened Wrappers
  import opened Tables
  import opened PurchaseOrders
  import opened Receipts
  import opened GoodsReceipts
  import opened Catalogue
  import opened Events
  import opened Runs
  import opened Locks
  import opened Interleaving
  import Compliance

  // ---------- which rows a transaction locks ----------

  lemma {:induction false} ProductLocksAre(products: seq<nat>, l: Lock)
    ensures l in ProductLocks(products) <==> l.ProductRow? && l.product in products
  {
    if |products| > 0 {
      ProductLocksAre(products[..|products| - 1], l);
    }
  }

  lemma {:induction false} LineLocksAre(lines: seq<ReceiptLine>, l: Lock)
    ensures l in LineLocks(lines) <==>
              || (l.ProductRow? && exists line <- lines :: line.product == l.product)
              || (l.InventoryRow? && exists line <- lines :: line.product == l.product && line.accepted > 0)
  {
    if |lines| > 0 {
      LineLocksAre(lines[..|lines| - 1], l);
      assert lines == lines[..|lines| - 1] + [lines[|lines| - 1]];
    }
  }

  /** The rows each kind of transaction locks, and no others. */
  lemma {:induction false} PlansAre(job: Job, orders: seq<Order>, l: Lock)
    ensures job.PlaceJob? ==>
              (l in Plan(job, orders) <==>
                 || l == ConfigTable || l == SupplierRow(job.supplier) || (job.cert.Some? && l == CertRow(job.cert.value))
                 || (l.ProductRow? && l.product in job.products))
    ensures job.ReceiveJob? && job.order < |orders| ==>
              (l in Plan(job, orders) <==>
                 || l == OrderRow(job.order) || l == ConfigTable || l == SupplierRow(orders[job.order].supplier)
                 || (orders[job.order].cert.Some? && l == CertRow(orders[job.order].cert.value)) || l == ReceiptKey(job.key)
                 || (l.ProductRow? && exists line <- job.lines :: line.product == l.product)
                 || (l.InventoryRow? && exists line <- job.lines :: line.product == l.product && line.accepted > 0))
    ensures job.CancelJob? ==> Plan(job, orders) == [OrderRow(job.order)]
    ensures job.ProductJob? ==> Plan(job, orders) == if job.threshold > 0 then [ProductRow(job.product), InventoryRow(job.product)] else [ProductRow(job.product)]
    ensures job.SupplierJob? ==> Plan(job, orders) == [SupplierRow(job.supplier)]
    ensures job.RevokeJob? ==> Plan(job, orders) == [CertRow(job.revoked)]
  {
    if job.PlaceJob? {
      ProductLocksAre(job.products, l);
    } else if job.ReceiveJob? {
      LineLocksAre(job.lines, l);
    }
  }

  /** One transaction waits for another exactly when it asks for a row the other holds, unless both only share it: the
      configuration, and the product row of two receipts. */
  lemma {:induction false} WaitsExactlyWhen(fs: seq<Flight>, i: nat, j: nat)
    requires i < |fs| && j < |fs| && i != j && fs[i].progress.Running?
    ensures WaitsFor(fs, i, j) <==>
              && fs[i].progress.pc < |Plan(fs[i].job, fs[i].view.orders)|
              && var l := Plan(fs[i].job, fs[i].view.orders)[fs[i].progress.pc];
                 l in Held(fs[j]) && l != ConfigTable && !(l.ProductRow? && fs[i].job.ReceiveJob? && fs[j].job.ReceiveJob?)
  {
    if fs[i].progress.pc < |Plan(fs[i].job, fs[i].view.orders)| {
      var l := Plan(fs[i].job, fs[i].view.orders)[fs[i].progress.pc];
      assert Wants(fs[i], l);
    }
  }

  // ---------- a transaction on its own ----------

  /** Everything a transaction checks holds of the committed rows. */
  ghost predicate Passable(s: Store, job: Job) {
    match job
    case PlaceJob(supplier, cert, _, _, _, products, day) =>
      !Compliance.Blocked(s, supplier, cert, day) && forall p <- products :: p in s.products && s.products[p].isActive
    case ReceiveJob(k, key, lines, _, day) =>
      && key != "" && (forall r <- s.receipts :: r.key != key) && k < |s.orders| && s.orders[k].status in {ISSUED, PARTIALLY_RECEIVED}
      && !Compliance.Blocked(s, s.orders[k].supplier, s.orders[k].cert, day)
      && DistinctProducts(s.orders[k].lines) && Deliverable(s.orders[k].lines, ReceivedOn(s.receipts, k), lines)
      && (forall l <- lines :: l.product in s.stock.onHand)
      && (Valuation(s.orders[k].lines, lines) > 0 ==> forall code <- {1030, 2010} :: code in s.accounts && s.accounts[code].isActive)
    case CancelJob(k) => k < |s.orders| && s.orders[k].status == ISSUED && !AcceptsSome(s.receipts, k)
    case ProductJob(p, _, active, _) => p in s.products && (!active ==> !HasOutstanding(s, p))
    case SupplierJob(x, _) => x in s.suppliers
    case RevokeJob(c) => c in s.certificates
  }

  lemma {:induction false} ReceiptChecksPass(s: Store, f: Flight, l: Lock)
    requires f.job.ReceiveJob? && f.view == s && Passable(s, f.job) && l in Plan(f.job, s.orders)
    ensures Claim(s, f, l) && Passed(f.job, s, l)
  {
    var o := s.orders[f.job.order];
    PlansAre(f.job, s.orders, l);
    assert Open(o) && !ReceiptKeyUsed(s.receipts, f.job.key);
    assert o.supplier in s.suppliers && (o.cert.Some? ==> o.cert.value in s.certificates);
  }

  lemma {:induction false} ChecksPass(s: Store, f: Flight, l: Lock)
    requires f.view == s && Passable(s, f.job) && l in Plan(f.job, s.orders)
    ensures Claim(s, f, l) && Passed(f.job, s, l)
  {
    PlansAre(f.job, s.orders, l);
    if f.job.ReceiveJob? {
      ReceiptChecksPass(s, f, l);
    } else if f.job.PlaceJob? {
      assert f.job.supplier in s.suppliers && (f.job.cert.Some? ==> f.job.cert.value in s.certificates);
    }
  }

  function Alone(s: Store, job: Job, pc: nat): System {
    System(s, [Flight(job, s, Running(pc))], [])
  }

  /** Its next lock is free, and what it reads under it passes. */
  lemma {:induction false} TakesNext(s: Store, job: Job, pc: nat)
    requires Passable(s, job) && pc < |Plan(job, s.orders)|
    ensures Can(Alone(s, job, pc), Take(0)) && Do(Alone(s, job, pc), Take(0)) == Alone(s, job, pc + 1)
  {
    var (st, f) := (Alone(s, job, pc), Flight(job, s, Running(pc)));
    var l := Plan(job, s.orders)[pc];
    assert NextLock(f) == l && Refreshed(s, s, l) == s;
    ChecksPass(s, f, l);
    assert f.(view := s) == f && GoesOn(s, f);
    assert forall j :: 0 <= j < |st.flights| ==> !WaitsFor(st.flights, 0, j);
    assert CanAdvance(st.flights, 0);
  }

  function Takes(n: nat): seq<Action> {
    if n == 0 then [] else [Take(0)] + Takes(n - 1)
  }

  ghost predicate TakesTo(a: System, b: System) {
    Can(a, Take(0)) && Do(a, Take(0)) == b
  }

  lemma {:induction false} OneMoreTake(a: System, b: System, n: nat)
    requires TakesTo(a, b) && CanAll(b, Takes(n))
    ensures CanAll(a, Takes(n + 1)) && DoAll(a, Takes(n + 1)) == DoAll(b, Takes(n))
  {
    assert Takes(n + 1)[1..] == Takes(n);
  }

  lemma {:induction false} TakesAlong(sts: seq<System>, n: nat)
    requires n < |sts| && forall i :: 0 <= i < |sts| - 1 ==> TakesTo(sts[i], sts[i + 1])
    ensures CanAll(sts[|sts| - 1 - n], Takes(n)) && DoAll(sts[|sts| - 1 - n], Takes(n)) == sts[|sts| - 1]
  {
    if n > 0 {
      TakesAlong(sts, n - 1);
      OneMoreTake(sts[|sts| - 1 - n], sts[|sts| - n], n - 1);
    }
  }

  function Climbing(s: Store, job: Job, n: nat): (sts: seq<System>)
    ensures |sts| == n + 1 && forall i :: 0 <= i <= n ==> sts[i] == Alone(s, job, i)
  {
    seq(n + 1, i requires 0 <= i <= n => Alone(s, job, i))
  }

  lemma {:induction false} ClimbsStepByStep(s: Store, job: Job, i: nat)
    requires Passable(s, job) && i < |Plan(job, s.orders)|
    ensures TakesTo(Alone(s, job, i), Alone(s, job, i + 1))
  {
    TakesNext(s, job, i);
  }

  lemma {:induction false} TakesAll(s: Store, job: Job)
    requires Passable(s, job)
    ensures var n := |Plan(job, s.orders)|; CanAll(Alone(s, job, 0), Takes(n)) && DoAll(Alone(s, job, 0), Takes(n)) == Alone(s, job, n)
  {
    var n := |Plan(job, s.orders)|;
    forall i | 0 <= i < n
      ensures TakesTo(Alone(s, job, i), Alone(s, job, i + 1))
    {
      ClimbsStepByStep(s, job, i);
    }
    TakesAlong(Climbing(s, job, n), n);
  }

  /** The outcome on record: accepted when the certificate is good, otherwise a warning. */
  function Recorded(s: Store, supplier: nat, cert: Option<nat>, day: int): ComplianceOutcome {
    if Compliance.Passes(s, supplier, cert, day, ACCEPTED) then ACCEPTED else WARNING
  }

  /** What a transaction asks for, as one event on the committed rows. */
  function Asked(s: Store, job: Job): Event
    requires job.ReceiveJob? ==> job.order < |s.orders|
    requires job.ProductJob? ==> job.product in s.products
    requires job.SupplierJob? ==> job.supplier in s.suppliers
  {
    match job
    case PlaceJob(supplier, cert, items, lines, total, _, day) =>
      PlaceOrder(items, Order(supplier, cert, total, ISSUED, lines, Recorded(s, supplier, cert, day)), day)
    case ReceiveJob(k, key, lines, at, day) =>
      Events.Receive(Receipt(key, k, lines, Recorded(s, s.orders[k].supplier, s.orders[k].cert, day)), at, day)
    case CancelJob(k) => CancelOrder(k)
    case ProductJob(p, prices, active, threshold) =>
      var was := s.products[p];
      SetProduct(p, Product(was.sku, was.barcode, if prices == None then was.unitPrice else prices.value.0,
                            if prices == None then was.costPrice else prices.value.1, active, if threshold == 0 then was.reorderAt else threshold))
    case SupplierJob(x, flag) => SetSupplier(x, if flag == None then s.suppliers[x].isActive else flag.value)
    case RevokeJob(c) => Revoke(c)
  }

  function WithAllLocks(s: Store, job: Job): Flight {
    Flight(job, s, Running(|Plan(job, s.orders)|))
  }

  lemma {:induction false} AllLocksAreSafe(s: Store, job: Job)
    requires JobSound(job) && Passable(s, job)
    ensures FlightSafe(s, WithAllLocks(s, job)) && Complete(WithAllLocks(s, job)) && !JournalBlocks(s, WithAllLocks(s, job))
  {
    var f := WithAllLocks(s, job);
    forall l | l in Held(f)
      ensures Claim(s, f, l) && Passed(f.job, f.view, l)
    {
      ChecksPass(s, f, l);
    }
  }

  lemma {:induction false} AskedIsCommitted(s: Store, job: Job)
    requires Passable(s, job)
    ensures EventOf(WithAllLocks(s, job)) == Asked(s, job)
  {
  }

  lemma {:induction false} WritesWhatIsAsked(s: Store, job: Job)
    requires Consistent(s) && JobSound(job) && Passable(s, job)
    ensures Addressed(s, Asked(s, job)) && Ready(s, WithAllLocks(s, job)) && Written(s, WithAllLocks(s, job)) == Apply(s, Asked(s, job))
  {
    AllLocksAreSafe(s, job);
    AskedIsCommitted(s, job);
    CompleteMayCommit(s, WithAllLocks(s, job));
  }

  lemma {:induction false} CommitsWritten(s: Store, f: Flight)
    requires Complete(f) && Ready(s, f) && !JournalBlocks(s, f)
    ensures Can(System(s, [f], []), Finish(0))
    ensures Do(System(s, [f], []), Finish(0)) == System(Written(s, f), [f.(progress := Committed)], [EventOf(f)])
  {
  }

  /** With all its locks it commits. */
  lemma {:induction false} FinishesAlone(s: Store, job: Job)
    requires Consistent(s) && JobSound(job) && Passable(s, job)
    ensures Addressed(s, Asked(s, job)) && Can(System(s, [WithAllLocks(s, job)], []), Finish(0))
    ensures Do(System(s, [WithAllLocks(s, job)], []), Finish(0)) ==
            System(Apply(s, Asked(s, job)), [WithAllLocks(s, job).(progress := Committed)], [Asked(s, job)])
  {
    AllLocksAreSafe(s, job);
    AskedIsCommitted(s, job);
    WritesWhatIsAsked(s, job);
    CommitsWritten(s, WithAllLocks(s, job));
  }

  lemma {:induction false} BeginsAlone(s: Store, job: Job)
    requires JobSound(job)
    ensures Can(System(s, [], []), Begin(job)) && Do(System(s, [], []), Begin(job)) == Alone(s, job, 0)
  {
  }

  /** A transaction whose checks all hold, with nobody in its way, takes its locks one by one and commits; what it commits is
      what its request asks for. */
  lemma {:induction false} UndisturbedJobCommits(s: Store, job: Job)
    requires Consistent(s) && JobSound(job) && Passable(s, job)
    ensures Addressed(s, Asked(s, job)) && Can(System(s, [], []), Begin(job))
    ensures var begun, takes := Do(System(s, [], []), Begin(job)), Takes(|Plan(job, s.orders)|);
            && CanAll(begun, takes) && Can(DoAll(begun, takes), Finish(0))
            && var done := Do(DoAll(begun, takes), Finish(0)); done.log == [Asked(s, job)] && done.store == Apply(s, Asked(s, job))
  {
    BeginsAlone(s, job);
    TakesAll(s, job);
    FinishesAlone(s, job);
  }
}
