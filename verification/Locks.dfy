/** The row locks of the supply-chain and catalogue transactions, their one global order, and why they cannot deadlock
    (backend/internal/supplychain, backend/internal/pos/repository.go). */
module Locks {
  import opened Wrappers
  import opened Int64
  import opened Tables
  import opened PurchaseOrders

  /** A transaction to run. Product rows an order locks and receipt lines come sorted by product id. */
  datatype Job =
    | PlaceJob(supplier: nat, cert: Option<nat>, items: seq<OrderItem>, orderLines: seq<OrderLine>, total: int, products: seq<nat>, day: int)
    | ReceiveJob(order: nat, key: string, lines: seq<ReceiptLine>, at: int, day: int)
    | CancelJob(order: nat)
    | ProductJob(product: nat, prices: Option<(int64, int64)>, active: bool, threshold: nat)
    | SupplierJob(supplier: nat, flag: Option<bool>)
    | RevokeJob(revoked: nat)

  datatype Lock =
    | OrderRow(order: nat)
    | ConfigTable
    | SupplierRow(supplier: nat)
    | CertRow(revoked: nat)
    | ReceiptKey(key: string)
    | ProductRow(product: nat)
    | InventoryRow(product: nat)

  /** The global order: order, configuration, supplier, certificate, receipt key, then row by row the products by id. */
  function Rank(l: Lock): nat {
    match l
    case OrderRow(_) => 0
    case ConfigTable => 1
    case SupplierRow(_) => 2
    case CertRow(_) => 3
    case ReceiptKey(_) => 4
    case ProductRow(p) => 5 + 2 * p
    case InventoryRow(p) => 6 + 2 * p
  }

  function CertLocks(cert: Option<nat>): seq<Lock> {
    if cert.Some? then [CertRow(cert.value)] else []
  }

  function ProductLocks(products: seq<nat>): seq<Lock> {
    if |products| == 0 then [] else ProductLocks(products[..|products| - 1]) + [ProductRow(products[|products| - 1])]
  }

  /** Each receipt line touches its product row through a foreign key and, with accepted goods, its balance row. */
  function LineLocks(lines: seq<ReceiptLine>): seq<Lock> {
    if |lines| == 0 then []
    else
      var last := lines[|lines| - 1];
      LineLocks(lines[..|lines| - 1]) + if last.accepted > 0 then [ProductRow(last.product), InventoryRow(last.product)] else [ProductRow(last.product)]
  }

  /** The locks a job takes, in order; a receipt learns its supplier and certificate from the order row it locks first. */
  function Plan(job: Job, orders: seq<Order>): seq<Lock> {
    match job
    case PlaceJob(supplier, cert, _, _, _, products, _) => [ConfigTable, SupplierRow(supplier)] + CertLocks(cert) + ProductLocks(products)
    case ReceiveJob(order, key, lines, _, _) =>
      [OrderRow(order)] +
      if order < |orders| then
        [ConfigTable, SupplierRow(orders[order].supplier)] + CertLocks(orders[order].cert) + [ReceiptKey(key)] + LineLocks(lines)
      else []
    case CancelJob(order) => [OrderRow(order)]
    case ProductJob(p, _, _, threshold) => [ProductRow(p)] + if threshold > 0 then [InventoryRow(p)] else []
    case SupplierJob(supplier, _) => [SupplierRow(supplier)]
    case RevokeJob(cert) => [CertRow(cert)]
  }

  /** The configuration table is locked in SHARE mode and a foreign key shares the product row; every other lock excludes. */
  predicate Exclusive(job: Job, l: Lock) {
    !l.ConfigTable? && !(l.ProductRow? && job.ReceiveJob?)
  }

  predicate SortedJob(job: Job) {
    match job
    case PlaceJob(_, _, _, _, _, products, _) => forall i, j :: 0 <= i < j < |products| ==> products[i] < products[j]
    case ReceiveJob(_, _, lines, _, _) => forall i, j :: 0 <= i < j < |lines| ==> lines[i].product < lines[j].product
    case _ => true
  }

  // ---------- every plan follows the global order ----------

  ghost predicate Climbs(plan: seq<Lock>) {
    forall i, j :: 0 <= i < j < |plan| ==> Rank(plan[i]) < Rank(plan[j])
  }

  ghost predicate Below(plan: seq<Lock>, bound: nat) {
    forall l <- plan :: Rank(l) < bound
  }

  ghost predicate From(plan: seq<Lock>, bound: nat) {
    forall l <- plan :: Rank(l) >= bound
  }

  lemma ClimbsTogether(a: seq<Lock>, b: seq<Lock>, bound: nat)
    requires Climbs(a) && Climbs(b) && Below(a, bound) && From(b, bound)
    ensures Climbs(a + b)
  {
    forall i, j | 0 <= i < j < |a + b|
      ensures Rank((a + b)[i]) < Rank((a + b)[j])
    {
      if i < |a| <= j { assert a[i] in a && b[j - |a|] in b; }
    }
  }

  lemma {:induction false} ProductsClimb(products: seq<nat>)
    requires forall i, j :: 0 <= i < j < |products| ==> products[i] < products[j]
    ensures Climbs(ProductLocks(products)) && From(ProductLocks(products), 5)
    ensures |products| > 0 ==> Below(ProductLocks(products), 6 + 2 * products[|products| - 1])
  {
    if |products| > 0 {
      var rest, last := products[..|products| - 1], products[|products| - 1];
      ProductsClimb(rest);
      ClimbsTogether(ProductLocks(rest), [ProductRow(last)], 5 + 2 * last);
    }
  }

  lemma {:induction false} LinesClimb(lines: seq<ReceiptLine>)
    requires forall i, j :: 0 <= i < j < |lines| ==> lines[i].product < lines[j].product
    ensures Climbs(LineLocks(lines)) && From(LineLocks(lines), 5)
    ensures |lines| > 0 ==> Below(LineLocks(lines), 7 + 2 * lines[|lines| - 1].product)
  {
    if |lines| > 0 {
      var rest, last := lines[..|lines| - 1], lines[|lines| - 1];
      LinesClimb(rest);
      var more := if last.accepted > 0 then [ProductRow(last.product), InventoryRow(last.product)] else [ProductRow(last.product)];
      ClimbsTogether(LineLocks(rest), more, 5 + 2 * last.product);
    }
  }

  lemma {:induction false} PlacePlanClimbs(supplier: nat, cert: Option<nat>, products: seq<nat>)
    requires forall i, j :: 0 <= i < j < |products| ==> products[i] < products[j]
    ensures Climbs([ConfigTable, SupplierRow(supplier)] + CertLocks(cert) + ProductLocks(products))
  {
    ProductsClimb(products);
    ClimbsTogether([ConfigTable, SupplierRow(supplier)], CertLocks(cert), 3);
    ClimbsTogether([ConfigTable, SupplierRow(supplier)] + CertLocks(cert), ProductLocks(products), 5);
  }

  lemma {:induction false} ReceivePlanClimbs(order: nat, supplier: nat, cert: Option<nat>, key: string, lines: seq<ReceiptLine>)
    requires forall i, j :: 0 <= i < j < |lines| ==> lines[i].product < lines[j].product
    ensures Climbs([OrderRow(order)] + ([ConfigTable, SupplierRow(supplier)] + CertLocks(cert) + [ReceiptKey(key)] + LineLocks(lines)))
  {
    var front := [ConfigTable, SupplierRow(supplier)];
    LinesClimb(lines);
    ClimbsTogether(front, CertLocks(cert), 3);
    ClimbsTogether(front + CertLocks(cert), [ReceiptKey(key)], 4);
    ClimbsTogether(front + CertLocks(cert) + [ReceiptKey(key)], LineLocks(lines), 5);
    ClimbsTogether([OrderRow(order)], front + CertLocks(cert) + [ReceiptKey(key)] + LineLocks(lines), 1);
  }

  /** Every transaction climbs the same order. */
  lemma {:induction false} PlansClimb(job: Job, orders: seq<Order>)
    requires SortedJob(job)
    ensures Climbs(Plan(job, orders))
  {
    match job
    case PlaceJob(supplier, cert, _, _, _, products, _) => PlacePlanClimbs(supplier, cert, products);
    case ReceiveJob(order, key, lines, _, _) =>
      if order < |orders| { ReceivePlanClimbs(order, orders[order].supplier, orders[order].cert, key, lines); }
    case _ =>
  }

  // ---------- waiting ----------

  /** A transaction in flight: how many locks of its plan it holds, and what it has read under them. */
  datatype Progress = Running(pc: nat) | Committed | Aborted

  datatype Flight = Flight(job: Job, view: Store, progress: Progress)

  function Held(f: Flight): seq<Lock> {
    var plan := Plan(f.job, f.view.orders);
    if f.progress.Running? && f.progress.pc <= |plan| then plan[..f.progress.pc] else []
  }

  /** The lock it asks for next. */
  predicate Wants(f: Flight, l: Lock) {
    var plan := Plan(f.job, f.view.orders);
    f.progress.Running? && f.progress.pc < |plan| && plan[f.progress.pc] == l
  }

  predicate Clashes(f: Flight, g: Flight, l: Lock) {
    l in Held(g) && (Exclusive(f.job, l) || Exclusive(g.job, l))
  }

  /** Transaction i waits for transaction j. */
  predicate WaitsFor(fs: seq<Flight>, i: nat, j: nat)
    requires i < |fs| && j < |fs|
  {
    i != j && exists l <- Plan(fs[i].job, fs[i].view.orders) :: Wants(fs[i], l) && Clashes(fs[i], fs[j], l)
  }

  /** Nothing stops transaction i: it has all its locks, or the next one is free. */
  predicate CanAdvance(fs: seq<Flight>, i: nat)
    requires i < |fs|
  {
    fs[i].progress.Running? && forall j :: 0 <= j < |fs| ==> !WaitsFor(fs, i, j)
  }

  ghost predicate WellFlown(f: Flight) {
    SortedJob(f.job) && (f.progress.Running? ==> f.progress.pc <= |Plan(f.job, f.view.orders)|)
  }

  predicate Asks(f: Flight) {
    f.progress.Running? && f.progress.pc < |Plan(f.job, f.view.orders)|
  }

  /** The rank it asks for. */
  function Height(f: Flight): int {
    if Asks(f) then Rank(Plan(f.job, f.view.orders)[f.progress.pc]) else 0
  }

  /** Whoever is waited for has nothing more to ask, or asks for something higher. */
  lemma {:induction false} WaitingLooksUp(fs: seq<Flight>, i: nat, j: nat)
    requires i < |fs| && j < |fs| && WellFlown(fs[j]) && WaitsFor(fs, i, j)
    ensures fs[j].progress.Running? && (Asks(fs[j]) ==> Height(fs[j]) > Height(fs[i]))
  {
    var g := fs[j];
    var plan := Plan(g.job, g.view.orders);
    var l :| Wants(fs[i], l) && Clashes(fs[i], g, l);
    PlansClimb(g.job, g.view.orders);
    assert Clashes(fs[i], fs[j], l);
    assert l in Held(fs[j]);
    assert g.progress.Running?;
    assert Held(g) == plan[..g.progress.pc];
    assert Asks(g) ==> forall k :: 0 <= k < g.progress.pc ==> Rank(plan[k]) < Rank(plan[g.progress.pc]);
  }

  /** The heights of the running transactions; the others count as -1. */
  function Heights(fs: seq<Flight>): (hs: seq<int>)
    ensures |hs| == |fs| && forall i :: 0 <= i < |fs| ==> hs[i] == if fs[i].progress.Running? then Height(fs[i]) as int else -1
  {
    seq(|fs|, i requires 0 <= i < |fs| => if fs[i].progress.Running? then Height(fs[i]) as int else -1)
  }

  lemma {:induction false} SomeHighest(hs: seq<int>) returns (i: nat)
    requires |hs| > 0
    ensures i < |hs| && forall j :: 0 <= j < |hs| ==> hs[j] <= hs[i]
  {
    i := 0;
    for k := 0 to |hs|
      invariant i < |hs| && forall j :: 0 <= j < k ==> hs[j] <= hs[i]
    {
      if hs[k] > hs[i] { i := k; }
    }
  }

  /** No deadlock: whenever transactions are unfinished, at least one of them can go on. */
  lemma {:induction false} SomeoneAdvances(fs: seq<Flight>)
    requires forall f <- fs :: WellFlown(f)
    requires exists i :: 0 <= i < |fs| && fs[i].progress.Running?
    ensures exists i :: 0 <= i < |fs| && CanAdvance(fs, i)
  {
    var r :| 0 <= r < |fs| && fs[r].progress.Running?;
    if d :| 0 <= d < |fs| && fs[d].progress.Running? && !Asks(fs[d]) {
      assert CanAdvance(fs, d);
    } else {
      var i := SomeHighest(Heights(fs));
      assert Heights(fs)[r] <= Heights(fs)[i];
      forall j | 0 <= j < |fs|
        ensures !WaitsFor(fs, i, j)
      {
        assert Heights(fs)[j] <= Heights(fs)[i];
        if WaitsFor(fs, i, j) { WaitingLooksUp(fs, i, j); }
      }
      assert CanAdvance(fs, i);
    }
  }
}
