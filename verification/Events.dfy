/** Everything that can commit to the store, one event per committed transaction. */
module Events {
  import opened Wrappers
  import opened Tables
  import opened Checkout
  import opened Voids
  import opened StockCounts
  import opened PurchaseOrders
  import opened GoodsReceipts
  import opened Catalogue
  import Compliance
  import Inventory
  import Ledger

  datatype Event =
    | Sell(cashier: nat, key: string, req: Request, sale: Sale, at: int)
    | VoidSale(sold: nat, at: int, day: int)
    | Adjust(adjustment: AdjustmentRequest, at: int, day: int)
    | AddProduct(product: nat, row: Product, initial: int, at: int)
    | SetProduct(product: nat, row: Product)
    | PostEntry(docId: Option<nat>, lines: seq<Line>, day: int)
    | ReverseEntry(entry: nat, day: int)
    | PlaceOrder(items: seq<OrderItem>, order: Order, day: int)
    | Receive(receipt: Receipt, at: int, day: int)
    | CancelOrder(cancelled: nat)
    | SetSupplier(supplier: nat, active: bool)
    | AddCertificate(cert: nat, certificate: Certificate)
    | Revoke(cert: nat)
    | SetAccount(code: nat, account: Account)
    | SetPolicy(policy: CompliancePolicy)

  ghost predicate LinesPosted(s: Store, lines: seq<Line>) {
    Ledger.Acceptable(lines) && forall l <- lines :: l.account in s.accounts
  }

  /** The rows an event names exist. */
  predicate Addressed(s: Store, e: Event) {
    match e
    case VoidSale(id, _, _) => id < |s.sales|
    case Adjust(req, _, _) => req.product in s.stock.onHand && req.product in s.products
    case ReverseEntry(i, _) => i < |s.entries|
    case Receive(r, _, _) => r.order < |s.orders|
    case CancelOrder(id) => id < |s.orders|
    case Revoke(id) => id in s.certificates
    case _ => true
  }

  /** When the event commits: the success condition of the operation behind it. The chart of accounts and the compliance
      policy are maintained outside the services and may change at any time. */
  ghost predicate Enabled(s: Store, e: Event) {
    Addressed(s, e) && match e
    case Sell(cashier, key, req, sale, at) =>
      Bound(req) && Refusal(s, key, req).None? && SaleFor(s, key, cashier, req, sale.day, sale)
    case VoidSale(id, _, _) => s.sales[id].status == COMPLETED && Ledger.SaleAccountsActive(s, s.sales[id].payment)
    case Adjust(req, _, _) => req.quantity >= 0 && AdjustmentFault(s, req).None?
    case AddProduct(p, row, initial, _) =>
      p !in s.products && row.sku !in s.skus && !BarcodeTaken(s, p, row.barcode) && PricesInBounds(row) && initial >= 0
    case SetProduct(p, row) =>
      && p in s.products && row.sku == s.products[p].sku && !BarcodeTaken(s, p, row.barcode) && PricesInBounds(row)
      && (!row.isActive ==> !HasOutstanding(s, p))
    case PostEntry(_, lines, _) => LinesPosted(s, lines)
    case ReverseEntry(i, _) => s.entries[i].status == POSTED
    case PlaceOrder(items, o, day) =>
      && |items| >= 1 && OrderFor(o.supplier, o.cert, items, o) && Compliance.Passes(s, o.supplier, o.cert, day, o.decision)
      && forall item <- items :: OnSale(s, item.product)
    case Receive(r, _, day) => Receivable(s, r, day)
    case CancelOrder(id) => s.orders[id].status in {DRAFT, ISSUED} && !AcceptsSome(s.receipts, id)
    case SetSupplier(_, _) => true
    case AddCertificate(id, _) => id !in s.certificates
    case Revoke(_) => true
    case SetAccount(_, _) => true
    case SetPolicy(_) => true
  }

  function Adjusted(s: Store, req: AdjustmentRequest, at: int, day: int): Store
    requires req.product in s.stock.onHand && req.product in s.products
  {
    var previous := s.stock.onHand[req.product];
    WithAdjustment(s, req.product, DeltaFor(req.kind, req.quantity, previous), previous, s.products[req.product].costPrice, at, day)
  }

  function Apply(s: Store, e: Event): Store
    requires Addressed(s, e)
  {
    match e
    case Sell(_, _, _, sale, at) => WithSale(s, sale, at)
    case VoidSale(id, at, day) => WithVoid(s, id, at, day)
    case Adjust(req, at, day) => Adjusted(s, req, at, day)
    case AddProduct(p, row, initial, at) => WithProduct(s, p, row, initial, at)
    case SetProduct(p, row) => WithProductRow(s, p, row)
    case PostEntry(docId, lines, day) => s.(entries := s.entries + [Ledger.Posting(MANUAL_ADJUSTMENT, docId, day, lines)])
    case ReverseEntry(i, day) => s.(entries := Ledger.WithReversal(s.entries, i, day))
    case PlaceOrder(_, o, _) => WithOrder(s, o)
    case Receive(r, at, day) => WithReceipt(s, r, at, day)
    case CancelOrder(id) => WithCancellation(s, id)
    case SetSupplier(id, active) => WithSupplierFlag(s, id, active)
    case AddCertificate(id, certificate) => s.(certificates := s.certificates[id := certificate])
    case Revoke(id) => WithRevocation(s, id)
    case SetAccount(code, account) => s.(accounts := s.accounts[code := account])
    case SetPolicy(policy) => s.(policy := policy)
  }

  /** The movements an event posts. */
  function NewMovements(s: Store, e: Event): seq<Movement>
    requires Addressed(s, e)
  {
    match e
    case Sell(_, _, _, sale, at) => SaleMovements(|s.sales|, sale.lines, POS_SALE, at)
    case VoidSale(id, at, _) => SaleMovements(id, s.sales[id].lines, POS_VOID, at)
    case Adjust(req, at, _) =>
      var delta := DeltaFor(req.kind, req.quantity, s.stock.onHand[req.product]);
      if delta == 0 then [] else [AdjustmentMovement(|s.adjustments|, req.product, delta, at)]
    case AddProduct(p, _, initial, at) => if initial > 0 then [OpeningMovement(p, initial, at)] else []
    case Receive(r, at, _) => ReceiptMovements(|s.receipts|, r.lines, at)
    case _ => []
  }

  /** The journal entries an event posts, other than reversals. */
  function NewEntries(s: Store, e: Event): seq<Entry>
    requires Addressed(s, e)
  {
    match e
    case Sell(_, _, _, sale, _) => [Ledger.SaleEntry(|s.sales|, sale.total, Cogs(sale), sale.payment, sale.day)]
    case VoidSale(id, _, day) =>
      var sale := s.sales[id];
      [Ledger.VoidEntry(id, sale.total, Cogs(sale), sale.payment, day)]
    case Adjust(req, _, day) =>
      var delta := DeltaFor(req.kind, req.quantity, s.stock.onHand[req.product]);
      var worth := Ledger.Worth(delta, s.products[req.product].costPrice);
      if delta != 0 && worth != 0 then [Ledger.AdjustmentEntry(|s.adjustments|, delta, worth, day)] else []
    case PostEntry(docId, lines, day) => [Ledger.Posting(MANUAL_ADJUSTMENT, docId, day, lines)]
    case Receive(r, _, day) =>
      var value := Receipts.Valuation(s.orders[r.order].lines, r.lines);
      if value > 0 then [Ledger.ReceiptEntry(|s.receipts|, value, day)] else []
    case _ => []
  }

  /** The stock an event posts its movements to: as it was, plus an empty row for a new product. */
  function StockBefore(s: Store, e: Event): Stock {
    if e.AddProduct? then Stock(s.stock.onHand[e.product := 0], s.stock.movements) else s.stock
  }

  /** Stock only changes by posting movements, and the ledger only by posting entries or by one reversal. */
  lemma {:induction false} ApplyPosts(s: Store, e: Event)
    requires Addressed(s, e)
    ensures Apply(s, e).stock == Inventory.Moved(StockBefore(s, e), NewMovements(s, e))
    ensures !e.ReverseEntry? ==> Apply(s, e).entries == s.entries + NewEntries(s, e)
  {
    Inventory.MovedNothing(s.stock);
    Inventory.MovedNothing(StockBefore(s, e));
    assert s.entries + [] == s.entries;
  }

  /** Which tables an event leaves alone. */
  lemma {:induction false} ApplyFrame(s: Store, e: Event)
    requires Addressed(s, e)
    ensures var t := Apply(s, e);
            && (!e.AddProduct? && !e.SetProduct? ==> t.products == s.products && t.skus == s.skus)
            && (!e.AddProduct? ==> t.stock.onHand.Keys == s.stock.onHand.Keys)
            && (!e.Sell? && !e.VoidSale? ==> t.sales == s.sales)
            && (!e.PlaceOrder? && !e.Receive? && !e.CancelOrder? ==> t.orders == s.orders)
            && (!e.Receive? ==> t.receipts == s.receipts)
            && (!e.Adjust? ==> t.adjustments == s.adjustments)
            && (!e.SetAccount? ==> t.accounts == s.accounts)
  {
  }

  /** Rows are never removed: every table only grows. */
  lemma {:induction false} ApplyGrows(s: Store, e: Event)
    requires Addressed(s, e)
    ensures var t := Apply(s, e);
            && s.products.Keys <= t.products.Keys && s.stock.onHand.Keys <= t.stock.onHand.Keys && s.accounts.Keys <= t.accounts.Keys
            && |s.sales| <= |t.sales| && |s.orders| <= |t.orders| && |s.receipts| <= |t.receipts| && |s.adjustments| <= |t.adjustments|
  {
    ApplyFrame(s, e);
    ApplyPosts(s, e);
  }
}
