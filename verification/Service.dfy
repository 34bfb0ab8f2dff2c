/** The operations as commands on one database: whatever they do is an event of the run, so every invariant of the runs
    holds of the code that executes them. */
module Service {
  import opened Wrappers
  import opened Tables
  import opened Database
  import opened Checkout
  import opened Voids
  import opened StockCounts
  import opened PurchaseOrders
  import opened Receipts
  import opened GoodsReceipts
  import opened Catalogue
  import opened Events
  import opened Integrity
  import opened Runs
  import Compliance
  import Ledger

  datatype Command =
    | CheckoutCart(cashier: nat, key: string, req: Request, at: int, day: int)
    | Void(sale: nat, at: int, day: int)
    | Correct(adjustment: AdjustmentRequest, at: int, day: int)
    | NewProduct(product: nat, sku: string, initial: int, form: ProductRequest, at: int)
    | Update(product: nat, form: ProductRequest)
    | Delete(product: nat)
    | Post(doc: DocType, docId: Option<nat>, lines: seq<Line>, day: int)
    | Reverse(entry: nat, day: int)
    | Order(supplier: nat, cert: Option<nat>, items: seq<OrderItem>, day: int)
    | ReceiveGoods(order: nat, key: string, received: seq<ReceiptItem>, at: int, day: int)
    | Cancel(order: nat)
    | UpdateVendor(supplier: nat, flag: Option<bool>)
    | RevokeCert(certificate: nat)

  /** What request binding and the database types guarantee of a command. */
  predicate WellFormed(s: Store, c: Command) {
    match c
    case CheckoutCart(_, _, req, _, _) => Bound(req)
    case Correct(req, _, _) => req.quantity >= 0 && forall p <- s.stock.onHand :: s.stock.onHand[p] <= 0x7FFF_FFFF
    case NewProduct(p, _, _, _, _) => p !in s.products
    case Order(_, _, items, _) => |items| >= 1
    case _ => true
  }

  /** Nothing happened, or exactly one event did. */
  ghost predicate Served(s: Store, t: Store) {
    t == s || exists e :: Enabled(s, e) && t == Apply(s, e)
  }

  lemma ServedKeepsConsistent(s: Store, t: Store)
    requires Consistent(s) && Served(s, t)
    ensures Consistent(t)
  {
    if t != s {
      var e :| Enabled(s, e) && t == Apply(s, e);
      StepKeepsConsistent(s, e);
    }
  }

  method ServeCheckout(db: Database, cashier: nat, key: string, req: Request, at: int, day: int)
    requires Consistent(db.store) && Bound(req)
    modifies db
    ensures Served(old(db.store), db.store)
  {
    ghost var s := db.store;
    var r := Checkout.Checkout(db, cashier, key, req, at, day);
    if r.Ok? && !r.value.replayed {
      assert Enabled(s, Sell(cashier, key, req, r.value.sale, at)) && db.store == Apply(s, Sell(cashier, key, req, r.value.sale, at));
    }
  }

  method ServeVoid(db: Database, id: nat, at: int, day: int)
    requires Consistent(db.store)
    modifies db
    ensures Served(old(db.store), db.store)
  {
    ghost var s := db.store;
    var r := VoidTransaction(db, id, at, day);
    if r.None? {
      assert SaleSound(s, s.sales[id]);
      assert Enabled(s, VoidSale(id, at, day)) && db.store == Apply(s, VoidSale(id, at, day));
    }
  }

  method ServeCorrection(db: Database, req: AdjustmentRequest, at: int, day: int)
    requires Consistent(db.store) && WellFormed(db.store, Correct(req, at, day))
    modifies db
    ensures Served(old(db.store), db.store)
  {
    ghost var s := db.store;
    var r := AdjustStock(db, req, at, day);
    if r.Ok? { assert Enabled(s, Adjust(req, at, day)) && db.store == Apply(s, Adjust(req, at, day)); }
  }

  method ServeNewProduct(db: Database, p: nat, sku: string, initial: int, form: ProductRequest, at: int)
    requires Consistent(db.store) && p !in db.store.products
    modifies db
    ensures Served(old(db.store), db.store)
  {
    ghost var s := db.store;
    assert NoMovementsOf(s.stock.movements, PRODUCT_CREATE, p);
    var r := CreateProduct(db, p, sku, initial, form, at);
    if r.None? {
      ghost var e := AddProduct(p, NewRow(sku, form), initial, at);
      assert Enabled(s, e) && db.store == Apply(s, e);
    }
  }

  method ServeProductChange(db: Database, c: Command)
    requires Consistent(db.store) && (c.Update? || c.Delete?)
    modifies db
    ensures Served(old(db.store), db.store)
  {
    ghost var s := db.store;
    match c {
      case Update(p, form) =>
        var r := UpdateProduct(db, p, form);
        if r.None? {
          ghost var e := SetProduct(p, Changed(s.products[p], form));
          assert Enabled(s, e) && db.store == Apply(s, e);
        }
      case Delete(p) =>
        var r := DeleteProduct(db, p);
        if r.None? {
          ghost var e := SetProduct(p, s.products[p].(isActive := false));
          assert Enabled(s, e) && db.store == Apply(s, e);
        }
    }
  }

  method ServeLedger(db: Database, c: Command)
    requires Consistent(db.store) && (c.Post? || c.Reverse?)
    modifies db
    ensures Served(old(db.store), db.store)
  {
    ghost var s := db.store;
    match c {
      case Post(doc, docId, lines, day) =>
        var r := Ledger.CreateManualEntry(db, doc, docId, lines, day);
        if r.None? { assert Enabled(s, PostEntry(docId, lines, day)) && db.store == Apply(s, PostEntry(docId, lines, day)); }
      case Reverse(id, day) =>
        var r := Ledger.ReverseManualEntry(db, id, day);
        if r.Ok? { assert Enabled(s, ReverseEntry(id, day)) && db.store == Apply(s, ReverseEntry(id, day)); }
    }
  }

  method ServeOrder(db: Database, supplier: nat, cert: Option<nat>, items: seq<OrderItem>, day: int)
    requires Consistent(db.store) && |items| >= 1
    modifies db
    ensures Served(old(db.store), db.store)
  {
    ghost var s := db.store;
    var r := CreatePurchaseOrder(db, supplier, cert, items, day);
    if r.Ok? {
      ghost var o :| OrderFor(supplier, cert, items, o) && Compliance.Passes(s, supplier, cert, day, o.decision) && db.store == WithOrder(s, o);
      assert Enabled(s, PlaceOrder(items, o, day)) && db.store == Apply(s, PlaceOrder(items, o, day));
    }
  }

  lemma ReadyByConsistency(s: Store, order: nat)
    requires Consistent(s)
    ensures ReadyToReceive(s, order)
  {
    ReceivedNonNegative(s.receipts, order);
    if order < |s.orders| { assert OrderRowSound(s, s.orders[order]); }
  }

  lemma ReceivedIsServed(s: Store, gr: Tables.Receipt, at: int, day: int)
    requires Receivable(s, gr, day)
    ensures Served(s, WithReceipt(s, gr, at, day))
  {
    assert Enabled(s, Receive(gr, at, day)) && WithReceipt(s, gr, at, day) == Apply(s, Receive(gr, at, day));
  }

  method ServeReceipt(db: Database, order: nat, key: string, items: seq<ReceiptItem>, at: int, day: int)
    requires Consistent(db.store)
    modifies db
    ensures Served(old(db.store), db.store)
  {
    ghost var s := db.store;
    ReadyByConsistency(s, order);
    var r := CreateGoodsReceipt(db, order, key, items, at, day);
    if r.Ok? && !ReceiptKeyUsed(s.receipts, key) {
      ghost var gr :| AnswersRequest(gr, order, key, items) && Receivable(s, gr, day) && db.store == WithReceipt(s, gr, at, day);
      ReceivedIsServed(s, gr, at, day);
    }
  }

  method ServeSupplyChain(db: Database, c: Command)
    requires Consistent(db.store) && (c.Cancel? || c.UpdateVendor? || c.RevokeCert?)
    modifies db
    ensures Served(old(db.store), db.store)
  {
    ghost var s := db.store;
    match c {
      case Cancel(id) =>
        ReceivedNonNegative(s.receipts, id);
        var r := CancelPurchaseOrder(db, id);
        if r.None? {
          if s.orders[id].status == CANCELLED {
            assert db.store.orders == s.orders;
          } else {
            assert Enabled(s, CancelOrder(id)) && db.store == Apply(s, CancelOrder(id));
          }
        }
      case UpdateVendor(id, flag) =>
        var r := UpdateSupplier(db, id, flag);
        if r.None? {
          ghost var e := SetSupplier(id, if flag.Some? then flag.value else s.suppliers[id].isActive);
          assert Enabled(s, e) && db.store == Apply(s, e);
        }
      case RevokeCert(id) =>
        var r := RevokeCertificate(db, id);
        if r.None? { assert Enabled(s, Revoke(id)) && db.store == Apply(s, Revoke(id)); }
    }
  }

  /** Executes any command on a consistent store: at most one event happens, and the store stays consistent. */
  method Serve(db: Database, c: Command)
    requires Consistent(db.store) && WellFormed(db.store, c)
    modifies db
    ensures Served(old(db.store), db.store) && Consistent(db.store)
  {
    ghost var s := db.store;
    match c {
      case CheckoutCart(cashier, key, req, at, day) => ServeCheckout(db, cashier, key, req, at, day);
      case Void(id, at, day) => ServeVoid(db, id, at, day);
      case Correct(req, at, day) => ServeCorrection(db, req, at, day);
      case Post(_, _, _, _) => ServeLedger(db, c);
      case Reverse(_, _) => ServeLedger(db, c);
      case Order(supplier, cert, items, day) => ServeOrder(db, supplier, cert, items, day);
      case ReceiveGoods(order, key, items, at, day) => ServeReceipt(db, order, key, items, at, day);
      case Cancel(_) => ServeSupplyChain(db, c);
      case UpdateVendor(_, _) => ServeSupplyChain(db, c);
      case RevokeCert(_) => ServeSupplyChain(db, c);
      case NewProduct(p, sku, initial, form, at) => ServeNewProduct(db, p, sku, initial, form, at);
      case Update(_, _) => ServeProductChange(db, c);
      case Delete(_) => ServeProductChange(db, c);
    }
    ServedKeepsConsistent(s, db.store);
  }
}
