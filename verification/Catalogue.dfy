/** Adding and changing products, suppliers and certificates: what the purchase-order interlock has to survive
    (backend/internal/pos/repository.go, backend/internal/supplychain/repository.go). */
module Catalogue {
  import opened Wrappers
  import opened Tables
  import opened Database
  import opened Sums
  import opened PurchaseOrders
  import opened GoodsReceipts
  import Checkout
  import Inventory
  import Money

  datatype CatalogueError = NotBound | ProductNotFound | HasOutstandingOrder | InvalidPrice | SkuAlreadyExists | BarcodeAlreadyExists
                          | SupplierNotFound | CertificateNotFound

  /** What a product form sends, apart from the SKU and the opening stock of a new product. */
  datatype ProductRequest = ProductRequest(barcode: Option<string>, unitPrice: int, costPrice: int, threshold: int, active: Option<bool>)

  // ---------- products ----------

  const DEFAULT_THRESHOLD: nat := 10

  /** Request binding: the unit price is required, so it is not zero, and nothing is negative. */
  predicate BoundProduct(req: ProductRequest) {
    req.unitPrice > 0 && req.costPrice >= 0 && req.threshold >= 0
  }

  predicate PricesWithinCap(req: ProductRequest) {
    req.unitPrice <= Money.MAX_TRANSACTION_AMOUNT && req.costPrice <= Money.MAX_TRANSACTION_AMOUNT
  }

  /** The unique index on barcodes, which lets products without one be. */
  predicate BarcodeTaken(s: Store, p: nat, barcode: Option<string>) {
    barcode.Some? && exists q <- s.products :: q != p && s.products[q].barcode == barcode
  }

  function NewRow(sku: string, req: ProductRequest): Product
    requires BoundProduct(req) && PricesWithinCap(req)
  {
    Product(sku, req.barcode, req.unitPrice, req.costPrice, req.active != Some(false),
            if req.threshold > 0 then req.threshold else DEFAULT_THRESHOLD)
  }

  /** The row after an update: leaving the active flag out switches the product on, a zero threshold keeps the old one. */
  function Changed(row: Product, req: ProductRequest): Product
    requires BoundProduct(req) && PricesWithinCap(req)
  {
    row.(barcode := req.barcode, unitPrice := req.unitPrice, costPrice := req.costPrice, isActive := req.active != Some(false),
         reorderAt := if req.threshold > 0 then req.threshold else row.reorderAt)
  }

  /** The store after adding a product: its row, its SKU, and a balance opened by an OPENING movement if there is stock. */
  function WithProduct(s: Store, id: nat, product: Product, initial: int, at: int): Store {
    var empty := Stock(s.stock.onHand[id := 0], s.stock.movements);
    s.(products := s.products[id := product], skus := s.skus[product.sku := id],
       stock := if initial > 0 then Inventory.Moved(empty, [OpeningMovement(id, initial, at)]) else empty)
  }

  function OpeningMovement(id: nat, initial: int, at: int): Movement {
    Movement(id, initial, OPENING, Source(PRODUCT_CREATE, id, None), at)
  }

  /** Adds a product under a fresh id, with its opening stock, in one transaction. */
  method CreateProduct(db: Database, id: nat, sku: string, initial: int, req: ProductRequest, at: int) returns (r: Option<CatalogueError>)
    requires id !in db.store.products && id !in db.store.stock.onHand
    requires Checkout.NoMovementsOf(db.store.stock.movements, PRODUCT_CREATE, id)
    modifies db
    ensures var s := old(db.store);
            r == if !BoundProduct(req) || initial < 0 then Some(NotBound)
                 else if !PricesWithinCap(req) then Some(InvalidPrice)
                 else if sku in s.skus then Some(SkuAlreadyExists)
                 else if BarcodeTaken(s, id, req.barcode) then Some(BarcodeAlreadyExists)
                 else None
    ensures r.None? ==> db.store == WithProduct(old(db.store), id, NewRow(sku, req), initial, at)
    ensures r.Some? ==> db.store == old(db.store)
  {
    if req.unitPrice == 0 || req.unitPrice < 0 || req.costPrice < 0 || req.threshold < 0 || initial < 0 { return Some(NotBound); }
    var tx := db.Begin();
    var isActive := true;
    if req.active.Some? { isActive := req.active.value; }
    var reorderAt := DEFAULT_THRESHOLD;
    if req.threshold > 0 { reorderAt := req.threshold; }
    var unit := Money.ValidateIDR(req.unitPrice, Money.MAX_TRANSACTION_AMOUNT);
    if unit.Err? { return Some(InvalidPrice); }
    var cost := Money.ValidateIDR(req.costPrice, Money.MAX_TRANSACTION_AMOUNT);
    if cost.Err? { return Some(InvalidPrice); }
    if sku in tx.store.skus { return Some(SkuAlreadyExists); }
    if BarcodeTaken(tx.store, id, req.barcode) { return Some(BarcodeAlreadyExists); }
    var product := Product(sku, req.barcode, unit.value.amount, cost.value.amount, isActive, reorderAt);
    InsertProduct(tx, id, product, initial, at);
    db.Commit(tx);
    return None;
  }

  /** The product's row, its empty balance, and its opening movement. */
  method InsertProduct(tx: Tx, id: nat, product: Product, initial: nat, at: int)
    requires id !in tx.store.stock.onHand && Checkout.NoMovementsOf(tx.store.stock.movements, PRODUCT_CREATE, id)
    modifies tx
    ensures tx.store == WithProduct(old(tx.store), id, product, initial, at)
  {
    tx.store := tx.store.(products := tx.store.products[id := product], skus := tx.store.skus[product.sku := id],
                          stock := Stock(tx.store.stock.onHand[id := 0], tx.store.stock.movements));
    if initial > 0 {
      var posted := Inventory.PostMovementTx(tx, OpeningMovement(id, initial, at));
      assert posted.None?;
    }
  }

  // ---------- the interlock with open orders ----------

  /** Some open order still expects more of p than was accepted: the EXISTS query over orders, lines and receipts. */
  predicate HasOutstanding(s: Store, p: nat) {
    exists k, i :: 0 <= k < |s.orders| && 0 <= i < |s.orders[k].lines| && LineOutstanding(s, k, i) && s.orders[k].lines[i].product == p
  }

  predicate LineOutstanding(s: Store, k: nat, i: nat)
    requires k < |s.orders| && i < |s.orders[k].lines|
  {
    Open(s.orders[k]) && s.orders[k].lines[i].quantity > Received(s.receipts, k, s.orders[k].lines[i].product)
  }

  /** No open order waits for a product that is switched off. */
  ghost predicate OpenOrdersActive(s: Store) {
    forall k, i :: 0 <= k < |s.orders| && 0 <= i < |s.orders[k].lines| && LineOutstanding(s, k, i) ==> OnSale(s, s.orders[k].lines[i].product)
  }

  function WithProductRow(s: Store, p: nat, row: Product): Store {
    s.(products := s.products[p := row])
  }

  /** Updates a product under its row lock; switching it off is refused while an open order still expects it. */
  method UpdateProduct(db: Database, p: nat, req: ProductRequest) returns (r: Option<CatalogueError>)
    modifies db
    ensures var s := old(db.store);
            && r == (if !BoundProduct(req) then Some(NotBound)
                     else if p !in s.products then Some(ProductNotFound)
                     else if req.active == Some(false) && HasOutstanding(s, p) then Some(HasOutstandingOrder)
                     else if !PricesWithinCap(req) then Some(InvalidPrice)
                     else if BarcodeTaken(s, p, req.barcode) then Some(BarcodeAlreadyExists)
                     else None)
            && (r.None? ==> db.store == WithProductRow(s, p, Changed(s.products[p], req)))
    ensures r.Some? ==> db.store == old(db.store)
  {
    if req.unitPrice == 0 || req.unitPrice < 0 || req.costPrice < 0 || req.threshold < 0 { return Some(NotBound); }
    var tx := db.Begin();
    if p !in tx.store.products { return Some(ProductNotFound); }
    if req.active.Some? && !req.active.value {
      if HasOutstanding(tx.store, p) { return Some(HasOutstandingOrder); }
    }
    var isActive := true;
    if req.active.Some? { isActive := req.active.value; }
    var unit := Money.ValidateIDR(req.unitPrice, Money.MAX_TRANSACTION_AMOUNT);
    if unit.Err? { return Some(InvalidPrice); }
    var cost := Money.ValidateIDR(req.costPrice, Money.MAX_TRANSACTION_AMOUNT);
    if cost.Err? { return Some(InvalidPrice); }
    if BarcodeTaken(tx.store, p, req.barcode) { return Some(BarcodeAlreadyExists); }
    var row := tx.store.products[p].(barcode := req.barcode, unitPrice := unit.value.amount, costPrice := cost.value.amount,
                                     isActive := isActive);
    if req.threshold > 0 {
      row := row.(reorderAt := req.threshold);
    }
    tx.store := tx.store.(products := tx.store.products[p := row]);
    db.Commit(tx);
    return None;
  }

  /** Switches a product off; the row stays. */
  method DeleteProduct(db: Database, p: nat) returns (r: Option<CatalogueError>)
    modifies db
    ensures var s := old(db.store);
            && r == (if p !in s.products then Some(ProductNotFound)
                     else if HasOutstanding(s, p) then Some(HasOutstandingOrder)
                     else None)
            && (r.None? ==> db.store == WithProductRow(s, p, s.products[p].(isActive := false)))
    ensures r.Some? ==> db.store == old(db.store)
  {
    var tx := db.Begin();
    if p !in tx.store.products { return Some(ProductNotFound); }
    if HasOutstanding(tx.store, p) { return Some(HasOutstandingOrder); }
    tx.store := tx.store.(products := tx.store.products[p := tx.store.products[p].(isActive := false)]);
    db.Commit(tx);
    return None;
  }

  function WithSupplierFlag(s: Store, id: nat, active: bool): Store {
    s.(suppliers := s.suppliers[id := Supplier(active)])
  }

  /** Changes a supplier; leaving the active flag out keeps it. */
  method UpdateSupplier(db: Database, id: nat, active: Option<bool>) returns (r: Option<CatalogueError>)
    modifies db
    ensures var s := old(db.store);
            && r == (if id in s.suppliers then None else Some(SupplierNotFound))
            && db.store == if r.Some? then s else WithSupplierFlag(s, id, if active.Some? then active.value else s.suppliers[id].isActive)
    ensures r.None? ==>
              && id in old(db.store.suppliers)
              && db.store == old(db.store).(suppliers := old(db.store.suppliers)[id :=
                               if active == None then old(db.store.suppliers)[id] else Supplier(active.value)])
  {
    var tx := db.Begin();
    if id !in tx.store.suppliers { return Some(SupplierNotFound); }
    var supplier := tx.store.suppliers[id];
    if active.Some? { supplier := supplier.(isActive := active.value); }
    tx.store := tx.store.(suppliers := tx.store.suppliers[id := supplier]);
    db.Commit(tx);
    return None;
  }

  function WithRevocation(s: Store, id: nat): Store
    requires id in s.certificates
  {
    s.(certificates := s.certificates[id := s.certificates[id].(revoked := true)])
  }

  /** Revokes a certificate; its dates stay as they are, and revoking twice is revoking once. */
  method RevokeCertificate(db: Database, id: nat) returns (r: Option<CatalogueError>)
    modifies db
    ensures r == if id in old(db.store.certificates) then None else Some(CertificateNotFound)
    ensures db.store == if r.None? then WithRevocation(old(db.store), id) else old(db.store)
    ensures r.None? ==> && id in old(db.store.certificates)
                        && db.store == old(db.store).(certificates := old(db.store.certificates)[id :=
                                         old(db.store.certificates)[id].(revoked := true)])
  {
    var tx := db.Begin();
    if id !in tx.store.certificates { return Some(CertificateNotFound); }
    tx.store := tx.store.(certificates := tx.store.certificates[id := tx.store.certificates[id].(revoked := true)]);
    db.Commit(tx);
    return None;
  }

  // ---------- the answers in plain figures ----------

  /** A barcode another product carries. */
  predicate CarriedByAnother(s: Store, p: nat, barcode: Option<string>) {
    barcode != None && exists q <- s.products :: q != p && s.products[q].barcode == barcode
  }

  predicate FormFilledIn(req: ProductRequest) {
    1 <= req.unitPrice && 0 <= req.costPrice && 0 <= req.threshold
  }

  predicate Affordable(req: ProductRequest) {
    req.unitPrice <= 1_000_000_000 && req.costPrice <= 1_000_000_000
  }

  /** The form is complete from a price of one up, and within the cap up to a billion. */
  lemma FormAnswers(s: Store, p: nat, req: ProductRequest)
    ensures BoundProduct(req) <==> FormFilledIn(req)
    ensures PricesWithinCap(req) <==> Affordable(req)
    ensures BarcodeTaken(s, p, req.barcode) <==> CarriedByAnother(s, p, req.barcode)
  {
  }

  /** A new product is on sale unless the form says no, reorders at ten unless the form says otherwise, and has exactly its
      initial stock, opened by one movement when there is any. Nothing else changes. */
  lemma {:induction false} NewProductHasItsStock(s: Store, id: nat, sku: string, initial: nat, req: ProductRequest, at: int)
    requires FormFilledIn(req) && Affordable(req) && id !in s.stock.onHand
    ensures var t, row := WithProduct(s, id, NewRow(sku, req), initial, at), NewRow(sku, req);
            && row.sku == sku && row.barcode == req.barcode && row.unitPrice == req.unitPrice && row.costPrice == req.costPrice
            && (row.isActive <==> req.active != Some(false)) && row.reorderAt == (if req.threshold == 0 then 10 else req.threshold)
            && t == s.(products := s.products[id := row], skus := s.skus[sku := id], stock := t.stock)
            && t.stock.onHand == s.stock.onHand[id := initial]
            && t.stock.movements == s.stock.movements +
                                    if initial == 0 then [] else [Movement(id, initial, OPENING, Source(PRODUCT_CREATE, id, None), at)]
  {
    var empty := Stock(s.stock.onHand[id := 0], s.stock.movements);
    if initial > 0 {
      var m := OpeningMovement(id, initial, at);
      forall p | p in empty.onHand
        ensures Inventory.Moved(empty, [m]).onHand[p] == s.stock.onHand[id := initial][p]
      {
        SumAppend([], m, Inventory.DeltaOf(p));
        assert [] + [m] == [m];
      }
    }
  }

  /** An update writes the form's prices, barcode and flag; a threshold of zero keeps the old one; the SKU stays. */
  lemma {:induction false} UpdateWritesTheForm(s: Store, p: nat, req: ProductRequest)
    requires FormFilledIn(req) && Affordable(req) && p in s.products
    ensures var row, was := Changed(s.products[p], req), s.products[p];
            && row == Product(was.sku, req.barcode, req.unitPrice, req.costPrice, !(req.active.Some? && !req.active.value),
                              if req.threshold == 0 then was.reorderAt else req.threshold)
            && WithProductRow(s, p, row) == s.(products := s.products[p := row])
  {
  }

  /** An open order expects the product exactly when it is ISSUED or PARTIALLY_RECEIVED and some line of it asks for more
      than its receipts accepted. */
  lemma {:induction false} OutstandingExactlyWhen(s: Store, p: nat)
    ensures HasOutstanding(s, p) <==>
              exists k, i :: 0 <= k < |s.orders| && s.orders[k].status in {ISSUED, PARTIALLY_RECEIVED} && 0 <= i < |s.orders[k].lines|
                             && s.orders[k].lines[i].product == p
                             && s.orders[k].lines[i].quantity > Received(s.receipts, k, p)
  {
    forall k, i | 0 <= k < |s.orders| && s.orders[k].status in {ISSUED, PARTIALLY_RECEIVED} && 0 <= i < |s.orders[k].lines|
                  && s.orders[k].lines[i].product == p && s.orders[k].lines[i].quantity > Received(s.receipts, k, p)
      ensures HasOutstanding(s, p)
    {
      assert LineOutstanding(s, k, i);
    }
  }
}
