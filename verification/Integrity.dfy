/** What every committed event keeps of the rows: keys, stock, journals, sales, orders and receipts. */
module Integrity {
  import opened Wrappers
  import opened Int64
  import opened Tables
  import opened Sums
  import opened Checkout
  import opened Voids
  import opened StockCounts
  import opened PurchaseOrders
  import opened Receipts
  import opened GoodsReceipts
  import opened Catalogue
  import opened Events
  import opened Inventory
  import Ledger

  // ---------- the invariant ----------

  /** A movement only names documents that exist, and a void movement only a voided sale. */
  predicate SourceKnown(s: Store, source: Source) {
    match source.doc
    case PRODUCT_CREATE => source.id in s.products
    case POS_SALE => source.id < |s.sales|
    case POS_VOID => source.id < |s.sales| && s.sales[source.id].status == VOIDED
    case GOODS_RECEIPT => source.id < |s.receipts|
    case MANUAL_ADJUSTMENT => source.id < |s.adjustments|
    case REVERSAL => false
  }

  ghost predicate SourcesKnown(s: Store) {
    forall m <- s.stock.movements :: SourceKnown(s, m.source)
  }

  ghost predicate Journaled(s: Store) {
    Ledger.Sound(s.entries) && forall e <- s.entries, l <- e.lines :: l.account in s.accounts
  }

  ghost predicate SalesSound(s: Store) {
    forall sale <- s.sales :: SaleSound(s, sale)
  }

  ghost predicate OrderRowSound(s: Store, o: Order) {
    OrderSound(o) && forall l <- o.lines :: l.product in s.products
  }

  ghost predicate ReceiptRowSound(s: Store, r: Receipt) {
    && r.key != "" && r.order < |s.orders| && |r.lines| > 0 && InProductOrder(r.lines) && DistinctProducts(s.orders[r.order].lines)
    && forall l <- r.lines :: && l.product in ByProduct(s.orders[r.order].lines) && OutcomeFits(l)
                              && l.accepted >= 0 && l.rejected >= 0 && l.delivered == l.accepted + l.rejected > 0
  }

  ghost predicate RowsSound(s: Store) {
    SalesSound(s) && (forall o <- s.orders :: OrderRowSound(s, o)) && (forall r <- s.receipts :: ReceiptRowSound(s, r))
  }

  ghost predicate Intact(s: Store) {
    Linked(s) && Reconciled(s.stock) && SourcesKnown(s) && Journaled(s) && RowsSound(s)
  }

  // ---------- stock: what an event may post ----------

  /** Movements that extend the stock ledger: well signed, of known products, from new documents. */
  ghost predicate Extends(stock: Stock, ms: seq<Movement>) {
    && (forall m <- ms :: SignMatchesType(m) && m.product in stock.onHand && NoMovementsOf(stock.movements, m.source.doc, m.source.id))
    && SourcesDistinct(ms)
    && forall p <- stock.onHand :: stock.onHand[p] + Sum(ms, DeltaOf(p)) >= 0
  }

  lemma ExtendingIsPostable(stock: Stock, ms: seq<Movement>)
    requires Reconciled(stock) && Extends(stock, ms)
    ensures Postable(stock, ms)
  {
    var all := stock.movements + ms;
    forall i, j | 0 <= i < j < |all|
      ensures all[i].source != all[j].source
    {
      if i < |stock.movements| <= j {
        assert all[j] in ms && all[i] in stock.movements;
      }
    }
  }

  /** Selling what is there never takes a balance below zero. */
  lemma {:induction false} SaleExtends(stock: Stock, id: nat, lines: seq<SaleLine>, at: int)
    requires EnoughFor(stock, lines) && (forall l <- lines :: l.quantity > 0) && NoMovementsOf(stock.movements, POS_SALE, id)
    requires forall p <- stock.onHand :: stock.onHand[p] >= 0
    ensures Extends(stock, SaleMovements(id, lines, POS_SALE, at))
  {
    forall p | p in stock.onHand
      ensures stock.onHand[p] + Sum(SaleMovements(id, lines, POS_SALE, at), DeltaOf(p)) >= 0
    {
      MovementsOfLines(id, lines, POS_SALE, at, p);
      SoldWithin(stock, lines, p);
    }
    MovementsFit(stock, id, lines, POS_SALE, at);
  }

  lemma SoldWithin(stock: Stock, lines: seq<SaleLine>, p: nat)
    requires EnoughFor(stock, lines) && p in stock.onHand && stock.onHand[p] >= 0
    ensures Sum(lines, SoldOf(p)) <= stock.onHand[p]
  {
    if forall l <- lines :: l.product != p {
      SumZero(lines, SoldOf(p));
    }
  }

  lemma {:induction false} VoidExtends(stock: Stock, id: nat, lines: seq<SaleLine>, at: int)
    requires (forall l <- lines :: l.quantity > 0 && l.product in stock.onHand) && NoMovementsOf(stock.movements, POS_VOID, id)
    requires forall p <- stock.onHand :: stock.onHand[p] >= 0
    ensures Extends(stock, SaleMovements(id, lines, POS_VOID, at))
  {
    forall p | p in stock.onHand
      ensures stock.onHand[p] + Sum(SaleMovements(id, lines, POS_VOID, at), DeltaOf(p)) >= 0
    {
      MovementsOfLines(id, lines, POS_VOID, at, p);
      SumNonNegative(lines, SoldOf(p));
    }
    MovementsFit(stock, id, lines, POS_VOID, at);
  }

  lemma MovementsFit(stock: Stock, id: nat, lines: seq<SaleLine>, doc: DocType, at: int)
    requires doc == POS_SALE || doc == POS_VOID
    requires NoMovementsOf(stock.movements, doc, id) && forall l <- lines :: l.quantity > 0 && l.product in stock.onHand
    ensures var ms := SaleMovements(id, lines, doc, at);
            && (forall m <- ms :: SignMatchesType(m) && m.product in stock.onHand && NoMovementsOf(stock.movements, m.source.doc, m.source.id))
            && SourcesDistinct(ms)
  {
    var ms := SaleMovements(id, lines, doc, at);
    forall m | m in ms
      ensures SignMatchesType(m) && m.product in stock.onHand && m.source.doc == doc && m.source.id == id
    {
      var i :| 0 <= i < |ms| && ms[i] == m;
      assert lines[i] in lines;
    }
  }

  lemma {:induction false} ReceiptExtends(stock: Stock, id: nat, lines: seq<ReceiptLine>, at: int)
    requires (forall l <- lines :: l.accepted >= 0 && l.product in stock.onHand) && NoMovementsOf(stock.movements, GOODS_RECEIPT, id)
    requires forall p <- stock.onHand :: stock.onHand[p] >= 0
    ensures Extends(stock, ReceiptMovements(id, lines, at))
  {
    ReceiptSources(id, lines, at);
    forall p | p in stock.onHand
      ensures stock.onHand[p] + Sum(ReceiptMovements(id, lines, at), DeltaOf(p)) >= 0
    {
      ReceiptDeltas(id, lines, at, p);
    }
    ReceiptMovementsDistinct(id, lines, at);
    ReceiptProductsKnown(stock, id, lines, at);
  }

  lemma {:induction false} ReceiptMovementsDistinct(id: nat, lines: seq<ReceiptLine>, at: int)
    ensures SourcesDistinct(ReceiptMovements(id, lines, at))
  {
    if |lines| > 0 {
      ReceiptMovementsDistinct(id, lines[..|lines| - 1], at);
      ReceiptSources(id, lines[..|lines| - 1], at);
    }
  }

  lemma {:induction false} ReceiptProductsKnown(stock: Stock, id: nat, lines: seq<ReceiptLine>, at: int)
    requires forall l <- lines :: l.product in stock.onHand
    ensures forall m <- ReceiptMovements(id, lines, at) :: m.product in stock.onHand
  {
    if |lines| > 0 {
      assert lines[|lines| - 1] in lines;
      ReceiptProductsKnown(stock, id, lines[..|lines| - 1], at);
    }
  }

  lemma OneMovementExtends(stock: Stock, m: Movement)
    requires SignMatchesType(m) && m.product in stock.onHand && NoMovementsOf(stock.movements, m.source.doc, m.source.id)
    requires forall p <- stock.onHand :: stock.onHand[p] >= 0
    requires stock.onHand[m.product] + m.delta >= 0
    ensures Extends(stock, [m])
  {
    forall p | p in stock.onHand
      ensures stock.onHand[p] + Sum([m], DeltaOf(p)) >= 0
    {
      SumAppend([], m, DeltaOf(p));
      assert [] + [m] == [m];
    }
  }

  lemma {:induction false} SellExtends(s: Store, e: Event)
    requires Linked(s) && Reconciled(s.stock) && SourcesKnown(s) && e.Sell? && Enabled(s, e)
    ensures Extends(s.stock, SaleMovements(|s.sales|, e.sale.lines, POS_SALE, e.at))
  {
    QuotedLinesSell(s, e.key, e.cashier, e.req, e.sale.day, e.sale);
    SaleExtends(s.stock, |s.sales|, e.sale.lines, e.at);
  }

  lemma {:induction false} ReceiveExtends(s: Store, r: Receipt, at: int, day: int)
    requires Linked(s) && Reconciled(s.stock) && SourcesKnown(s) && Receivable(s, r, day) && OrderRowSound(s, s.orders[r.order])
    ensures Extends(s.stock, ReceiptMovements(|s.receipts|, r.lines, at))
  {
    ByProductFinds(s.orders[r.order].lines);
    ReceiptExtends(s.stock, |s.receipts|, r.lines, at);
  }

  lemma {:induction false} AdjustExtends(s: Store, req: AdjustmentRequest, at: int, day: int)
    requires Reconciled(s.stock) && SourcesKnown(s) && Enabled(s, Adjust(req, at, day))
    ensures Extends(s.stock, NewMovements(s, Adjust(req, at, day)))
  {
    var delta := DeltaFor(req.kind, req.quantity, s.stock.onHand[req.product]);
    if delta != 0 { OneMovementExtends(s.stock, AdjustmentMovement(|s.adjustments|, req.product, delta, at)); }
  }

  lemma {:induction false} OpeningExtends(s: Store, p: nat, row: Product, initial: int, at: int)
    requires s.stock.onHand.Keys == s.products.Keys && Reconciled(s.stock) && SourcesKnown(s) && Enabled(s, AddProduct(p, row, initial, at))
    ensures var empty := StockBefore(s, AddProduct(p, row, initial, at));
            Reconciled(empty) && Extends(empty, NewMovements(s, AddProduct(p, row, initial, at)))
  {
    SumZero(s.stock.movements, DeltaOf(p));
    if initial > 0 { OneMovementExtends(StockBefore(s, AddProduct(p, row, initial, at)), OpeningMovement(p, initial, at)); }
  }

  lemma {:induction false} VoidingExtends(s: Store, e: Event)
    requires Reconciled(s.stock) && SourcesKnown(s) && RowsSound(s) && e.VoidSale? && Enabled(s, e)
    ensures Extends(s.stock, SaleMovements(e.sold, s.sales[e.sold].lines, POS_VOID, e.at))
  {
    assert SaleSound(s, s.sales[e.sold]);
    VoidExtends(s.stock, e.sold, s.sales[e.sold].lines, e.at);
  }

  lemma {:induction false} EventExtends(s: Store, e: Event)
    requires Linked(s) && Reconciled(s.stock) && SourcesKnown(s) && RowsSound(s) && Enabled(s, e)
    ensures Reconciled(StockBefore(s, e)) && Extends(StockBefore(s, e), NewMovements(s, e))
  {
    if e.Sell? {
      SellExtends(s, e);
    } else if e.VoidSale? {
      VoidingExtends(s, e);
    } else if e.Receive? {
      ReceiveExtends(s, e.receipt, e.at, e.day);
    } else if e.Adjust? {
      AdjustExtends(s, e.adjustment, e.at, e.day);
    } else if e.AddProduct? {
      OpeningExtends(s, e.product, e.row, e.initial, e.at);
    }
  }

  /** Every balance stays the sum of its movements and never goes below zero. */
  lemma {:induction false} KeepsReconciled(s: Store, e: Event)
    requires Linked(s) && Reconciled(s.stock) && SourcesKnown(s) && RowsSound(s) && Enabled(s, e)
    ensures Reconciled(Apply(s, e).stock)
  {
    ApplyPosts(s, e);
    EventExtends(s, e);
    ExtendingIsPostable(StockBefore(s, e), NewMovements(s, e));
    PostingKeepsReconciled(StockBefore(s, e), NewMovements(s, e));
  }

  /** What counts as known stays known. */
  lemma {:induction false} SourceStaysKnown(s: Store, e: Event, source: Source)
    requires Addressed(s, e) && SourceKnown(s, source)
    ensures SourceKnown(Apply(s, e), source)
  {
    ApplyGrows(s, e);
    ApplyFrame(s, e);
  }

  lemma {:induction false} SaleSourcesKnown(t: Store, id: nat, lines: seq<SaleLine>, doc: DocType, at: int)
    requires id < |t.sales| && (doc == POS_SALE || (doc == POS_VOID && t.sales[id].status == VOIDED))
    ensures forall m <- SaleMovements(id, lines, doc, at) :: SourceKnown(t, m.source)
  {
  }

  lemma {:induction false} NewSourcesKnown(s: Store, e: Event)
    requires Addressed(s, e)
    ensures forall m <- NewMovements(s, e) :: SourceKnown(Apply(s, e), m.source)
  {
    match e
    case Sell(_, _, _, sale, at) => SaleSourcesKnown(WithSale(s, sale, at), |s.sales|, sale.lines, POS_SALE, at);
    case VoidSale(id, at, day) => SaleSourcesKnown(WithVoid(s, id, at, day), id, s.sales[id].lines, POS_VOID, at);
    case Receive(r, at, day) => ReceiptSources(|s.receipts|, r.lines, at);
    case Adjust(req, at, day) =>
    case AddProduct(p, row, initial, at) =>
    case _ =>
  }

  lemma {:induction false} KeepsSources(s: Store, e: Event)
    requires SourcesKnown(s) && Addressed(s, e)
    ensures SourcesKnown(Apply(s, e))
  {
    ApplyPosts(s, e);
    NewSourcesKnown(s, e);
    forall m | m in s.stock.movements
      ensures SourceKnown(Apply(s, e), m.source)
    {
      SourceStaysKnown(s, e, m.source);
    }
  }

  // ---------- the catalogue ----------

  lemma RowKeepsBarcodes(s: Store, p: nat, row: Product)
    requires BarcodesUnique(s.products) && !BarcodeTaken(s, p, row.barcode)
    ensures BarcodesUnique(s.products[p := row])
  {
  }

  lemma NewSkuIndexed(skus: map<string, nat>, products: map<nat, Product>, p: nat, row: Product)
    requires SkusIndex(skus, products) && p !in products && row.sku !in skus
    ensures SkusIndex(skus[row.sku := p], products[p := row])
  {
  }

  lemma {:induction false} AddingKeepsLinked(s: Store, p: nat, row: Product, initial: int, at: int)
    requires Linked(s) && p !in s.products && row.sku !in s.skus && !BarcodeTaken(s, p, row.barcode) && PricesInBounds(row)
    ensures Linked(WithProduct(s, p, row, initial, at))
  {
    RowKeepsBarcodes(s, p, row);
    NewSkuIndexed(s.skus, s.products, p, row);
    assert WithProduct(s, p, row, initial, at).stock.onHand.Keys == s.stock.onHand.Keys + {p};
  }

  lemma {:induction false} SettingKeepsLinked(s: Store, p: nat, row: Product)
    requires Linked(s) && p in s.products && row.sku == s.products[p].sku && !BarcodeTaken(s, p, row.barcode) && PricesInBounds(row)
    ensures Linked(WithProductRow(s, p, row))
  {
    RowKeepsBarcodes(s, p, row);
  }

  lemma {:induction false} KeepsLinked(s: Store, e: Event)
    requires Linked(s) && Enabled(s, e)
    ensures Linked(Apply(s, e))
  {
    if e.AddProduct? {
      AddingKeepsLinked(s, e.product, e.row, e.initial, e.at);
    } else if e.SetProduct? {
      SettingKeepsLinked(s, e.product, e.row);
    } else {
      ApplyFrame(s, e);
    }
  }

  // ---------- the journal ----------

  /** An entry that may join the journal. */
  ghost predicate Joinable(s: Store, n: Entry) {
    && Ledger.Acceptable(n.lines) && n.status == POSTED && n.reversedBy == None && n.doc != REVERSAL
    && forall l <- n.lines :: l.account in s.accounts
  }

  lemma {:induction false} SaleEntryPosts(s: Store, id: nat, total: int, cogs: int, payment: PaymentMethod, day: int)
    requires Ledger.SaleAccountsActive(s, payment) && 0 < total && 0 < cogs && total + cogs <= MAX64
    ensures Joinable(s, Ledger.SaleEntry(id, total, cogs, payment, day)) && Joinable(s, Ledger.VoidEntry(id, total, cogs, payment, day))
  {
    var v, n := Ledger.VoidEntry(id, total, cogs, payment, day).lines, Ledger.SaleEntry(id, total, cogs, payment, day).lines;
    Ledger.FourLinesAcceptable(n[0], n[1], n[2], n[3]);
    Ledger.FourLinesAcceptable(v[0], v[1], v[2], v[3]);
  }

  lemma {:induction false} TwoLineEntriesPost(s: Store, id: nat, delta: int, value: int, day: int)
    requires 0 < value <= MAX64 && Ledger.ActiveAccount(s, Ledger.INVENTORY)
    ensures Ledger.ActiveAccount(s, Ledger.PAYABLE) ==> Joinable(s, Ledger.ReceiptEntry(id, value, day))
    ensures Ledger.ActiveAccount(s, Ledger.SHRINKAGE) ==> Joinable(s, Ledger.AdjustmentEntry(id, delta, value, day))
  {
    var r, a := Ledger.ReceiptEntry(id, value, day).lines, Ledger.AdjustmentEntry(id, delta, value, day).lines;
    Ledger.TwoLinesAcceptable(r[0], r[1]);
    Ledger.TwoLinesAcceptable(a[0], a[1]);
  }

  lemma {:induction false} AdjustmentEntryPosts(s: Store, req: AdjustmentRequest, at: int, day: int)
    requires Linked(s) && Enabled(s, Adjust(req, at, day))
    ensures forall n <- NewEntries(s, Adjust(req, at, day)) :: Joinable(s, n)
  {
    var delta := DeltaFor(req.kind, req.quantity, s.stock.onHand[req.product]);
    var cost := s.products[req.product].costPrice;
    WorthSign(delta, cost);
    if delta != 0 && cost > 0 {
      TwoLineEntriesPost(s, |s.adjustments|, delta, Ledger.Worth(delta, cost), day);
    }
  }

  lemma {:induction false} ReceiptEntryPosts(s: Store, r: Receipt, at: int, day: int)
    requires RowsSound(s) && Receivable(s, r, day)
    ensures forall n <- NewEntries(s, Receive(r, at, day)) :: Joinable(s, n)
  {
    var o := s.orders[r.order];
    assert o in s.orders;
    ReceivedNonNegative(s.receipts, r.order);
    ValueWithinOrder(o, ReceivedOn(s.receipts, r.order), r.lines);
    if Valuation(o.lines, r.lines) > 0 {
      TwoLineEntriesPost(s, |s.receipts|, 0, Valuation(o.lines, r.lines), day);
    }
  }

  lemma ReceivedNonNegative(receipts: seq<Receipt>, order: nat)
    requires forall r <- receipts, l <- r.lines :: l.accepted >= 0
    ensures forall p :: Received(receipts, order, p) >= 0
  {
    forall p
      ensures Received(receipts, order, p) >= 0
    {
      forall r | r in receipts
        ensures AcceptedIn(order, p)(r) >= 0
      {
        SumNonNegative(r.lines, AcceptedOf(p));
      }
      SumNonNegative(receipts, AcceptedIn(order, p));
    }
  }

  lemma {:induction false} VoidEntryPosts(s: Store, e: Event)
    requires SalesSound(s) && e.VoidSale? && Enabled(s, e)
    ensures forall n <- NewEntries(s, e) :: Joinable(s, n)
  {
    var sale := s.sales[e.sold];
    assert SaleSound(s, sale);
    SaleEntryPosts(s, e.sold, sale.total, Cogs(sale), sale.payment, e.day);
  }

  lemma {:induction false} NewEntriesPost(s: Store, e: Event)
    requires Linked(s) && RowsSound(s) && Enabled(s, e)
    ensures |NewEntries(s, e)| <= 1 && forall n <- NewEntries(s, e) :: Joinable(s, n)
  {
    if e.Sell? {
      SaleEntryPosts(s, |s.sales|, e.sale.total, Cogs(e.sale), e.sale.payment, e.sale.day);
    } else if e.VoidSale? {
      VoidEntryPosts(s, e);
    } else if e.Adjust? {
      AdjustmentEntryPosts(s, e.adjustment, e.at, e.day);
    } else if e.Receive? {
      ReceiptEntryPosts(s, e.receipt, e.at, e.day);
    }
  }

  lemma JoiningKeepsJournaled(s: Store, t: Store, more: seq<Entry>)
    requires Journaled(s) && |more| <= 1 && (forall n <- more :: Joinable(s, n))
    requires t.entries == s.entries + more && s.accounts.Keys <= t.accounts.Keys
    ensures Journaled(t)
  {
    if |more| == 0 {
      assert t.entries == s.entries;
    } else {
      assert more == [more[0]] && Joinable(s, more[0]);
      Ledger.PostingKeepsSound(s.entries, more[0]);
    }
  }

  lemma ReversingKeepsJournaled(s: Store, t: Store, i: nat, day: int)
    requires Journaled(s) && i < |s.entries| && s.entries[i].status == POSTED
    requires t.entries == Ledger.WithReversal(s.entries, i, day) && t.accounts == s.accounts
    ensures Journaled(t)
  {
    Ledger.ReversingKeepsSound(s.entries, i, day);
    forall e, l | e in t.entries && l in e.lines
      ensures l.account in t.accounts
    {
      var k :| 0 <= k < |t.entries| && t.entries[k] == e;
      assert s.entries[i] in s.entries;
      if k < |s.entries| { assert s.entries[k] in s.entries; }
      else { var j :| 0 <= j < |e.lines| && e.lines[j] == l; assert s.entries[i].lines[j] in s.entries[i].lines; }
    }
  }

  lemma {:induction false} KeepsJournaled(s: Store, e: Event)
    requires Linked(s) && RowsSound(s) && Journaled(s) && Enabled(s, e)
    ensures Journaled(Apply(s, e))
  {
    if e.ReverseEntry? {
      ReversingKeepsJournaled(s, Apply(s, e), e.entry, e.day);
    } else {
      ApplyGrows(s, e);
      ApplyPosts(s, e);
      NewEntriesPost(s, e);
      JoiningKeepsJournaled(s, Apply(s, e), NewEntries(s, e));
    }
  }

  // ---------- sales, orders and receipts ----------

  lemma {:induction false} NewSaleSound(s: Store, cashier: nat, key: string, req: Request, sale: Sale, at: int)
    requires Linked(s) && Enabled(s, Sell(cashier, key, req, sale, at))
    ensures SaleSound(s, sale)
  {
    QuotedLinesSell(s, key, cashier, req, sale.day, sale);
    forall l | l in sale.lines
      ensures l.costPrice >= 0
    {
      var i :| 0 <= i < |sale.lines| && sale.lines[i] == l;
    }
  }

  lemma UpdateMembers<T>(rows: seq<T>, i: nat, x: T)
    requires i < |rows|
    ensures forall y <- rows[i := x] :: y in rows || y == x
  {
  }

  lemma VoidingKeepsSales(s: Store, id: nat, at: int, day: int)
    requires SalesSound(s) && id < |s.sales|
    ensures SalesSound(WithVoid(s, id, at, day))
  {
    var sale := s.sales[id];
    var t := WithVoid(s, id, at, day);
    assert SaleSound(s, sale) && t.stock.onHand.Keys == s.stock.onHand.Keys;
    forall y | y in t.sales
      ensures SaleSound(t, y)
    {
      UpdateMembers(s.sales, id, sale.(status := VOIDED));
      if y in s.sales {
        assert SaleSound(s, y);
      } else {
        assert y == sale.(status := VOIDED) && Cogs(y) == Cogs(sale);
      }
    }
  }

  /** A sound sale stays sound while products are only added. */
  lemma SalesStaySound(s: Store, t: Store, sales: seq<Sale>)
    requires (forall sale <- sales :: SaleSound(s, sale)) && s.stock.onHand.Keys <= t.stock.onHand.Keys
    ensures forall sale <- sales :: SaleSound(t, sale)
  {
    forall sale | sale in sales
      ensures SaleSound(t, sale)
    {
      assert SaleSound(s, sale);
    }
  }

  lemma {:induction false} SellingKeepsSales(s: Store, e: Event)
    requires Linked(s) && SalesSound(s) && e.Sell? && Enabled(s, e)
    ensures SalesSound(WithSale(s, e.sale, e.at))
  {
    NewSaleSound(s, e.cashier, e.key, e.req, e.sale, e.at);
    SalesStaySound(s, WithSale(s, e.sale, e.at), s.sales + [e.sale]);
  }

  lemma {:induction false} OthersKeepSales(s: Store, e: Event)
    requires SalesSound(s) && !e.Sell? && !e.VoidSale? && Addressed(s, e)
    ensures SalesSound(Apply(s, e))
  {
    ApplyFrame(s, e);
    ApplyGrows(s, e);
    SalesStaySound(s, Apply(s, e), s.sales);
  }

  lemma {:induction false} KeepsSalesSound(s: Store, e: Event)
    requires Linked(s) && SalesSound(s) && Enabled(s, e)
    ensures SalesSound(Apply(s, e))
  {
    if e.Sell? {
      SellingKeepsSales(s, e);
    } else if e.VoidSale? {
      VoidingKeepsSales(s, e.sold, e.at, e.day);
    } else {
      OthersKeepSales(s, e);
    }
  }

  lemma {:induction false} NewOrderSound(s: Store, items: seq<OrderItem>, o: Order)
    requires OrderFor(o.supplier, o.cert, items, o) && forall item <- items :: OnSale(s, item.product)
    ensures OrderRowSound(s, o)
  {
    forall l | l in o.lines
      ensures l.product in s.products
    {
      var i :| 0 <= i < |o.lines| && o.lines[i] == l;
      assert items[i] in items;
    }
  }

  lemma StatusKeepsOrderSound(s: Store, k: nat, status: OrderStatus)
    requires k < |s.orders| && status != DRAFT && forall o <- s.orders :: OrderRowSound(s, o)
    ensures forall o <- s.orders[k := s.orders[k].(status := status)] :: OrderRowSound(s, o)
  {
    assert OrderRowSound(s, s.orders[k]);
    UpdateMembers(s.orders, k, s.orders[k].(status := status));
  }

  lemma {:induction false} OrdersStaySound(s: Store, e: Event)
    requires (forall o <- s.orders :: OrderRowSound(s, o)) && Enabled(s, e)
    ensures forall o <- Apply(s, e).orders :: OrderRowSound(s, o)
  {
    match e
    case PlaceOrder(items, o, _) => NewOrderSound(s, items, o);
    case Receive(r, _, _) => StatusKeepsOrderSound(s, r.order, NextStatus(s.orders[r.order], ReceivedOn(s.receipts, r.order), r.lines));
    case CancelOrder(id) => StatusKeepsOrderSound(s, id, CANCELLED);
    case _ => ApplyFrame(s, e);
  }

  lemma {:induction false} KeepsOrders(s: Store, e: Event)
    requires (forall o <- s.orders :: OrderRowSound(s, o)) && Enabled(s, e)
    ensures forall o <- Apply(s, e).orders :: OrderRowSound(Apply(s, e), o)
  {
    OrdersStaySound(s, e);
    ApplyGrows(s, e);
  }

  /** The lines of an order never change. */
  lemma {:induction false} OrderLinesStay(s: Store, e: Event, k: nat)
    requires Addressed(s, e) && k < |s.orders|
    ensures k < |Apply(s, e).orders| && Apply(s, e).orders[k].lines == s.orders[k].lines
    ensures Apply(s, e).orders[k].supplier == s.orders[k].supplier && Apply(s, e).orders[k].total == s.orders[k].total
  {
    ApplyFrame(s, e);
  }

  lemma {:induction false} KeepsReceipts(s: Store, e: Event)
    requires RowsSound(s) && Enabled(s, e)
    ensures forall r <- Apply(s, e).receipts :: ReceiptRowSound(Apply(s, e), r)
  {
    ApplyFrame(s, e);
    forall r | r in s.receipts
      ensures ReceiptRowSound(Apply(s, e), r)
    {
      OrderLinesStay(s, e, r.order);
    }
    if e.Receive? {
      OrderLinesStay(s, e, e.receipt.order);
      assert ReceiptRowSound(Apply(s, e), e.receipt);
    }
  }

  lemma {:induction false} KeepsRowsSound(s: Store, e: Event)
    requires Linked(s) && RowsSound(s) && Enabled(s, e)
    ensures RowsSound(Apply(s, e))
  {
    KeepsSalesSound(s, e);
    KeepsOrders(s, e);
    KeepsReceipts(s, e);
  }

  lemma {:induction false} KeepsIntact(s: Store, e: Event)
    requires Intact(s) && Enabled(s, e)
    ensures Intact(Apply(s, e))
  {
    KeepsLinked(s, e);
    KeepsReconciled(s, e);
    KeepsSources(s, e);
    KeepsJournaled(s, e);
    KeepsRowsSound(s, e);
  }
}
