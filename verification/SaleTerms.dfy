/** What a checkout answers, said in the rows it reads and the figures of the request alone. */
module SaleTerms {
  import opened Wrappers
  import opened Int64
  import opened Tables
  import opened Sums
  import opened Checkout

  function AtPrice(s: Store): CartItem -> int {
    (i: CartItem) => if i.sku in s.skus && s.skus[i.sku] in s.products then s.products[s.skus[i.sku]].unitPrice * i.quantity else 0
  }

  function AtCost(s: Store): CartItem -> int {
    (i: CartItem) => if i.sku in s.skus && s.skus[i.sku] in s.products then s.products[s.skus[i.sku]].costPrice * i.quantity else 0
  }

  /** The units of one SKU in the whole cart. */
  function Units(items: seq<CartItem>, sku: string): int {
    Sum(items, (i: CartItem) => if i.sku == sku then i.quantity else 0)
  }

  /** On sale: the SKU names an active product. */
  predicate OnSale(s: Store, sku: string) {
    sku in s.skus && s.skus[sku] in s.products && s.products[s.skus[sku]].isActive
  }

  predicate InStock(s: Store, items: seq<CartItem>, sku: string) {
    sku in s.skus && s.skus[sku] in s.stock.onHand && Units(items, sku) <= s.stock.onHand[s.skus[sku]]
  }

  /** A customer settles a total with enough cash, at most two billion of it, or with no cash at all. */
  predicate Settles(payment: PaymentMethod, tendered: Option<int>, total: int) {
    if payment == CASH then tendered.Some? && 0 <= total <= tendered.value <= 2_000_000_000 else tendered == None
  }

  predicate Open(s: Store, code: nat) {
    code in s.accounts && s.accounts[code].isActive
  }

  function Due(s: Store, req: Request): int {
    var subtotal := Sum(req.items, AtPrice(s));
    if req.discount <= subtotal then subtotal - req.discount else 0
  }

  lemma {:induction false} CartReads(s: Store, items: seq<CartItem>)
    requires Linked(s)
    ensures Sum(items, PriceIn(s)) == Sum(items, AtPrice(s)) && Sum(items, CostIn(s)) == Sum(items, AtCost(s))
    ensures forall sku :: Requested(items, sku) == Units(items, sku)
  {
    SumCongruent(items, PriceIn(s), AtPrice(s));
    SumCongruent(items, CostIn(s), AtCost(s));
    forall sku
      ensures Requested(items, sku) == Units(items, sku)
    {
      SumCongruent(items, QuantityOf(sku), (i: CartItem) => if i.sku == sku then i.quantity else 0);
    }
  }

  lemma {:induction false} DueIsTotal(s: Store, req: Request)
    requires Linked(s)
    ensures Total(s, req) == Due(s, req)
  {
    CartReads(s, req.items);
  }

  /** A cart whose lines are all on sale and in stock, and whose sums are small, meets no fault. */
  lemma {:induction false} NoFaultWhenFine(s: Store, req: Request, n: nat)
    requires Bound(req) && Linked(s) && n <= |req.items|
    requires forall item <- req.items :: OnSale(s, item.sku) && InStock(s, req.items, item.sku)
    requires Sum(req.items, AtPrice(s)) <= MAX64 && Sum(req.items, AtCost(s)) <= MAX64
    ensures FirstFault(s, req.items, n).None?
  {
    if n > 0 {
      var item := req.items[n - 1];
      assert item in req.items;
      NoFaultWhenFine(s, req, n - 1);
      CartReads(s, req.items);
      PricesNonNegative(s, req.items);
      SumPrefix(req.items, n, PriceIn(s));
      SumPrefix(req.items, n, CostIn(s));
      UnitsWithinSubtotal(s, req, item.sku);
    }
  }

  lemma {:induction false} PricedWhenFine(s: Store, req: Request)
    requires Bound(req) && Linked(s)
    ensures QuoteFault(s, req).None? <==>
              && (forall item <- req.items :: OnSale(s, item.sku) && InStock(s, req.items, item.sku))
              && Sum(req.items, AtCost(s)) <= MAX64
              && 0 <= req.discount <= 1_000_000_000 && Due(s, req) <= 1_000_000_000
              && Settles(req.payment, req.tendered, Due(s, req))
  {
    CartReads(s, req.items);
    DueIsTotal(s, req);
    if QuoteFault(s, req).None? {
      PricedCartIsInStock(s, req);
      forall item | item in req.items
        ensures OnSale(s, item.sku)
      {
        var i :| 0 <= i < |req.items| && req.items[i] == item;
        NoLineFault(s, req.items, |req.items|, i);
      }
      NoLineFault(s, req.items, |req.items|, |req.items| - 1);
      assert req.items[..|req.items|] == req.items;
    } else if && (forall item <- req.items :: OnSale(s, item.sku) && InStock(s, req.items, item.sku))
              && Sum(req.items, AtCost(s)) <= MAX64 && 0 <= req.discount <= 1_000_000_000 && Due(s, req) <= 1_000_000_000 {
      NoFaultWhenFine(s, req, |req.items|);
    }
  }

  /** A fresh cart sells exactly when every SKU is on sale and in stock for all its units, the discount is at most a billion, the
      total is between one and a billion, the cost of goods is positive, the payment settles, the key is new and the four accounts
      are open. */
  lemma {:induction false} SellsExactlyWhen(s: Store, key: string, req: Request)
    requires Bound(req) && Linked(s)
    ensures Refusal(s, key, req).None? <==>
              && (forall item <- req.items :: OnSale(s, item.sku) && InStock(s, req.items, item.sku))
              && 0 <= req.discount <= 1_000_000_000
              && 1 <= Due(s, req) <= 1_000_000_000
              && 1 <= Sum(req.items, AtCost(s)) && Due(s, req) + Sum(req.items, AtCost(s)) <= MAX64
              && Settles(req.payment, req.tendered, Due(s, req))
              && (forall sale <- s.sales :: sale.key != key)
              && Open(s, if req.payment == CASH then 1010 else 1020) && Open(s, 4010) && Open(s, 5010) && Open(s, 1030)
  {
    CartReads(s, req.items);
    DueIsTotal(s, req);
    PricedWhenFine(s, req);
    assert KeyUsed(s.sales, key) <==> exists sale <- s.sales :: sale.key == key;
  }

  // ---------- which answer a refused cart gets ----------

  /** The loop passes line i: on sale, the wrapped aggregate within the stock, and both running sums within int64. */
  ghost predicate LinePasses(s: Store, items: seq<CartItem>, i: nat)
    requires i < |items|
  {
    && OnSale(s, items[i].sku) && s.skus[items[i].sku] in s.stock.onHand
    && Wrap(Units(items, items[i].sku)) <= s.stock.onHand[s.skus[items[i].sku]]
    && Sum(items[..i + 1], AtPrice(s)) <= MAX64 && Sum(items[..i + 1], AtCost(s)) <= MAX64
  }

  lemma {:induction false} PassingPrefix(s: Store, items: seq<CartItem>, k: nat)
    requires Linked(s) && k <= |items| && forall i :: 0 <= i < k ==> LinePasses(s, items, i)
    ensures FirstFault(s, items, k).None?
  {
    if k > 0 {
      PassingPrefix(s, items, k - 1);
      CartReads(s, items);
      CartReads(s, items[..k]);
      assert LinePasses(s, items, k - 1);
    }
  }

  /** The first line that does not pass decides the answer: not on sale, short in stock, or a sum that leaves int64. */
  lemma {:induction false} FirstBadLineAnswers(s: Store, key: string, req: Request, k: nat)
    requires Bound(req) && Linked(s) && k < |req.items|
    requires (forall i :: 0 <= i < k ==> LinePasses(s, req.items, i)) && !LinePasses(s, req.items, k)
    ensures var sku := req.items[k].sku;
            && (!OnSale(s, sku) ==> Refusal(s, key, req) == Some(ProductNotFound))
            && (OnSale(s, sku) ==>
                  if s.stock.onHand[s.skus[sku]] < Wrap(Units(req.items, sku))
                  then Refusal(s, key, req) == Some(InsufficientStock)
                  else Refusal(s, key, req) == Some(InvalidMonetaryAmount))
  {
    PassingPrefix(s, req.items, k);
    CartReads(s, req.items);
    CartReads(s, req.items[..k + 1]);
    FirstFaultStays(s, req.items, k + 1, |req.items|);
  }

  /** When every line passes, the discount, the cap, the payment, the key and the journal answer, in this order. */
  lemma {:induction false} PassingCartAnswers(s: Store, key: string, req: Request)
    requires Bound(req) && Linked(s)
    requires forall i :: 0 <= i < |req.items| ==> LinePasses(s, req.items, i)
    ensures var cashShort := req.payment == CASH && (req.tendered.None? || (0 <= req.tendered.value <= 2_000_000_000 && req.tendered.value < Due(s, req)));
            Refusal(s, key, req) ==
            if !(0 <= req.discount <= 1_000_000_000) then Some(InvalidMonetaryAmount)
            else if Due(s, req) > 1_000_000_000 then Some(TransactionLimitExceeded)
            else if req.payment != CASH && req.tendered.Some? then Some(CashTenderedNotAllowed)
            else if cashShort then Some(InsufficientCashTendered)
            else if req.payment == CASH && !(0 <= req.tendered.value <= 2_000_000_000) then Some(InvalidMonetaryAmount)
            else if exists sale <- s.sales :: sale.key == key then Some(KeyTaken)
            else if || !Open(s, if req.payment == CASH then 1010 else 1020) || !Open(s, 4010) || !Open(s, 5010) || !Open(s, 1030)
                    || Due(s, req) < 1 || Sum(req.items, AtCost(s)) < 1 || Due(s, req) + Sum(req.items, AtCost(s)) > MAX64 then Some(JournalFailed)
            else None
  {
    PassingPrefix(s, req.items, |req.items|);
    CartReads(s, req.items);
    DueIsTotal(s, req);
    assert KeyUsed(s.sales, key) <==> exists sale <- s.sales :: sale.key == key;
  }
}
