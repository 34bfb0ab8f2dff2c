/** Every run of the store from an empty catalogue, and what its reports always show. */
module Runs {
  import opened Tables
  import opened Sums
  import opened PurchaseOrders
  import opened Catalogue
  import opened Events
  import opened Integrity
  import opened SalesBooks
  import opened OrderBooks
  import opened DailySummary
  import opened Payables
  import Inventory
  import Ledger
  import Balances

  ghost predicate Consistent(s: Store) {
    Intact(s) && Booked(s) && Filed(s)
  }

  /** A tenant before its first product: any accounts, suppliers, certificates and policy. */
  predicate Initial(s: Store) {
    && s.products == map[] && s.skus == map[] && s.stock == Stock(map[], []) && s.adjustments == []
    && s.sales == [] && s.entries == [] && s.orders == [] && s.receipts == []
  }

  ghost predicate CanRun(s: Store, es: seq<Event>)
    decreases |es|
  {
    |es| == 0 || (Enabled(s, es[0]) && CanRun(Apply(s, es[0]), es[1..]))
  }

  ghost function After(s: Store, es: seq<Event>): Store
    requires CanRun(s, es)
    decreases |es|
  {
    if |es| == 0 then s else After(Apply(s, es[0]), es[1..])
  }

  lemma {:induction false} InitialConsistent(s: Store)
    requires Initial(s)
    ensures Consistent(s)
  {
  }

  lemma {:induction false} StepKeepsConsistent(s: Store, e: Event)
    requires Consistent(s) && Enabled(s, e)
    ensures Consistent(Apply(s, e))
  {
    KeepsIntact(s, e);
    KeepsBooked(s, e);
    KeepsFiled(s, e);
  }

  /** Every run keeps the store consistent. */
  lemma {:induction false} RunsKeepConsistent(s: Store, es: seq<Event>)
    requires Consistent(s) && CanRun(s, es)
    ensures Consistent(After(s, es))
    decreases |es|
  {
    if |es| > 0 {
      StepKeepsConsistent(s, es[0]);
      RunsKeepConsistent(Apply(s, es[0]), es[1..]);
    }
  }

  /** Whatever was done since the first product: stock reconciles with its movements and is never negative, the sale and
      void journals are worth the completed sales, a received order is owed for exactly, no open order waits for a
      product that is switched off, and with every account active the books balance on every date. */
  lemma {:induction false} EveryRunReconciles(s: Store, es: seq<Event>)
    requires Initial(s) && CanRun(s, es)
    ensures var t := After(s, es);
            && (forall p <- t.stock.onHand ::
                  var b := Inventory.GetReconciledBalance(t.stock, p); b.Ok? && b.value.opening + b.value.subsequent == b.value.onHand >= 0)
            && Sum(t.entries, SalesNet(Ledger.SALES_REVENUE)) == -Sum(t.sales, Completed(Any(), TotalOf()))
            && Sum(t.entries, SalesNet(Ledger.COGS)) == Sum(t.sales, Completed(Any(), CogsOf()))
            && Sum(t.entries, SalesNet(Ledger.CASH_ON_HAND)) == Sum(t.sales, Completed(PaidIn(true), TotalOf()))
            && Sum(t.entries, SalesNet(Ledger.BANK)) == Sum(t.sales, Completed(PaidIn(false), TotalOf()))
    ensures var t := After(s, es);
            && (forall k :: 0 <= k < |t.orders| && t.orders[k].status == RECEIVED ==>
                  Sum(t.entries, OrderCredits(t.receipts, k)) == t.orders[k].total)
            && OpenOrdersActive(t)
            && ((forall code <- t.accounts :: t.accounts[code].isActive) ==> forall asOf :: Balances.InactiveNet(t, asOf) == 0)
  {
    InitialConsistent(s);
    RunsKeepConsistent(s, es);
    var t := After(s, es);
    JournalsMatchSales(t);
    forall p | p in t.stock.onHand
      ensures var b := Inventory.GetReconciledBalance(t.stock, p); b.Ok? && b.value.opening + b.value.subsequent == b.value.onHand >= 0
    {
      Inventory.ReconciledBalanceAddsUp(t.stock, p);
    }
    forall k | 0 <= k < |t.orders| && t.orders[k].status == RECEIVED
      ensures Sum(t.entries, OrderCredits(t.receipts, k)) == t.orders[k].total
    {
      ReceivedOrderIsPayable(t, k);
    }
    if forall code <- t.accounts :: t.accounts[code].isActive {
      forall asOf
        ensures Balances.InactiveNet(t, asOf) == 0
      {
        Balances.AllActiveMeansBalanced(t, asOf);
      }
    }
  }

  /** A received or cancelled order stays exactly as it is, through every run. */
  lemma {:induction false} ClosedForever(s: Store, es: seq<Event>, k: nat)
    requires CanRun(s, es) && k < |s.orders| && (s.orders[k].status == RECEIVED || s.orders[k].status == CANCELLED)
    ensures k < |After(s, es).orders| && After(s, es).orders[k] == s.orders[k]
    ensures forall p :: Received(After(s, es).receipts, k, p) == Received(s.receipts, k, p)
    decreases |es|
  {
    if |es| > 0 {
      ClosedOrdersStay(s, es[0], k);
      ClosedForever(Apply(s, es[0]), es[1..], k);
    }
  }

  /** A sale is never rewritten: only its status moves, from COMPLETED to VOIDED and never back. */
  lemma {:induction false} SalesOnlyVoid(s: Store, es: seq<Event>, id: nat)
    requires CanRun(s, es) && id < |s.sales|
    ensures id < |After(s, es).sales| && After(s, es).sales[id].(status := s.sales[id].status) == s.sales[id]
    ensures s.sales[id].status == VOIDED ==> After(s, es).sales[id].status == VOIDED
    decreases |es|
  {
    if |es| > 0 {
      ApplyGrows(s, es[0]);
      SalesAfter(s, es[0], id);
      SalesOnlyVoid(Apply(s, es[0]), es[1..], id);
    }
  }

  /** A completed sale can always be voided while its accounts are active, and never twice. */
  lemma {:induction false} VoidableOnce(s: Store, id: nat, at: int, day: int)
    requires Consistent(s) && id < |s.sales| && s.sales[id].status == COMPLETED
    ensures Enabled(s, VoidSale(id, at, day)) <==> Ledger.SaleAccountsActive(s, s.sales[id].payment)
    ensures Enabled(s, VoidSale(id, at, day)) ==>
              forall es, later, today :: CanRun(Apply(s, VoidSale(id, at, day)), es) ==>
                                !Enabled(After(Apply(s, VoidSale(id, at, day)), es), VoidSale(id, later, today))
  {
    if Enabled(s, VoidSale(id, at, day)) {
      var t := Apply(s, VoidSale(id, at, day));
      forall es, later, today | CanRun(t, es)
        ensures !Enabled(After(t, es), VoidSale(id, later, today))
      {
        SalesOnlyVoid(t, es, id);
      }
    }
  }
}
