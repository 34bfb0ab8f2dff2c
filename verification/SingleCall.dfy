/** A checkout key that only one request ever carries, as a till uses it, seen through the whole idempotency protocol. */
module SingleCall {
  import opened Wrappers
  import opened Tables
  import opened Handler
  import opened Events
  import opened SalesBooks
  import opened Idempotency
  import Checkout

  predicate NoCall(calls: seq<Call>, key: string) {
    forall j :: 0 <= j < |calls| ==> calls[j].slot.key != key
  }

  predicate OnlyCall(calls: seq<Call>, c: nat, key: string) {
    && c < |calls| && calls[c].slot == Slot(key, CheckoutRoute)
    && forall j :: 0 <= j < |calls| && calls[j].slot.key == key ==> j == c
  }

  /** An outcome that says nothing was sold: none yet, or a refusal before the commit. A 500 says nothing either way. */
  predicate Unsold(outcome: Option<Outcome>) {
    outcome.None? || (outcome.value.Failure? && outcome.value.code != "CHECKOUT_FAILED")
  }

  /** The body of a sale that this call itself committed. */
  ghost predicate FreshSale(c: Call, body: Body) {
    body.SaleBody? && exists s: Store :: Checkout.Linked(s) && Enabled(s, SellOf(c, body.sale))
  }

  /** What the call's outcome says is true of the store. */
  ghost predicate Truthful(s: Store, c: Call) {
    && (Unsold(c.outcome) ==> !Checkout.KeyUsed(s.sales, c.slot.key))
    && (c.outcome.Some? && c.outcome.value.Success? ==> FreshSale(c, c.outcome.value.body))
  }

  // ---------- who can sell under a key ----------

  lemma {:induction false} SalesUnderKey(s: Store, e: Event, key: string)
    requires Enabled(s, e) && !(e.Sell? && e.key == key)
    ensures Checkout.KeyUsed(Apply(s, e).sales, key) <==> Checkout.KeyUsed(s.sales, key)
  {
    ApplyGrows(s, e);
    var t := Apply(s, e).sales;
    forall id | 0 <= id < |t|
      ensures (id < |s.sales| ==> t[id].key == s.sales[id].key) && (id >= |s.sales| ==> t[id].key != key)
    {
      SalesAfter(s, e, id);
    }
  }

  /** The call an action runs, if it runs one. */
  function Runner(a: Action): Option<nat> {
    match a
    case RunHandler(i, _, _) => Some(i)
    case CommitFault(i, _) => Some(i)
    case _ => None
  }

  lemma {:induction false} RunSellsOwnKey(st: System, i: nat, sale: Sale, other: Outcome, key: string)
    requires Can(st, RunHandler(i, sale, other)) && !(st.calls[i].slot == Slot(key, CheckoutRoute))
    ensures Checkout.KeyUsed(RunStep(st, i, sale, other).store.sales, key) <==> Checkout.KeyUsed(st.store.sales, key)
  {
    if RunStep(st, i, sale, other).store != st.store {
      SalesUnderKey(st.store, SellOf(st.calls[i], sale), key);
    }
  }

  /** Only a checkout request with the key sells under it. */
  lemma {:induction false} OnlyItsCallSells(st: System, a: Action, key: string)
    requires Can(st, a)
    requires Runner(a).Some? ==> st.calls[Runner(a).value].slot != Slot(key, CheckoutRoute)
    ensures Checkout.KeyUsed(Do(st, a).store.sales, key) <==> Checkout.KeyUsed(st.store.sales, key)
  {
    if a.RunHandler? {
      RunSellsOwnKey(st, a.who, a.sale, a.other, key);
    } else if a.CommitFault? {
      SalesUnderKey(st.store, SellOf(st.calls[a.who], a.sale), key);
    } else if a.Business? {
      SalesUnderKey(st.store, a.event, key);
    }
  }

  // ---------- the call through every step ----------

  predicate ArrivesWith(a: Action, key: string) {
    a.Arrive? && a.slot.key == key
  }

  lemma {:induction false} OnlyArrivalsAdd(st: System, a: Action)
    requires Can(st, a) && !a.Arrive?
    ensures |Do(st, a).calls| == |st.calls|
  {
  }

  lemma {:induction false} SlotsStay(st: System, a: Action)
    requires Tidy(st) && Can(st, a)
    ensures |st.calls| <= |Do(st, a).calls| && forall j :: 0 <= j < |st.calls| ==> Do(st, a).calls[j].slot == st.calls[j].slot
    ensures forall j :: |st.calls| <= j < |Do(st, a).calls| ==> a.Arrive? && Do(st, a).calls[j].slot == a.slot
  {
    DoIsTidy(st, a);
    if !a.Arrive? { OnlyArrivalsAdd(st, a); }
  }

  /** A key no request carries is not used by anything others do. */
  lemma {:induction false} UnusedStays(st: System, a: Action, key: string)
    requires Tidy(st) && Can(st, a) && NoCall(st.calls, key) && !Checkout.KeyUsed(st.store.sales, key) && !ArrivesWith(a, key)
    ensures NoCall(Do(st, a).calls, key) && !Checkout.KeyUsed(Do(st, a).store.sales, key)
  {
    SlotsStay(st, a);
    OnlyItsCallSells(st, a, key);
  }

  lemma {:induction false} OnlyCallStays(st: System, a: Action, c: nat, key: string)
    requires Tidy(st) && Can(st, a) && OnlyCall(st.calls, c, key) && !ArrivesWith(a, key)
    ensures OnlyCall(Do(st, a).calls, c, key)
  {
    SlotsStay(st, a);
  }

  /** The call an action works on, if it works on one. */
  predicate Moves(a: Action, c: nat) {
    match a
    case Arrive(_, _, _, _, _) => false
    case LookInCache(i, _) => i == c
    case Select(i) => i == c
    case Renew(i, _) => i == c
    case Insert(i) => i == c
    case FindSale(i) => i == c
    case RunHandler(i, _, _) => i == c
    case HandlerFault(i) => i == c
    case CommitFault(i, _) => i == c
    case Record(i, _) => i == c
    case FillCache(i, _) => i == c
    case Crash(i) => i == c
    case _ => false
  }

  lemma {:induction false} OthersStay(st: System, a: Action, c: nat)
    requires Can(st, a) && c < |st.calls| && !Moves(a, c)
    ensures c < |Do(st, a).calls| && Do(st, a).calls[c] == st.calls[c]
  {
  }

  /** The handler steps are the only ones that give a call its outcome or sell. */
  lemma {:induction false} PlainStepsKeep(st: System, a: Action, c: nat)
    requires Can(st, a) && c < |st.calls| && Moves(a, c) && !a.FindSale? && !a.RunHandler? && !a.HandlerFault? && !a.CommitFault?
    ensures c < |Do(st, a).calls| && Do(st, a).calls[c].outcome == st.calls[c].outcome && Do(st, a).store == st.store
    ensures Do(st, a).calls[c].slot == st.calls[c].slot && SameRequest(Do(st, a).calls[c], st.calls[c])
  {
  }

  predicate SameRequest(a: Call, b: Call) {
    a.slot == b.slot && a.cashier == b.cashier && a.cart == b.cart && a.at == b.at
  }

  lemma FreshForSameRequest(a: Call, b: Call, body: Body)
    requires SameRequest(a, b) && FreshSale(b, body)
    ensures FreshSale(a, body)
  {
    var s: Store :| Checkout.Linked(s) && Enabled(s, SellOf(b, body.sale));
    assert SellOf(a, body.sale) == SellOf(b, body.sale);
  }

  lemma {:induction false} SoldIsFresh(s: Store, call: Call, sale: Sale)
    requires Checkout.Linked(s) && Enabled(s, SellOf(call, sale))
    ensures FreshSale(Finished(call, SaleReply(|s.sales|, sale)), SaleBody(|s.sales|, sale))
  {
    assert FreshSale(call, SaleBody(|s.sales|, sale));
    FreshForSameRequest(Finished(call, SaleReply(|s.sales|, sale)), call, SaleBody(|s.sales|, sale));
  }

  lemma {:induction false} RunIsTruthful(st: System, c: nat, sale: Sale, other: Outcome)
    requires Checkout.Linked(st.store) && At(st, c, Selling) && st.calls[c].slot.route == CheckoutRoute && st.calls[c].outcome == None
    requires Checkout.Refusal(st.store, st.calls[c].slot.key, st.calls[c].cart).Some? || Enabled(st.store, SellOf(st.calls[c], sale))
    requires Truthful(st.store, st.calls[c])
    ensures Truthful(RunStep(st, c, sale, other).store, RunStep(st, c, sale, other).calls[c])
  {
    var call := st.calls[c];
    if Checkout.Refusal(st.store, call.slot.key, call.cart).None? { SoldIsFresh(st.store, call, sale); }
  }

  /** A call alone under its key finds no sale before its own. */
  lemma {:induction false} FindIsTruthful(st: System, c: nat)
    requires At(st, c, Admitted) && st.calls[c].outcome == None && Truthful(st.store, st.calls[c])
    ensures var t := FindStep(st, c, FoundBy(st.store, st.calls[c].slot.key)); Truthful(t.store, t.calls[c])
  {
  }

  lemma {:induction false} OtherStepIsTruthful(st: System, a: Action, c: nat, key: string)
    requires Can(st, a) && OnlyCall(st.calls, c, key) && !Moves(a, c) && Truthful(st.store, st.calls[c])
    ensures c < |Do(st, a).calls| && Truthful(Do(st, a).store, Do(st, a).calls[c])
  {
    OthersStay(st, a, c);
    OnlyItsCallSells(st, a, key);
  }

  lemma {:induction false} PlainStepIsTruthful(st: System, a: Action, c: nat)
    requires Can(st, a) && c < |st.calls| && Moves(a, c) && !a.FindSale? && !a.RunHandler? && !a.HandlerFault? && !a.CommitFault?
    requires Truthful(st.store, st.calls[c])
    ensures c < |Do(st, a).calls| && Truthful(Do(st, a).store, Do(st, a).calls[c])
  {
    PlainStepsKeep(st, a, c);
    if st.calls[c].outcome.Some? && st.calls[c].outcome.value.Success? {
      FreshForSameRequest(Do(st, a).calls[c], st.calls[c], st.calls[c].outcome.value.body);
    }
  }

  lemma {:induction false} FaultIsTruthful(st: System, a: Action, c: nat)
    requires Can(st, a) && c < |st.calls| && Moves(a, c) && (a.HandlerFault? || a.CommitFault?)
    ensures c < |Do(st, a).calls| && Truthful(Do(st, a).store, Do(st, a).calls[c])
  {
    assert Do(st, a).calls[c].outcome == Some(FaultReply());
  }

  /** Its outcome stays true of the store through every step of the protocol, its own and everybody else's. */
  lemma {:induction false} TruthfulStays(st: System, a: Action, c: nat, key: string)
    requires Checkout.Linked(st.store) && Tidy(st) && Can(st, a) && OnlyCall(st.calls, c, key) && Truthful(st.store, st.calls[c])
    ensures c < |Do(st, a).calls| && Truthful(Do(st, a).store, Do(st, a).calls[c])
  {
    if !Moves(a, c) {
      OtherStepIsTruthful(st, a, c, key);
    } else if a.FindSale? {
      assert CallFits(st, c, st.calls[c]);
      FindIsTruthful(st, c);
    } else if a.RunHandler? {
      assert CallFits(st, c, st.calls[c]);
      RunIsTruthful(st, c, a.sale, a.other);
    } else if a.HandlerFault? || a.CommitFault? {
      FaultIsTruthful(st, a, c);
    } else {
      PlainStepIsTruthful(st, a, c);
    }
  }

  /** An answer, replayed or not, is the call's own outcome; anything else is one of the protocol's two conflicts. */
  lemma {:induction false} ReplyIsOwnOutcome(st: System, c: nat, key: string)
    requires Tidy(st) && OnlyCall(st.calls, c, key) && st.calls[c].reply.Some?
    ensures match st.calls[c].reply.value
            case Handled(o) => st.calls[c].outcome == Some(o)
            case Replayed(o) => o.Success? && st.calls[c].outcome == Some(o)
            case Rejected(code) => code == REUSED || code == IN_PROGRESS
  {
    var call := st.calls[c];
    assert CallFits(st, c, call);
    if call.reply.value.Replayed? {
      var j :| 0 <= j < |st.calls| && RanTo(st.calls[j], call.slot, call.hash, call.reply.value.outcome);
      assert j == c;
    }
  }
}
