/** What each step of the idempotency layer answers, read off the cache entry, the durable row and the clock; and that a
    request can always be carried on to its answer, through a crash and an expired lease too. */
module Leases {
  import opened Wrappers
  import opened Tables
  import opened Handler
  import opened Events
  import opened Runs
  import opened Idempotency
  import Checkout

  // ---------- looking for an earlier answer ----------

  /** The cache: another fingerprint is refused, the same one replayed, and a miss or an unreadable hit falls through. */
  lemma {:induction false} CacheAnswers(st: System, i: nat, hit: bool)
    requires At(st, i, Arrived)
    ensures Can(st, LookInCache(i, false)) && (st.calls[i].slot in st.cache ==> Can(st, LookInCache(i, true)))
    ensures hit && st.calls[i].slot in st.cache ==>
              var c, found := st.calls[i], st.cache[st.calls[i].slot];
              Do(st, LookInCache(i, hit)) == st.(calls := st.calls[i :=
                c.(stage := Gone, reply := Some(if found.hash != c.hash then Rejected("IDEMPOTENCY_KEY_REUSED_WITH_DIFFERENT_PAYLOAD")
                                                else Replayed(found.response)))])
    ensures !hit ==> Do(st, LookInCache(i, hit)) == st.(calls := st.calls[i := st.calls[i].(stage := Selecting)])
  {
  }

  /** The durable row: another fingerprint is refused; a completed row is replayed; a row in progress is refused before its lease
      ends and renewed from then on; a failed row and a free slot let the request through. */
  lemma {:induction false} RowAnswers(st: System, i: nat)
    requires At(st, i, Selecting)
    ensures Can(st, Select(i))
    ensures var c, t := st.calls[i], Do(st, Select(i));
            && t == st.(calls := t.calls) && |t.calls| == |st.calls| && (forall j :: 0 <= j < |st.calls| && j != i ==> t.calls[j] == st.calls[j])
            && (c.slot !in st.rows ==> t.calls[i] == c.(stage := Inserting))
            && (c.slot in st.rows ==>
                  var row := st.rows[c.slot];
                  && (row.hash != c.hash ==>
                        t.calls[i] == c.(stage := Gone, reply := Some(Rejected("IDEMPOTENCY_KEY_REUSED_WITH_DIFFERENT_PAYLOAD"))))
                  && (row.hash == c.hash && row.status == COMPLETED_ROW && row.response.Some? ==>
                        t.calls[i] == c.(stage := Refilling(Cached(row.hash, row.response.value)), reply := Some(Replayed(row.response.value))))
                  && (row.hash == c.hash && row.status == PROCESSING && st.now < row.expiresAt ==>
                        t.calls[i] == c.(stage := Gone, reply := Some(Rejected("CONCURRENT_MUTATION_IN_PROGRESS"))))
                  && (row.hash == c.hash && row.status == PROCESSING && st.now >= row.expiresAt ==> t.calls[i] == c.(stage := Renewing))
                  && (row.hash == c.hash && row.status == FAILED_ROW ==> t.calls[i] == c.(stage := Admitted)))
  {
  }

  /** A free slot is taken with a lease of thirty seconds; a slot taken meanwhile is in use. */
  lemma {:induction false} InsertAnswers(st: System, i: nat)
    requires At(st, i, Inserting)
    ensures Can(st, Insert(i))
    ensures var c, t := st.calls[i], Do(st, Insert(i));
            if c.slot in st.rows
            then t == st.(calls := st.calls[i := c.(stage := Gone, reply := Some(Rejected("CONCURRENT_MUTATION_IN_PROGRESS")))])
            else t == st.(calls := st.calls[i := c.(stage := Admitted)],
                          rows := st.rows[c.slot := Row(c.hash, PROCESSING, None, st.now + 30, i, st.now + 30, false)])
  {
  }

  /** A renewal moves only the end of the lease, thirty seconds ahead, and lets the request through whether or not it works. */
  lemma {:induction false} RenewAnswers(st: System, i: nat, ok: bool)
    requires At(st, i, Renewing) && st.calls[i].slot in st.rows
    ensures Can(st, Renew(i, ok))
    ensures var c := st.calls[i];
            Do(st, Renew(i, ok)) == st.(calls := st.calls[i := c.(stage := Admitted)],
                                        rows := if ok then st.rows[c.slot := st.rows[c.slot].(expiresAt := st.now + 30)] else st.rows)
  {
  }

  // ---------- running the handler and keeping its answer ----------

  /** The handler answers with the sale already under the key, or goes on to sell and changes nothing. */
  lemma {:induction false} LookupAnswers(st: System, i: nat)
    requires At(st, i, Admitted)
    ensures Can(st, FindSale(i))
    ensures var c, t := st.calls[i], Do(st, FindSale(i));
            if c.slot.route == CheckoutRoute && exists id :: 0 <= id < |st.store.sales| && st.store.sales[id].key == c.slot.key
            then exists id :: 0 <= id < |st.store.sales| && st.store.sales[id].key == c.slot.key &&
                              var answer := Success(201, SaleBody(id, st.store.sales[id]));
                              t == st.(calls := st.calls[i := c.(stage := Ran, outcome := Some(answer), reply := Some(Handled(answer)))])
            else t == st.(calls := st.calls[i := c.(stage := Selling)])
  {
    var c, t := st.calls[i], Do(st, FindSale(i));
    var found := FoundBy(st.store, c.slot.key);
    if c.slot.route == CheckoutRoute && exists id :: 0 <= id < |st.store.sales| && st.store.sales[id].key == c.slot.key {
      var id := found.value;
      var answer := Success(201, SaleBody(id, st.store.sales[id]));
      assert t == st.(calls := st.calls[i := c.(stage := Ran, outcome := Some(answer), reply := Some(Handled(answer)))]);
    }
  }

  /** A refused cart is answered with its error and nothing is sold; an accepted one is sold and answered with its sale. */
  lemma {:induction false} HandlerAnswers(st: System, i: nat, sale: Sale, other: Outcome)
    requires At(st, i, Selling) && st.calls[i].slot.route == CheckoutRoute
    ensures var c, e := st.calls[i], Sell(st.calls[i].cashier, st.calls[i].slot.key, st.calls[i].cart, sale, st.calls[i].at);
            && (Checkout.Refusal(st.store, c.slot.key, c.cart).Some? ==>
                  var answer := ErrorReply(Checkout.Refusal(st.store, c.slot.key, c.cart).value);
                  && Can(st, RunHandler(i, sale, other))
                  && Do(st, RunHandler(i, sale, other)) ==
                     st.(calls := st.calls[i := c.(stage := Ran, outcome := Some(answer), reply := Some(Handled(answer)))]))
            && (Enabled(st.store, e) ==>
                  var answer := Success(201, SaleBody(|st.store.sales|, sale));
                  && Can(st, RunHandler(i, sale, other))
                  && Do(st, RunHandler(i, sale, other)) ==
                     st.(calls := st.calls[i := c.(stage := Ran, outcome := Some(answer), reply := Some(Handled(answer)))], store := Apply(st.store, e)))
  {
  }

  /** A success completes the row with its response and goes on to the cache; a failure marks the row for a retry. An update
      that fails leaves the row as it is. */
  lemma {:induction false} RecordAnswers(st: System, i: nat, ok: bool)
    requires At(st, i, Ran) && st.calls[i].outcome.Some? && st.calls[i].slot in st.rows
    ensures Can(st, Record(i, ok))
    ensures var c, row, t := st.calls[i], st.rows[st.calls[i].slot], Do(st, Record(i, ok));
            && (c.outcome.value.Success? && ok ==>
                  t == st.(calls := st.calls[i := c.(stage := Caching)],
                           rows := st.rows[c.slot := row.(status := COMPLETED_ROW, response := c.outcome, settled := true)]))
            && (c.outcome.value.Failure? && ok ==>
                  t == st.(calls := st.calls[i := c.(stage := Gone)], rows := st.rows[c.slot := row.(status := FAILED_ROW, settled := true)]))
            && (!ok ==> t == st.(calls := st.calls[i := c.(stage := if c.outcome.value.Success? then Caching else Gone)]))
  {
  }

  /** The cache gets the handler's success, or the response replayed from the row. */
  lemma {:induction false} FillAnswers(st: System, i: nat, ok: bool)
    requires i < |st.calls|
    ensures st.calls[i].stage == Caching && st.calls[i].outcome.Some? ==>
              var c := st.calls[i];
              && Can(st, FillCache(i, ok))
              && Do(st, FillCache(i, ok)) == st.(calls := st.calls[i := c.(stage := Gone)],
                                                 cache := if ok then st.cache[c.slot := Cached(c.hash, c.outcome.value)] else st.cache)
    ensures st.calls[i].stage.Refilling? ==>
              var c := st.calls[i];
              && Can(st, FillCache(i, ok))
              && Do(st, FillCache(i, ok)) == st.(calls := st.calls[i := c.(stage := Gone)],
                                                 cache := if ok then st.cache[c.slot := c.stage.cached] else st.cache)
  {
  }

  /** A database fault is answered with status 500: before the commit nothing is sold, and after a commit whose acknowledgement
      is lost the sale stands all the same. */
  lemma {:induction false} FaultAnswers(st: System, i: nat, sale: Sale)
    requires i < |st.calls|
    ensures var c := st.calls[i];
            var answer := Failure(500, "CHECKOUT_FAILED");
            var told := st.(calls := st.calls[i := c.(stage := Ran, outcome := Some(answer), reply := Some(Handled(answer)))]);
            && (At(st, i, Admitted) || At(st, i, Selling) ==> Can(st, HandlerFault(i)) && Do(st, HandlerFault(i)) == told)
            && (At(st, i, Selling) && c.slot.route == CheckoutRoute && Enabled(st.store, Sell(c.cashier, c.slot.key, c.cart, sale, c.at)) ==>
                  Can(st, CommitFault(i, sale))
                  && Do(st, CommitFault(i, sale)) == told.(store := Apply(st.store, Sell(c.cashier, c.slot.key, c.cart, sale, c.at))))
  {
  }

  // ---------- runs to the end ----------

  lemma {:induction false} TwoParts(st: System, a: Action, rest: seq<Action>)
    requires Can(st, a) && CanAll(Do(st, a), rest)
    ensures CanAll(st, [a] + rest) && DoAll(st, [a] + rest) == DoAll(Do(st, a), rest)
  {
    assert ([a] + rest)[1..] == rest;
  }

  lemma {:induction false} OneStep(st: System, a: Action)
    requires Can(st, a)
    ensures CanAll(st, [a]) && DoAll(st, [a]) == Do(st, a)
  {
    assert [a][1..] == [];
    assert CanAll(Do(st, a), []) && DoAll(Do(st, a), []) == Do(st, a);
  }

  lemma LastWriteWins(calls: seq<Call>, i: nat, a: Call, b: Call)
    requires i < |calls|
    ensures calls[i := a][i := b] == calls[i := b]
  {
  }

  lemma {:induction false} ThreeSteps(st: System, a: Action, b: Action, c: Action)
    requires Can(st, a) && Can(Do(st, a), b) && Can(Do(Do(st, a), b), c)
    ensures CanAll(st, [a, b, c]) && DoAll(st, [a, b, c]) == Do(Do(Do(st, a), b), c)
  {
    OneStep(Do(Do(st, a), b), c);
    TwoParts(Do(st, a), b, [c]);
    TwoParts(st, a, [b] + [c]);
    assert [a] + ([b] + [c]) == [a, b, c];
  }

  /** A row left in progress by this very request, and the time past the end of its lease. */
  predicate LeftInProgress(st: System, j: nat, now: int) {
    && At(st, j, Arrived) && st.calls[j].slot in st.rows
    && var row := st.rows[st.calls[j].slot]; row.hash == st.calls[j].hash && row.status == PROCESSING && now >= row.expiresAt
  }

  function Readmitted(st: System, j: nat): System
    requires j < |st.calls| && st.calls[j].slot in st.rows
  {
    var c := st.calls[j];
    st.(calls := st.calls[j := c.(stage := Admitted)], rows := st.rows[c.slot := st.rows[c.slot].(expiresAt := st.now + 30)])
  }

  /** Past the lease, the same request is let through with a new lease of thirty seconds. */
  lemma {:induction false} ExpiredLeaseIsRenewed(st: System, j: nat)
    requires LeftInProgress(st, j, st.now)
    ensures var acts := [LookInCache(j, false), Select(j), Renew(j, true)]; CanAll(st, acts) && DoAll(st, acts) == Readmitted(st, j)
  {
    CacheAnswers(st, j, false);
    var a := Do(st, LookInCache(j, false));
    RowAnswers(a, j);
    var b := Do(a, Select(j));
    assert b == st.(calls := b.calls) && b.calls == st.calls[j := st.calls[j].(stage := Renewing)];
    RenewAnswers(b, j, true);
    LastWriteWins(st.calls, j, b.calls[j], st.calls[j].(stage := Admitted));
    ThreeSteps(st, LookInCache(j, false), Select(j), Renew(j, true));
  }

  /** Before the lease ends, the same request is told that the key is in use. */
  lemma {:induction false} RunningLeaseRefuses(st: System, j: nat)
    requires At(st, j, Arrived) && st.calls[j].slot in st.rows
    requires var row := st.rows[st.calls[j].slot]; row.hash == st.calls[j].hash && row.status == PROCESSING && st.now < row.expiresAt
    ensures var acts := [LookInCache(j, false), Select(j)];
            && CanAll(st, acts)
            && DoAll(st, acts) == st.(calls := st.calls[j := st.calls[j].(stage := Gone, reply := Some(Rejected("CONCURRENT_MUTATION_IN_PROGRESS")))])
  {
    CacheAnswers(st, j, false);
    var a := Do(st, LookInCache(j, false));
    RowAnswers(a, j);
    LastWriteWins(st.calls, j, a.calls[j], st.calls[j].(stage := Gone, reply := Some(Rejected("CONCURRENT_MUTATION_IN_PROGRESS"))));
    assert Do(a, Select(j)).calls == a.calls[j := Do(a, Select(j)).calls[j]];
    OneStep(a, Select(j));
    TwoParts(st, LookInCache(j, false), [Select(j)]);
    assert [LookInCache(j, false)] + [Select(j)] == [LookInCache(j, false), Select(j)];
  }

  /** A request crashes anywhere between its insert and its record; once its lease is over, the same request sent again is let
      through: the key is not lost. */
  lemma {:induction false} CrashedKeyIsUsableAgain(st: System, i: nat, j: nat, later: int)
    requires i < |st.calls| && i != j && later >= st.now && LeftInProgress(st, j, later)
    ensures var acts := [Crash(i)] + ([Wait(later)] + [LookInCache(j, false), Select(j), Renew(j, true)]);
            && CanAll(st, acts)
            && DoAll(st, acts) == Readmitted(st.(calls := st.calls[i := st.calls[i].(stage := Gone)], now := later), j)
  {
    var a := Do(st, Crash(i));
    var b := Do(a, Wait(later));
    assert b == st.(calls := st.calls[i := st.calls[i].(stage := Gone)], now := later);
    ExpiredLeaseIsRenewed(b, j);
    TwoParts(a, Wait(later), [LookInCache(j, false), Select(j), Renew(j, true)]);
    TwoParts(st, Crash(i), [Wait(later)] + [LookInCache(j, false), Select(j), Renew(j, true)]);
  }

  /** A new request on a free slot is let through under a lease of its own. */
  lemma {:induction false} FreeSlotAdmits(st: System, i: nat)
    requires At(st, i, Arrived) && st.calls[i].slot !in st.rows
    ensures var c, acts := st.calls[i], [LookInCache(i, false), Select(i), Insert(i)];
            && CanAll(st, acts)
            && DoAll(st, acts) == st.(calls := st.calls[i := c.(stage := Admitted)],
                                      rows := st.rows[c.slot := Row(c.hash, PROCESSING, None, st.now + 30, i, st.now + 30, false)])
  {
    CacheAnswers(st, i, false);
    var a := Do(st, LookInCache(i, false));
    RowAnswers(a, i);
    var b := Do(a, Select(i));
    assert b == st.(calls := b.calls) && b.calls == st.calls[i := st.calls[i].(stage := Inserting)];
    InsertAnswers(b, i);
    LastWriteWins(st.calls, i, b.calls[i], st.calls[i].(stage := Admitted));
    ThreeSteps(st, LookInCache(i, false), Select(i), Insert(i));
  }

  /** An admitted checkout that sells answers with its sale. */
  lemma {:induction false} AdmittedCartSells(st: System, i: nat, sale: Sale)
    requires At(st, i, Admitted) && st.calls[i].slot.route == CheckoutRoute
    requires var c := st.calls[i]; && (forall x <- st.store.sales :: x.key != c.slot.key)
                                   && Enabled(st.store, Sell(c.cashier, c.slot.key, c.cart, sale, c.at))
    ensures var c, acts := st.calls[i], [FindSale(i), RunHandler(i, sale, Failure(500, ""))];
            var answer := Success(201, SaleBody(|st.store.sales|, sale));
            && CanAll(st, acts)
            && DoAll(st, acts) == st.(calls := st.calls[i := c.(stage := Ran, outcome := Some(answer), reply := Some(Handled(answer)))],
                                      store := Apply(st.store, Sell(c.cashier, c.slot.key, c.cart, sale, c.at)))
  {
    var c := st.calls[i];
    LookupAnswers(st, i);
    var a := Do(st, FindSale(i));
    HandlerAnswers(a, i, sale, Failure(500, ""));
    var answer := Success(201, SaleBody(|st.store.sales|, sale));
    LastWriteWins(st.calls, i, a.calls[i], c.(stage := Ran, outcome := Some(answer), reply := Some(Handled(answer))));
    OneStep(a, RunHandler(i, sale, Failure(500, "")));
    TwoParts(st, FindSale(i), [RunHandler(i, sale, Failure(500, ""))]);
    assert [FindSale(i)] + [RunHandler(i, sale, Failure(500, ""))] == [FindSale(i), RunHandler(i, sale, Failure(500, ""))];
  }

  /** What the handler answered is kept: a success in the row and the cache. */
  lemma {:induction false} SuccessIsKept(st: System, i: nat)
    requires At(st, i, Ran) && st.calls[i].outcome.Some? && st.calls[i].outcome.value.Success? && st.calls[i].slot in st.rows
    ensures var c, acts := st.calls[i], [Record(i, true), FillCache(i, true)];
            && CanAll(st, acts)
            && DoAll(st, acts) == st.(calls := st.calls[i := c.(stage := Gone)],
                                      rows := st.rows[c.slot := st.rows[c.slot].(status := COMPLETED_ROW, response := c.outcome, settled := true)],
                                      cache := st.cache[c.slot := Cached(c.hash, c.outcome.value)])
  {
    RecordAnswers(st, i, true);
    var a := Do(st, Record(i, true));
    FillAnswers(a, i, true);
    LastWriteWins(st.calls, i, a.calls[i], st.calls[i].(stage := Gone));
    OneStep(a, FillCache(i, true));
    TwoParts(st, Record(i, true), [FillCache(i, true)]);
    assert [Record(i, true)] + [FillCache(i, true)] == [Record(i, true), FillCache(i, true)];
  }
}
