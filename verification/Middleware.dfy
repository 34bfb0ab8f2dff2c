/** One request through the idempotency middleware without interference, on the cache and the table it changes in place
    (backend/pkg/idempotency/middleware.go). Each half is exactly a sequence of the steps that module Idempotency
    interleaves. */
module Middleware {
  import opened Wrappers
  import opened Handler
  import opened Idempotency

  /** Before the handler: cache, durable row, renewal or insert. */
  function Entered(st: System, i: nat): (t: System)
    requires At(st, i, Arrived)
    ensures |t.calls| == |st.calls|
  {
    var a := CacheStep(st, i, st.calls[i].slot in st.cache);
    if a.calls[i].stage != Selecting then a
    else
      var b := SelectStep(a, i);
      match b.calls[i].stage
      case Renewing => RenewStep(b, i, true)
      case Inserting => InsertStep(b, i)
      case Refilling(_) => CacheFillStep(b, i, true)
      case _ => b
  }

  /** After the handler: the durable row, then for a success the cache. */
  function Left(st: System, i: nat, ok: bool): (t: System)
    requires At(st, i, Ran) && st.calls[i].outcome.Some?
    ensures |t.calls| == |st.calls|
  {
    var a := RecordStep(st, i, ok);
    if a.calls[i].stage == Caching then CacheFillStep(a, i, true) else a
  }

  /** The same system as seen by call c: its cache, its table, its clock. */
  predicate Sees(st: System, i: nat, c: Call, now: int, cache: map<Slot, Cached>, rows: map<Slot, Row>) {
    i < |st.calls| && st.calls[i] == c && st.now == now && st.cache == cache && st.rows == rows
  }

  class Layer {
    var cache: map<Slot, Cached>
    var rows: map<Slot, Row>

    constructor ()
      ensures cache == map[] && rows == map[]
    {
      cache := map[];
      rows := map[];
    }

    /** Lets the request through to the handler, or answers it. */
    method Enter(c: Call, me: nat, now: int) returns (next: Call)
      requires c.stage == Arrived
      modifies this
      ensures forall st: System :: Sees(st, me, c, now, old(cache), old(rows)) ==> Sees(Entered(st, me), me, next, now, cache, rows)
      ensures next.stage == Admitted || next.stage == Gone
      ensures next.stage == Admitted ==> c.slot in rows && rows[c.slot].hash == c.hash
      ensures c.slot in old(cache) ==>
                && cache == old(cache) && rows == old(rows)
                && next == c.(stage := Gone, reply := Some(if old(cache)[c.slot].hash == c.hash then Replayed(old(cache)[c.slot].response)
                                                           else Rejected("IDEMPOTENCY_KEY_REUSED_WITH_DIFFERENT_PAYLOAD")))
      ensures c.slot !in old(cache) && c.slot !in old(rows) ==>
                && next == c.(stage := Admitted) && cache == old(cache)
                && rows == old(rows)[c.slot := Row(c.hash, PROCESSING, None, now + 30, me, now + 30, false)]
      ensures c.slot !in old(cache) && c.slot in old(rows) ==>
                var row := old(rows)[c.slot];
                && (row.hash != c.hash ==>
                      && next == c.(stage := Gone, reply := Some(Rejected("IDEMPOTENCY_KEY_REUSED_WITH_DIFFERENT_PAYLOAD")))
                      && cache == old(cache) && rows == old(rows))
                && (row.hash == c.hash && row.status == COMPLETED_ROW && row.response.Some? ==>
                      && next == c.(stage := Gone, reply := Some(Replayed(row.response.value)))
                      && cache == old(cache)[c.slot := Cached(c.hash, row.response.value)] && rows == old(rows))
                && (row.hash == c.hash && row.status == PROCESSING && now < row.expiresAt ==>
                      && next == c.(stage := Gone, reply := Some(Rejected("CONCURRENT_MUTATION_IN_PROGRESS")))
                      && cache == old(cache) && rows == old(rows))
                && (row.hash == c.hash && row.status == PROCESSING && now >= row.expiresAt ==>
                      && next == c.(stage := Admitted) && cache == old(cache)
                      && rows == old(rows)[c.slot := row.(expiresAt := now + 30)])
                && (row.hash == c.hash && row.status == FAILED_ROW ==>
                      next == c.(stage := Admitted) && cache == old(cache) && rows == old(rows))
    {
      if c.slot in cache {
        var cached := cache[c.slot];
        if cached.hash != c.hash { return Answered(c, Rejected(REUSED)); }
        return Answered(c, Replayed(cached.response));
      }
      if c.slot in rows {
        var row := rows[c.slot];
        if row.hash != c.hash { return Answered(c, Rejected(REUSED)); }
        if row.status == COMPLETED_ROW {
          if row.response.None? { return c.(stage := Gone); }
          cache := cache[c.slot := Cached(row.hash, row.response.value)];
          return Answered(c, Replayed(row.response.value));
        }
        if row.status == PROCESSING {
          if now < row.expiresAt { return Answered(c, Rejected(IN_PROGRESS)); }
          rows := rows[c.slot := row.(expiresAt := now + LEASE)];
        }
        return c.(stage := Admitted);
      }
      rows := rows[c.slot := Row(c.hash, PROCESSING, None, now + LEASE, me, now + LEASE, false)];
      return c.(stage := Admitted);
    }

    /** Records what the handler answered; `ok` is whether the update of the row works. */
    method Leave(c: Call, me: nat, now: int, ok: bool) returns (next: Call)
      requires c.stage == Ran && c.outcome.Some?
      modifies this
      ensures forall st: System :: Sees(st, me, c, now, old(cache), old(rows)) ==> Sees(Left(st, me, ok), me, next, now, cache, rows)
      ensures next == c.(stage := Gone)
      ensures c.outcome.value.Success? ==> cache == old(cache)[c.slot := Cached(c.hash, c.outcome.value)]
      ensures c.outcome.value.Failure? ==> cache == old(cache)
      ensures !ok || c.slot !in old(rows) ==> rows == old(rows)
      ensures ok && c.slot in old(rows) ==>
                rows == old(rows)[c.slot := if c.outcome.value.Success?
                                            then old(rows)[c.slot].(status := COMPLETED_ROW, response := c.outcome, settled := true)
                                            else old(rows)[c.slot].(status := FAILED_ROW, settled := true)]
    {
      var outcome := c.outcome.value;
      if outcome.Success? {
        if ok && c.slot in rows {
          rows := rows[c.slot := rows[c.slot].(status := COMPLETED_ROW, response := Some(outcome), settled := true)];
        }
        cache := cache[c.slot := Cached(c.hash, outcome)];
      } else if ok && c.slot in rows {
        rows := rows[c.slot := rows[c.slot].(status := FAILED_ROW, settled := true)];
      }
      return c.(stage := Gone);
    }
  }

  /** What a request leaves in the row and the cache. */
  lemma {:induction false} LeavesBehind(st: System, i: nat)
    requires At(st, i, Ran) && st.calls[i].outcome.Some? && st.calls[i].slot in st.rows && st.calls[i].slot !in st.cache
    ensures var (c, t) := (st.calls[i], Left(st, i, true));
            && t.calls == st.calls[i := c.(stage := Gone)] && c.slot in t.rows && t.rows[c.slot].hash == st.rows[c.slot].hash
            && (c.outcome.value.Success? ==>
                  && t.rows[c.slot].status == COMPLETED_ROW && t.rows[c.slot].response == c.outcome
                  && c.slot in t.cache && t.cache[c.slot] == Cached(c.hash, c.outcome.value))
            && (c.outcome.value.Failure? ==> t.rows[c.slot].status == FAILED_ROW && c.slot !in t.cache)
  {
  }

  /** The answer an arriving request gets on a settled slot. */
  function SettledAnswer(again: Call, hash: string, outcome: Outcome): Call {
    if again.hash != hash then Answered(again, Rejected(REUSED))
    else if outcome.Success? then Answered(again, Replayed(outcome))
    else again.(stage := Admitted)
  }

  lemma {:induction false} EntersSettled(st: System, j: nat, hash: string, outcome: Outcome)
    requires At(st, j, Arrived) && st.calls[j].slot in st.rows
    requires var row := st.rows[st.calls[j].slot];
             row.hash == hash && (if outcome.Success? then row.status == COMPLETED_ROW && row.response == Some(outcome) else row.status == FAILED_ROW)
    requires st.calls[j].slot in st.cache ==> outcome.Success? && st.cache[st.calls[j].slot] == Cached(hash, outcome)
    ensures Entered(st, j).calls[j] == SettledAnswer(st.calls[j], hash, outcome)
  {
  }

  /** After request i has left, with the cached answer possibly lost. */
  function Later(st: System, i: nat, lost: bool): System
    requires At(st, i, Ran) && st.calls[i].outcome.Some?
  {
    var left := Left(st, i, true);
    if lost then left.(cache := left.cache - {st.calls[i].slot}) else left
  }

  /** Once a request has left, the same request is answered alike: a success is replayed from the cache or, once that is
      lost, from the row; a failure is let through again; another fingerprint is refused. */
  lemma {:induction false} SettledRequestsAnswerAlike(st: System, i: nat, j: nat, lost: bool)
    requires At(st, i, Ran) && At(st, j, Arrived) && st.calls[i].outcome.Some? && st.calls[j].slot == st.calls[i].slot
    requires var slot := st.calls[i].slot; slot in st.rows && st.rows[slot].hash == st.calls[i].hash && slot !in st.cache
    ensures var later := Later(st, i, lost);
            At(later, j, Arrived) && Entered(later, j).calls[j] == SettledAnswer(st.calls[j], st.calls[i].hash, st.calls[i].outcome.value)
  {
    LeavesBehind(st, i);
    assert i != j && Later(st, i, lost).calls[j] == st.calls[j];
    EntersSettled(Later(st, i, lost), j, st.calls[i].hash, st.calls[i].outcome.value);
  }
}
