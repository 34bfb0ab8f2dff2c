/** The stock card of one product: opening, running and closing balances, page by page
    (backend/internal/pos/repository.go, GetStockCard). */
module StockCard {
  import opened Wrappers
  import opened Int64
  import opened Tables
  import opened Sums
  import opened Inventory

  function Delta(): Movement -> int {
    (m: Movement) => m.delta
  }

  // ---------- which movements, in which order ----------

  predicate InWindow(m: Movement, p: nat, start: Option<int>, end: Option<int>) {
    m.product == p && (start.Some? ==> m.occurredAt >= start.value) && (end.Some? ==> m.occurredAt <= end.value)
  }

  /** The rows of the window, in insertion order. */
  function Selected(ms: seq<Movement>, p: nat, start: Option<int>, end: Option<int>): seq<Movement> {
    if |ms| == 0 then []
    else
      var last := ms[|ms| - 1];
      Selected(ms[..|ms| - 1], p, start, end) + if InWindow(last, p, start, end) then [last] else []
  }

  /** Places a row after every row that is not later. */
  function Placed(rows: seq<Movement>, m: Movement): seq<Movement> {
    if |rows| == 0 || rows[|rows| - 1].occurredAt <= m.occurredAt then rows + [m]
    else Placed(rows[..|rows| - 1], m) + [rows[|rows| - 1]]
  }

  /** ORDER BY occurred_at, created_at: rows of one moment stay in insertion order. */
  function Chronological(rows: seq<Movement>): seq<Movement> {
    if |rows| == 0 then [] else Placed(Chronological(rows[..|rows| - 1]), rows[|rows| - 1])
  }

  function Window(ms: seq<Movement>, p: nat, start: Option<int>, end: Option<int>): seq<Movement> {
    Chronological(Selected(ms, p, start, end))
  }

  predicate InTimeOrder(rows: seq<Movement>) {
    forall i, j :: 0 <= i < j < |rows| ==> rows[i].occurredAt <= rows[j].occurredAt
  }

  lemma {:induction false} PlacedKeeps(rows: seq<Movement>, m: Movement)
    requires InTimeOrder(rows)
    ensures InTimeOrder(Placed(rows, m)) && multiset(Placed(rows, m)) == multiset(rows) + multiset{m}
    ensures forall x <- Placed(rows, m) :: x in rows || x == m
  {
    if |rows| > 0 && rows[|rows| - 1].occurredAt > m.occurredAt {
      var (rest, last) := (rows[..|rows| - 1], rows[|rows| - 1]);
      PlacedKeeps(rest, m);
      assert rows == rest + [last];
      forall i | 0 <= i < |Placed(rest, m)|
        ensures Placed(rest, m)[i].occurredAt <= last.occurredAt
      {
        assert Placed(rest, m)[i] in Placed(rest, m);
      }
    }
  }

  /** Sorting loses no row, invents none, and puts them in time order. */
  lemma {:induction false} ChronologicalSorts(rows: seq<Movement>)
    ensures InTimeOrder(Chronological(rows)) && multiset(Chronological(rows)) == multiset(rows)
  {
    if |rows| > 0 {
      ChronologicalSorts(rows[..|rows| - 1]);
      PlacedKeeps(Chronological(rows[..|rows| - 1]), rows[|rows| - 1]);
      assert rows == rows[..|rows| - 1] + [rows[|rows| - 1]];
    }
  }

  // ---------- sums of deltas over time ----------

  /** What a movement adds to p, if the time test keeps it. */
  function When(p: nat, keep: int -> bool): Movement -> int {
    (m: Movement) => if m.product == p && keep(m.occurredAt) then m.delta else 0
  }

  function Before(start: Option<int>): int -> bool {
    (t: int) => start.Some? && t < start.value
  }

  function UpTo(end: Option<int>): int -> bool {
    (t: int) => end.Some? ==> t <= end.value
  }

  function Between(start: Option<int>, end: Option<int>): int -> bool {
    (t: int) => (start.Some? ==> t >= start.value) && (end.Some? ==> t <= end.value)
  }

  /** After the end but before the start: only if the two are the wrong way round. */
  function Stray(start: Option<int>, end: Option<int>): int -> bool {
    (t: int) => start.Some? && end.Some? && end.value < t < start.value
  }

  /** The balance of p as of a date: all deltas up to it. */
  function BalanceAt(ms: seq<Movement>, p: nat, end: Option<int>): int {
    Sum(ms, When(p, UpTo(end)))
  }

  lemma {:induction false} SelectedSum(ms: seq<Movement>, p: nat, start: Option<int>, end: Option<int>)
    ensures Sum(Selected(ms, p, start, end), Delta()) == Sum(ms, When(p, Between(start, end)))
  {
    if |ms| > 0 {
      var rest, last := ms[..|ms| - 1], ms[|ms| - 1];
      SelectedSum(rest, p, start, end);
      if InWindow(last, p, start, end) {
        SumAppend(Selected(rest, p, start, end), last, Delta());
      } else {
        assert Selected(rest, p, start, end) + [] == Selected(rest, p, start, end);
      }
    }
  }

  lemma {:induction false} WindowSum(ms: seq<Movement>, p: nat, start: Option<int>, end: Option<int>)
    ensures Sum(Window(ms, p, start, end), Delta()) == Sum(ms, When(p, Between(start, end)))
  {
    SelectedSum(ms, p, start, end);
    ChronologicalSorts(Selected(ms, p, start, end));
    SumPermute(Window(ms, p, start, end), Selected(ms, p, start, end), Delta());
  }

  lemma {:induction false} TimesSplit(ms: seq<Movement>, p: nat, start: Option<int>, end: Option<int>)
    ensures Sum(ms, When(p, Before(start))) + Sum(ms, When(p, Between(start, end))) ==
            Sum(ms, When(p, UpTo(end))) + Sum(ms, When(p, Stray(start, end)))
  {
    if |ms| > 0 {
      TimesSplit(ms[..|ms| - 1], p, start, end);
    }
  }

  // ---------- the card ----------

  datatype Item = Item(movement: Movement, running: int)

  datatype Card = Card(opening: int, closing: int, onHand: int, total: nat, items: seq<Item>)

  function Opening(ms: seq<Movement>, p: nat, start: Option<int>): int {
    if start.None? then 0 else Sum(ms, When(p, Before(start)))
  }

  /** Row k carries the opening balance plus the first k + 1 deltas. */
  ghost predicate Runs(opening: int, rows: seq<Movement>, items: seq<Item>) {
    |items| == |rows| && forall k :: 0 <= k < |rows| ==> items[k] == Item(rows[k], opening + Sum(rows[..k + 1], Delta()))
  }

  function Page(items: seq<Item>, limit: int64, offset: nat): Option<seq<Item>> {
    if offset >= |items| then Some([])
    else if limit <= 0 || |items| < offset + limit <= MAX64 then Some(items[offset..])
    else if offset + limit > MAX64 then None
    else Some(items[offset..offset + limit])
  }

  /** Accumulates the running balance over the rows. */
  method RunningBalances(opening: int, rows: seq<Movement>) returns (items: seq<Item>, closing: int)
    ensures Runs(opening, rows, items) && closing == opening + Sum(rows, Delta())
  {
    items := [];
    closing := opening;
    for k := 0 to |rows|
      invariant |items| == k && forall i :: 0 <= i < k ==> items[i] == Item(rows[i], opening + Sum(rows[..i + 1], Delta()))
      invariant closing == opening + Sum(rows[..k], Delta())
    {
      assert rows[..k + 1][..k] == rows[..k];
      closing := closing + rows[k].delta;
      items := items + [Item(rows[k], closing)];
    }
    assert rows[..|rows|] == rows;
  }

  /** Slices one page. The bounds are added in a Go int; None is the slice fault when that sum wraps. */
  method SlicePage(all: seq<Item>, limit: int64, offset: nat) returns (r: Option<seq<Item>>)
    requires offset <= MAX64 && |all| <= MAX64
    ensures r == Page(all, limit, offset)
    ensures r.None? <==> offset < |all| && limit > 0 && offset + limit > MAX64
  {
    if offset < |all| {
      WrappedIsNegative(offset + if limit > 0 then limit else 0);
      var endIdx := Wrap(offset + limit);
      if limit <= 0 || endIdx > |all| {
        endIdx := |all|;
      }
      if endIdx < offset { return None; }
      assert all[offset..|all|] == all[offset..];
      return Some(all[offset..endIdx]);
    }
    return Some([]);
  }

  /** The card of one product. */
  method GetStockCard(s: Stock, p: nat, start: Option<int>, end: Option<int>, limit: int64, offset: nat) returns (r: Option<Card>)
    requires p in s.onHand && offset <= MAX64 && |s.movements| <= MAX64
    ensures r.None? <==> offset < |Window(s.movements, p, start, end)| && limit > 0 && offset + limit > MAX64
    ensures r.Some? ==>
              && r.value.opening == Opening(s.movements, p, start) && r.value.closing == Closing(s.movements, p, start, end)
              && r.value.onHand == s.onHand[p] && r.value.total == |Window(s.movements, p, start, end)|
    ensures r.Some? ==> exists all :: Runs(r.value.opening, Window(s.movements, p, start, end), all) && Page(all, limit, offset) == Some(r.value.items)
  {
    var opening := 0;
    if start.Some? {
      opening := Sum(s.movements, When(p, Before(start)));
    }
    var rows := Window(s.movements, p, start, end);
    WindowNotLonger(s.movements, p, start, end);
    var all, closing := RunningBalances(opening, rows);
    var page := SlicePage(all, limit, offset);
    if page.None? { return None; }
    return Some(Card(opening, closing, s.onHand[p], |rows|, page.value));
  }

  lemma WrappedIsNegative(x: int)
    requires 0 <= x < TWO64
    ensures Wrap(x) < 0 <==> x > MAX64
  {
  }

  lemma {:induction false} WindowNotLonger(ms: seq<Movement>, p: nat, start: Option<int>, end: Option<int>)
    ensures |Window(ms, p, start, end)| <= |ms|
  {
    ChronologicalSorts(Selected(ms, p, start, end));
    assert |multiset(Window(ms, p, start, end))| == |multiset(Selected(ms, p, start, end))|;
    SelectedNotLonger(ms, p, start, end);
  }

  lemma {:induction false} SelectedNotLonger(ms: seq<Movement>, p: nat, start: Option<int>, end: Option<int>)
    ensures |Selected(ms, p, start, end)| <= |ms|
  {
    if |ms| > 0 {
      SelectedNotLonger(ms[..|ms| - 1], p, start, end);
    }
  }

  // ---------- what the balances mean ----------

  function Closing(ms: seq<Movement>, p: nat, start: Option<int>, end: Option<int>): int {
    Opening(ms, p, start) + Sum(Window(ms, p, start, end), Delta())
  }

  /** The closing balance is the balance at the end date for every stock exactly when the start is not more than one
      moment after the end; nothing in the report checks that. */
  lemma {:induction false} ClosingIsBalanceAtEnd(p: nat, start: Option<int>, end: Option<int>)
    ensures (forall ms: seq<Movement> :: Closing(ms, p, start, end) == BalanceAt(ms, p, end))
            <==> (start.None? || end.None? || start.value <= end.value + 1)
  {
    if start.None? || end.None? || start.value <= end.value + 1 {
      forall ms: seq<Movement>
        ensures Closing(ms, p, start, end) == BalanceAt(ms, p, end)
      {
        ClosingSplits(ms, p, start, end);
        SumZero(ms, When(p, Stray(start, end)));
      }
    } else {
      var m := Movement(p, 1, ADJUSTMENT, Source(MANUAL_ADJUSTMENT, 0, None), end.value + 1);
      ClosingSplits([m], p, start, end);
      assert [m] == [] + [m];
      SumAppend([], m, When(p, UpTo(end)));
      SumAppend([], m, When(p, Stray(start, end)));
      assert Closing([m], p, start, end) != BalanceAt([m], p, end);
    }
  }

  lemma {:induction false} ClosingSplits(ms: seq<Movement>, p: nat, start: Option<int>, end: Option<int>)
    ensures Closing(ms, p, start, end) == BalanceAt(ms, p, end) + Sum(ms, When(p, Stray(start, end)))
  {
    WindowSum(ms, p, start, end);
    TimesSplit(ms, p, start, end);
    if start.None? { SumZero(ms, When(p, Before(start))); }
  }

  /** The window that starts right after another one ends opens with that one's closing balance. */
  lemma {:induction false} WindowsChain(ms: seq<Movement>, p: nat, start: Option<int>, end: int)
    requires start.None? || start.value <= end + 1
    ensures Closing(ms, p, start, Some(end)) == Opening(ms, p, Some(end + 1))
  {
    ClosingSplits(ms, p, start, Some(end));
    SumZero(ms, When(p, Stray(start, Some(end))));
    SumCongruent(ms, When(p, UpTo(Some(end))), When(p, Before(Some(end + 1))));
  }

  /** Without an end date the card closes with the stock on hand. */
  lemma {:induction false} OpenEndClosesOnHand(s: Stock, p: nat, start: Option<int>)
    requires Reconciled(s) && p in s.onHand
    ensures Closing(s.movements, p, start, None) == s.onHand[p]
  {
    ClosingSplits(s.movements, p, start, None);
    SumZero(s.movements, When(p, Stray(start, None)));
    SumCongruent(s.movements, When(p, UpTo(None)), DeltaOf(p));
  }

  // ---------- pages ----------

  /** The pages of one size, from the first to the n-th, put end to end. */
  function Pages(items: seq<Item>, limit: int64, n: nat): seq<Item>
    requires limit > 0
  {
    if n == 0 then []
    else
      var page := Page(items, limit, (n - 1) * limit);
      Pages(items, limit, n - 1) + if page.Some? then page.value else []
  }

  lemma NextPage(n: nat, limit: nat)
    ensures (n + 1) * limit == n * limit + limit
  {
  }

  /** Pages of one size concatenate to the window, without gaps or repeats. */
  lemma {:induction false} PagesCoverWindow(items: seq<Item>, limit: int64, n: nat)
    requires limit > 0 && |items| + limit <= MAX64
    ensures Pages(items, limit, n) == items[..if n * limit <= |items| then n * limit else |items|]
  {
    if n > 0 {
      PagesCoverWindow(items, limit, n - 1);
      NextPage(n - 1, limit);
      var from := (n - 1) * limit;
      if from < |items| {
        if from + limit > |items| {
          assert items[..from] + items[from..] == items[..|items|];
        } else {
          assert items[..from] + items[from..from + limit] == items[..from + limit];
        }
      }
    }
  }

  // ---------- the card in plain figures ----------

  /** One more movement of the product: from before the start it moves the opening balance, from the start up to and including the
      end it is a row of the card, and either way it moves the closing balance; later, or of another product, it moves nothing. */
  lemma {:induction false} OneMoreMovement(ms: seq<Movement>, m: Movement, p: nat, start: Option<int>, end: Option<int>)
    ensures var early := m.product == p && start.Some? && m.occurredAt < start.value;
            var inside := m.product == p && (start == None || start.value <= m.occurredAt) && (end == None || m.occurredAt <= end.value);
            && Opening(ms + [m], p, start) == Opening(ms, p, start) + (if early then m.delta else 0)
            && multiset(Window(ms + [m], p, start, end)) == multiset(Window(ms, p, start, end)) + (if inside then multiset{m} else multiset{})
            && Closing(ms + [m], p, start, end) == Closing(ms, p, start, end) + (if early || inside then m.delta else 0)
    ensures Opening([], p, start) == 0 && Window([], p, start, end) == []
  {
    SumAppend(ms, m, When(p, Before(start)));
    SumAppend(ms, m, When(p, Between(start, end)));
    WindowSum(ms, p, start, end);
    WindowSum(ms + [m], p, start, end);
    ChronologicalSorts(Selected(ms, p, start, end));
    ChronologicalSorts(Selected(ms + [m], p, start, end));
    assert (ms + [m])[..|ms|] == ms;
  }

  /** The rows of one moment. */
  function OfMoment(rows: seq<Movement>, t: int): seq<Movement> {
    if |rows| == 0 then []
    else OfMoment(rows[..|rows| - 1], t) + if rows[|rows| - 1].occurredAt == t then [rows[|rows| - 1]] else []
  }

  lemma {:induction false} NoneOfMoment(rows: seq<Movement>, t: int)
    requires forall m <- rows :: m.occurredAt != t
    ensures OfMoment(rows, t) == []
  {
    if |rows| > 0 {
      NoneOfMoment(rows[..|rows| - 1], t);
      assert rows[|rows| - 1] in rows;
    }
  }

  lemma {:induction false} PlacedLastOfMoment(rows: seq<Movement>, m: Movement, t: int)
    requires InTimeOrder(rows)
    ensures OfMoment(Placed(rows, m), t) == OfMoment(rows, t) + if m.occurredAt == t then [m] else []
  {
    if |rows| > 0 && rows[|rows| - 1].occurredAt > m.occurredAt {
      var rest, last := rows[..|rows| - 1], rows[|rows| - 1];
      PlacedLastOfMoment(rest, m, t);
      assert (Placed(rest, m) + [last])[..|Placed(rest, m)|] == Placed(rest, m);
    } else {
      assert (rows + [m])[..|rows|] == rows;
    }
  }

  /** Rows of one moment stay in the order they were inserted. */
  lemma {:induction false} MomentsKeepTheirOrder(rows: seq<Movement>, t: int)
    ensures OfMoment(Chronological(rows), t) == OfMoment(rows, t)
  {
    if |rows| > 0 {
      MomentsKeepTheirOrder(rows[..|rows| - 1], t);
      ChronologicalSorts(rows[..|rows| - 1]);
      PlacedLastOfMoment(Chronological(rows[..|rows| - 1]), rows[|rows| - 1], t);
    }
  }

  /** A page starts at its offset and holds as many items as its limit, or as there are; without a limit it holds the rest. */
  lemma {:induction false} PageHolds(items: seq<Item>, limit: int64, offset: nat)
    requires offset + (if limit > 0 then limit else 0) <= MAX64
    ensures var page := Page(items, limit, offset);
            && page.Some? && (offset >= |items| ==> page.value == [])
            && (offset < |items| ==>
                  && |page.value| == (if 0 < limit < |items| - offset then limit else |items| - offset)
                  && forall k :: 0 <= k < |page.value| ==> page.value[k] == items[offset + k])
  {
  }
}
