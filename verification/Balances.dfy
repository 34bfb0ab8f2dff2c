/** Account balances: reversal chains and the trial balance (backend/internal/ledger). */
module Balances {
  import opened Wrappers
  import opened Int64
  import opened Tables
  import opened Sums
  import opened Money
  import opened Ledger

  /** Debit minus credit of a line on account a. */
  function NetOn(a: nat): Line -> int {
    (l: Line) => if l.account == a then l.debit - l.credit else 0
  }

  function EntryNet(a: nat): Entry -> int {
    (e: Entry) => Sum(e.lines, NetOn(a))
  }

  function Balance(entries: seq<Entry>, a: nat): int {
    Sum(entries, EntryNet(a))
  }

  lemma {:induction false} InvertedNet(lines: seq<Line>, a: nat)
    ensures Sum(Inverted(lines), NetOn(a)) == -Sum(lines, NetOn(a))
  {
    if |lines| > 0 {
      InvertedNet(lines[..|lines| - 1], a);
      assert Inverted(lines)[..|lines| - 1] == Inverted(lines[..|lines| - 1]);
    }
  }

  // ---------- reversal chains ----------

  /** How many reversals follow entry i: its reversal, the reversal of that, and so on. */
  ghost function ChainLength(entries: seq<Entry>, i: nat): nat
    requires Sound(entries) && i < |entries|
    decreases |entries| - i
  {
    assert LinkSound(entries, i);
    match entries[i].reversedBy
    case None => 0
    case Some(j) => 1 + ChainLength(entries, j)
  }

  /** The net effect on account a of entry i and every reversal after it. */
  ghost function ChainNet(entries: seq<Entry>, a: nat, i: nat): int
    requires Sound(entries) && i < |entries|
    decreases |entries| - i
  {
    assert LinkSound(entries, i);
    EntryNet(a)(entries[i]) + match entries[i].reversedBy
                              case None => 0
                              case Some(j) => ChainNet(entries, a, j)
  }

  /** A root is an entry that reverses nothing. */
  ghost predicate IsRoot(entries: seq<Entry>, j: nat) {
    forall i :: 0 <= i < |entries| ==> entries[i].reversedBy != Some(j)
  }

  /** An even number of reversals leaves the first entry's effect, an odd number cancels it. */
  lemma {:induction false} ChainNetByParity(entries: seq<Entry>, a: nat, i: nat)
    requires Sound(entries) && i < |entries|
    ensures ChainNet(entries, a, i) == if ChainLength(entries, i) % 2 == 0 then EntryNet(a)(entries[i]) else 0
    decreases |entries| - i
  {
    assert LinkSound(entries, i);
    match entries[i].reversedBy
    case None =>
    case Some(j) =>
      ChainNetByParity(entries, a, j);
      InvertedNet(entries[i].lines, a);
  }

  /** Chains never merge: two entries are not reversed by the same entry. */
  lemma ReversedOnce(entries: seq<Entry>, i: nat, k: nat)
    requires Sound(entries) && i < |entries| && k < |entries|
    requires entries[i].reversedBy.Some? && entries[i].reversedBy == entries[k].reversedBy
    ensures i == k
  {
    assert LinkSound(entries, i) && LinkSound(entries, k);
  }

  /** Exactly the last entry of a chain is POSTED, and it comes after every other one. */
  lemma {:induction false} OnlyTheLastIsPosted(entries: seq<Entry>, i: nat)
    requires Sound(entries) && i < |entries|
    ensures entries[i].status == POSTED <==> ChainLength(entries, i) == 0
    ensures entries[i].status == REVERSED <==> exists j :: i < j < |entries| && entries[i].reversedBy == Some(j)
                                                           && ChainLength(entries, i) == 1 + ChainLength(entries, j)
  {
    assert LinkSound(entries, i);
  }

  function Indices(n: nat): (r: seq<nat>)
    ensures |r| == n && forall i :: 0 <= i < n ==> r[i] == i
  {
    seq(n, i => i)
  }

  /** Chain effect of entry j, seen from the entry i that j reverses. */
  ghost function LinkWeight(entries: seq<Entry>, a: nat): (nat, nat) -> int
    requires Sound(entries)
  {
    (i: nat, j: nat) => if i < |entries| && j < |entries| && entries[i].reversedBy == Some(j) then ChainNet(entries, a, j) else 0
  }

  ghost function ChainWeight(entries: seq<Entry>, a: nat): nat -> int
    requires Sound(entries)
  {
    (i: nat) => if i < |entries| then ChainNet(entries, a, i) else 0
  }

  ghost function NetAt(entries: seq<Entry>, a: nat): nat -> int {
    (i: nat) => if i < |entries| then EntryNet(a)(entries[i]) else 0
  }

  /** What root i still contributes to account a. */
  ghost function RootEffect(entries: seq<Entry>, a: nat): nat -> int
    requires Sound(entries)
  {
    (i: nat) => if i < |entries| && IsRoot(entries, i) && ChainLength(entries, i) % 2 == 0 then EntryNet(a)(entries[i]) else 0
  }

  lemma RowOfLinks(entries: seq<Entry>, a: nat, i: nat)
    requires Sound(entries) && i < |entries|
    ensures RowSum(Indices(|entries|), LinkWeight(entries, a))(i) == ChainNet(entries, a, i) - EntryNet(a)(entries[i])
  {
    var f := Fix(LinkWeight(entries, a), i);
    assert LinkSound(entries, i);
    match entries[i].reversedBy
    case None => SumZero(Indices(|entries|), f);
    case Some(j) => SumOneHit(Indices(|entries|), j, f);
  }

  lemma ColumnOfLinks(entries: seq<Entry>, a: nat, j: nat)
    requires Sound(entries) && j < |entries|
    ensures ColumnSum(Indices(|entries|), LinkWeight(entries, a))(j) == ChainNet(entries, a, j) - RootEffect(entries, a)(j)
  {
    var f := FixSecond(LinkWeight(entries, a), j);
    ChainNetByParity(entries, a, j);
    if IsRoot(entries, j) {
      SumZero(Indices(|entries|), f);
    } else {
      var i :| 0 <= i < |entries| && entries[i].reversedBy == Some(j);
      forall k | 0 <= k < |entries| && k != i
        ensures f(Indices(|entries|)[k]) == 0
      {
        if entries[k].reversedBy == Some(j) { ReversedOnce(entries, i, k); }
      }
      SumOneHit(Indices(|entries|), i, f);
    }
  }

  lemma {:induction false} SumOverIndices(entries: seq<Entry>, a: nat, n: nat)
    requires n <= |entries|
    ensures Sum(Indices(n), NetAt(entries, a)) == Sum(entries[..n], EntryNet(a))
  {
    if n > 0 {
      SumOverIndices(entries, a, n - 1);
      assert Indices(n)[..n - 1] == Indices(n - 1);
      assert entries[..n][..n - 1] == entries[..n - 1];
    }
  }

  /** Every account balance is the sum of the root entries that were reversed an even number of times. */
  lemma BalanceIsEvenRoots(entries: seq<Entry>, a: nat)
    requires Sound(entries)
    ensures Balance(entries, a) == Sum(Indices(|entries|), RootEffect(entries, a))
  {
    var ix, w := Indices(|entries|), LinkWeight(entries, a);
    SumSwap(ix, ix, w);
    forall i | i in ix
      ensures RowSum(ix, w)(i) == Minus(ChainWeight(entries, a), NetAt(entries, a))(i)
      ensures ColumnSum(ix, w)(i) == Minus(ChainWeight(entries, a), RootEffect(entries, a))(i)
    {
      RowOfLinks(entries, a, i);
      ColumnOfLinks(entries, a, i);
    }
    SumCongruent(ix, RowSum(ix, w), Minus(ChainWeight(entries, a), NetAt(entries, a)));
    SumCongruent(ix, ColumnSum(ix, w), Minus(ChainWeight(entries, a), RootEffect(entries, a)));
    SumMinus(ix, ChainWeight(entries, a), NetAt(entries, a));
    SumMinus(ix, ChainWeight(entries, a), RootEffect(entries, a));
    SumOverIndices(entries, a, |entries|);
    assert entries[..|entries|] == entries;
  }

  // ---------- trial balance ----------

  /** All lines of the entries dated on or before asOf. */
  function LinesUpTo(entries: seq<Entry>, asOf: int): seq<Line> {
    if |entries| == 0 then []
    else
      var e := entries[|entries| - 1];
      LinesUpTo(entries[..|entries| - 1], asOf) + (if e.date <= asOf then e.lines else [])
  }

  lemma {:induction false} LinesBalance(entries: seq<Entry>, asOf: int)
    requires forall i :: 0 <= i < |entries| ==> Acceptable(entries[i].lines)
    ensures Sum(LinesUpTo(entries, asOf), DebitOf()) == Sum(LinesUpTo(entries, asOf), CreditOf())
    ensures forall l <- LinesUpTo(entries, asOf) :: OneSided(l)
  {
    if |entries| > 0 {
      var rest, e := entries[..|entries| - 1], entries[|entries| - 1];
      LinesBalance(rest, asOf);
      SumConcat(LinesUpTo(rest, asOf), e.lines, DebitOf());
      SumConcat(LinesUpTo(rest, asOf), e.lines, CreditOf());
      assert LinesUpTo(rest, asOf) + [] == LinesUpTo(rest, asOf);
    }
  }

  function OnAccount(amount: Line -> int): (nat, Line) -> int {
    (code: nat, l: Line) => if l.account == code then amount(l) else 0
  }

  /** SUM(amount) over the lines of one account. */
  function AccountTotal(lines: seq<Line>, amount: Line -> int): nat -> int {
    RowSum<nat, Line>(lines, OnAccount(amount))
  }

  function OnSome(amount: Line -> int, codes: seq<nat>): Line -> int {
    (l: Line) => if l.account in codes then amount(l) else 0
  }

  predicate Ascending(codes: seq<nat>) {
    forall i, j :: 0 <= i < j < |codes| ==> codes[i] < codes[j]
  }

  /** Adding up per account, over distinct accounts, counts each of their lines exactly once. */
  lemma CountedOnce(codes: seq<nat>, lines: seq<Line>, amount: Line -> int)
    requires Ascending(codes)
    ensures Sum(codes, AccountTotal(lines, amount)) == Sum(lines, OnSome(amount, codes))
  {
    var f := OnAccount(amount);
    SumSwap<nat, Line>(codes, lines, f);
    forall l | l in lines
      ensures ColumnSum<nat, Line>(codes, f)(l) == OnSome(amount, codes)(l)
    {
      if l.account in codes {
        var k :| 0 <= k < |codes| && codes[k] == l.account;
        SumOneHit(codes, k, FixSecond<nat, Line>(f, l));
      } else {
        SumZero(codes, FixSecond<nat, Line>(f, l));
      }
    }
    SumCongruent(lines, ColumnSum<nat, Line>(codes, f), OnSome(amount, codes));
  }

  /** Accounts whose normal balance is on the debit side. */
  predicate DebitNormal(kind: AccountType) {
    kind.ASSET? || kind.EXPENSE?
  }

  datatype TrialRow = TrialRow(code: nat, kind: AccountType, debit: int, credit: int, balance: int)

  datatype TrialBalance = TrialBalance(rows: seq<TrialRow>, totalDebits: int, totalCredits: int, isBalanced: bool)

  function RowDebit(): TrialRow -> int { (r: TrialRow) => r.debit }

  function RowCredit(): TrialRow -> int { (r: TrialRow) => r.credit }

  function AssetSide(): TrialRow -> int { (r: TrialRow) => if DebitNormal(r.kind) then r.balance else 0 }

  function ClaimSide(): TrialRow -> int { (r: TrialRow) => if !DebitNormal(r.kind) then r.balance else 0 }

  /** What the lines of switched-off accounts net to; the report leaves these accounts out. */
  function InactiveNet(s: Store, asOf: int): int {
    Sum(LinesUpTo(s.entries, asOf), OffBooks(s.accounts))
  }

  function OffBooks(accounts: map<nat, Account>): Line -> int {
    (l: Line) => if l.account in accounts && accounts[l.account].isActive then 0 else l.debit - l.credit
  }

  function Codes(rows: seq<TrialRow>): (codes: seq<nat>)
    ensures |codes| == |rows| && forall i :: 0 <= i < |rows| ==> codes[i] == rows[i].code
  {
    seq(|rows|, i requires 0 <= i < |rows| => rows[i].code)
  }

  /** The rows list each active account once, in code order, with its totals and its balance on its normal side. */
  ghost predicate RowsOf(s: Store, asOf: int, rows: seq<TrialRow>) {
    && Ascending(Codes(rows))
    && (forall code :: code in Codes(rows) <==> ActiveAccount(s, code))
    && (forall r <- rows ::
          && r.code in s.accounts && r.kind == s.accounts[r.code].kind
          && r.debit == AccountTotal(LinesUpTo(s.entries, asOf), DebitOf())(r.code)
          && r.credit == AccountTotal(LinesUpTo(s.entries, asOf), CreditOf())(r.code)
          && r.balance == if DebitNormal(r.kind) then r.debit - r.credit else r.credit - r.debit)
  }

  lemma {:induction false} HasMinimum(codes: set<nat>, low: nat, high: nat)
    requires low <= high && high in codes && forall d <- codes :: low <= d
    ensures exists c :: c in codes && forall d <- codes :: c <= d
    decreases high - low
  {
    if low !in codes {
      HasMinimum(codes, low + 1, high);
    }
  }

  method LowestCode(codes: set<nat>) returns (code: nat)
    requires codes != {}
    ensures code in codes && forall d <- codes :: code <= d
  {
    ghost var some :| some in codes;
    HasMinimum(codes, 0, some);
    code :| code in codes && forall d <- codes :: code <= d;
  }

  /** ORDER BY code: the active accounts, lowest code first. */
  method ActiveCodes(accounts: map<nat, Account>) returns (codes: seq<nat>)
    ensures Ascending(codes)
    ensures forall code :: code in codes <==> code in accounts && accounts[code].isActive
  {
    codes := [];
    var rest := set code | code in accounts && accounts[code].isActive;
    while rest != {}
      invariant forall i, j :: 0 <= i < j < |codes| ==> codes[i] < codes[j]
      invariant forall code :: code in codes || code in rest <==> code in accounts && accounts[code].isActive
      invariant forall i, d :: 0 <= i < |codes| && d in rest ==> codes[i] < d
      decreases |rest|
    {
      var code := LowestCode(rest);
      codes := codes + [code];
      rest := rest - {code};
    }
  }

  function RowFor(account: Account, code: nat, lines: seq<Line>): TrialRow {
    var debit, credit := AccountTotal(lines, DebitOf())(code), AccountTotal(lines, CreditOf())(code);
    TrialRow(code, account.kind, debit, credit, if DebitNormal(account.kind) then debit - credit else credit - debit)
  }

  /** The report query: active accounts in code order, each with its sums and its normal balance. */
  method GetTrialBalanceRows(s: Store, asOf: int) returns (rows: seq<TrialRow>)
    ensures RowsOf(s, asOf, rows)
  {
    rows := [];
    var lines := LinesUpTo(s.entries, asOf);
    var codes := ActiveCodes(s.accounts);
    for i := 0 to |codes|
      invariant |rows| == i && forall k :: 0 <= k < i ==> rows[k] == RowFor(s.accounts[codes[k]], codes[k], lines)
    {
      var debit, credit := AccountTotal(lines, DebitOf())(codes[i]), AccountTotal(lines, CreditOf())(codes[i]);
      var balance;
      match s.accounts[codes[i]].kind {
        case ASSET | EXPENSE => balance := debit - credit;
        case LIABILITY | EQUITY | REVENUE => balance := credit - debit;
      }
      rows := rows + [TrialRow(codes[i], s.accounts[codes[i]].kind, debit, credit, balance)];
    }
    assert Codes(rows) == codes;
  }

  lemma {:induction false} RowSumsAreCodeSums(rows: seq<TrialRow>, lines: seq<Line>)
    requires forall r <- rows :: r.debit == AccountTotal(lines, DebitOf())(r.code) && r.credit == AccountTotal(lines, CreditOf())(r.code)
    ensures Sum(rows, RowDebit()) == Sum(Codes(rows), AccountTotal(lines, DebitOf()))
    ensures Sum(rows, RowCredit()) == Sum(Codes(rows), AccountTotal(lines, CreditOf()))
  {
    if |rows| > 0 {
      RowSumsAreCodeSums(rows[..|rows| - 1], lines);
      assert Codes(rows)[..|rows| - 1] == Codes(rows[..|rows| - 1]);
    }
  }

  /** The report is out of balance by exactly what sits on switched-off accounts. */
  lemma TrialBalanceGap(s: Store, asOf: int, rows: seq<TrialRow>)
    requires Sound(s.entries) && RowsOf(s, asOf, rows)
    ensures Sum(rows, RowDebit()) - Sum(rows, RowCredit()) == -InactiveNet(s, asOf)
  {
    var lines, codes := LinesUpTo(s.entries, asOf), Codes(rows);
    LinesBalance(s.entries, asOf);
    RowSumsAreCodeSums(rows, lines);
    CountedOnce(codes, lines, DebitOf());
    CountedOnce(codes, lines, CreditOf());
    var d, c := OnSome(DebitOf(), codes), OnSome(CreditOf(), codes);
    SumMinus(lines, d, c);
    SumMinus(lines, DebitOf(), CreditOf());
    SumMinus(lines, Minus(DebitOf(), CreditOf()), Minus(d, c));
    SumCongruent(lines, Minus(Minus(DebitOf(), CreditOf()), Minus(d, c)), OffBooks(s.accounts));
  }

  /** The accounting equation over the same report: assets and expenses against liabilities, equity and revenue. */
  lemma {:induction false} SidesDifferLikeTotals(rows: seq<TrialRow>)
    requires forall r <- rows :: r.balance == if DebitNormal(r.kind) then r.debit - r.credit else r.credit - r.debit
    ensures Sum(rows, AssetSide()) - Sum(rows, ClaimSide()) == Sum(rows, RowDebit()) - Sum(rows, RowCredit())
  {
    if |rows| > 0 {
      assert rows[|rows| - 1] in rows;
      SidesDifferLikeTotals(rows[..|rows| - 1]);
    }
  }

  lemma RowTotalsNonNegative(s: Store, asOf: int, rows: seq<TrialRow>)
    requires Sound(s.entries) && RowsOf(s, asOf, rows)
    ensures forall r <- rows :: r.debit >= 0 && r.credit >= 0
  {
    LinesBalance(s.entries, asOf);
    var lines := LinesUpTo(s.entries, asOf);
    forall r | r in rows
      ensures r.debit >= 0 && r.credit >= 0
    {
      var d, c := Fix<nat, Line>(OnAccount(DebitOf()), r.code), Fix<nat, Line>(OnAccount(CreditOf()), r.code);
      assert forall l <- lines :: OneSided(l) && d(l) >= 0 && c(l) >= 0;
      SumNonNegative(lines, d);
      SumNonNegative(lines, c);
    }
  }

  /** Adds the rows up in exact money; fails exactly when a total leaves int64. */
  method AddRows(rows: seq<TrialRow>) returns (r: Result<(int64, int64), Error>)
    requires forall r <- rows :: r.debit >= 0 && r.credit >= 0
    ensures r.Ok? <==> Sum(rows, RowDebit()) <= MAX64 && Sum(rows, RowCredit()) <= MAX64
    ensures r.Ok? ==> r.value == (Sum(rows, RowDebit()), Sum(rows, RowCredit()))
  {
    var debits, credits := IDR(0), IDR(0);
    for i := 0 to |rows|
      invariant debits == IDR(debits.amount) && debits.amount == Sum(rows[..i], RowDebit()) >= 0
      invariant credits == IDR(credits.amount) && credits.amount == Sum(rows[..i], RowCredit()) >= 0
    {
      assert rows[..i + 1][..i] == rows[..i] && rows[i] in rows;
      SumPrefix(rows, i + 1, RowDebit());
      SumPrefix(rows, i + 1, RowCredit());
      var d := FromExact(rows[i].debit);
      if d.Err? { return Err(d.error); }
      var c := FromExact(rows[i].credit);
      if c.Err? { return Err(c.error); }
      var nextDebits := debits.Add(d.value);
      if nextDebits.Err? { return Err(nextDebits.error); }
      var nextCredits := credits.Add(c.value);
      if nextCredits.Err? { return Err(nextCredits.error); }
      debits, credits := nextDebits.value, nextCredits.value;
    }
    assert rows[..|rows|] == rows;
    return Ok((debits.amount, credits.amount));
  }

  /** Succeeds when the totals fit in int64, and then reports a balance exactly when switched-off accounts net
      to zero; the accounting equation holds under the same condition. */
  method GetTrialBalance(s: Store, asOfDate: Option<int>, today: int) returns (r: Result<TrialBalance, Error>)
    requires Sound(s.entries)
    ensures var asOf := if asOfDate.Some? then asOfDate.value else today;
            r.Ok? ==>
              && RowsOf(s, asOf, r.value.rows)
              && r.value.totalDebits == Sum(r.value.rows, RowDebit()) <= MAX64
              && r.value.totalCredits == Sum(r.value.rows, RowCredit()) <= MAX64
              && (r.value.isBalanced <==> InactiveNet(s, asOf) == 0)
              && (r.value.isBalanced <==> Sum(r.value.rows, AssetSide()) == Sum(r.value.rows, ClaimSide()))
    ensures var asOf := if asOfDate.Some? then asOfDate.value else today;
            r.Err? ==> exists rows :: RowsOf(s, asOf, rows) && (Sum(rows, RowDebit()) > MAX64 || Sum(rows, RowCredit()) > MAX64)
  {
    var asOf := if asOfDate.Some? then asOfDate.value else today;
    var rows := GetTrialBalanceRows(s, asOf);
    RowTotalsNonNegative(s, asOf, rows);
    var totals := AddRows(rows);
    if totals.Err? { return Err(totals.error); }
    TrialBalanceGap(s, asOf, rows);
    SidesDifferLikeTotals(rows);
    var (debits, credits) := totals.value;
    return Ok(TrialBalance(rows, debits, credits, debits == credits));
  }

  /** With every account switched on, every reachable ledger balances on every date. */
  lemma AllActiveMeansBalanced(s: Store, asOf: int)
    requires Sound(s.entries)
    requires forall e <- s.entries, l <- e.lines :: l.account in s.accounts
    requires forall code <- s.accounts :: s.accounts[code].isActive
    ensures InactiveNet(s, asOf) == 0
  {
    LinesComeFromEntries(s.entries, asOf);
    SumZero(LinesUpTo(s.entries, asOf), OffBooks(s.accounts));
  }

  lemma {:induction false} LinesComeFromEntries(entries: seq<Entry>, asOf: int)
    ensures forall l <- LinesUpTo(entries, asOf) :: exists e <- entries :: l in e.lines
  {
    if |entries| > 0 {
      LinesComeFromEntries(entries[..|entries| - 1], asOf);
      assert entries[|entries| - 1] in entries;
    }
  }
}
