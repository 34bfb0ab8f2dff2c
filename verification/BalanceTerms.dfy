/** The trial balance in the ledger's own rows: which entries a row counts, and what it says of the account. */
module BalanceTerms {
  import opened Wrappers
  import opened Tables
  import opened Sums
  import opened Ledger
  import opened Balances

  /** What an entry debits and credits on one account. */
  function DebitsOn(code: nat, e: Entry): int {
    Sum(e.lines, (l: Line) => if l.account == code then l.debit else 0)
  }

  function CreditsOn(code: nat, e: Entry): int {
    Sum(e.lines, (l: Line) => if l.account == code then l.credit else 0)
  }

  /** The same over all entries dated on or before a day. */
  function DebitsUpTo(entries: seq<Entry>, asOf: int, code: nat): int {
    Sum(entries, (e: Entry) => if e.date <= asOf then DebitsOn(code, e) else 0)
  }

  function CreditsUpTo(entries: seq<Entry>, asOf: int, code: nat): int {
    Sum(entries, (e: Entry) => if e.date <= asOf then CreditsOn(code, e) else 0)
  }

  function OffBooksOf(accounts: map<nat, Account>, e: Entry): int {
    Sum(e.lines, (l: Line) => if l.account in accounts && accounts[l.account].isActive then 0 else l.debit - l.credit)
  }

  lemma {:induction false} CountsUpTo(entries: seq<Entry>, asOf: int, code: nat)
    ensures AccountTotal(LinesUpTo(entries, asOf), DebitOf())(code) == DebitsUpTo(entries, asOf, code)
    ensures AccountTotal(LinesUpTo(entries, asOf), CreditOf())(code) == CreditsUpTo(entries, asOf, code)
  {
    if |entries| > 0 {
      var rest, e := entries[..|entries| - 1], entries[|entries| - 1];
      CountsUpTo(rest, asOf, code);
      var d, c := Fix<nat, Line>(OnAccount(DebitOf()), code), Fix<nat, Line>(OnAccount(CreditOf()), code);
      SumConcat(LinesUpTo(rest, asOf), if e.date <= asOf then e.lines else [], d);
      SumConcat(LinesUpTo(rest, asOf), if e.date <= asOf then e.lines else [], c);
      SumCongruent(e.lines, d, (l: Line) => if l.account == code then l.debit else 0);
      SumCongruent(e.lines, c, (l: Line) => if l.account == code then l.credit else 0);
    }
  }

  /** Each active account has one row, lowest code first, with the debits and credits of the entries dated up to and including
      the day, and its balance on the side its kind of account grows on. */
  lemma {:induction false} RowsCountUpToTheDay(s: Store, asOf: int, rows: seq<TrialRow>)
    requires RowsOf(s, asOf, rows)
    ensures forall i, j :: 0 <= i < j < |rows| ==> rows[i].code < rows[j].code
    ensures forall code <- s.accounts :: s.accounts[code].isActive <==> exists r <- rows :: r.code == code
    ensures forall r <- rows ::
              && r.code in s.accounts && s.accounts[r.code].isActive && r.kind == s.accounts[r.code].kind
              && r.debit == DebitsUpTo(s.entries, asOf, r.code) && r.credit == CreditsUpTo(s.entries, asOf, r.code)
              && (r.kind in {ASSET, EXPENSE} ==> r.balance == r.debit - r.credit)
              && (r.kind in {LIABILITY, EQUITY, REVENUE} ==> r.balance == r.credit - r.debit)
  {
    forall r | r in rows
      ensures r.code in Codes(rows)
      ensures r.debit == DebitsUpTo(s.entries, asOf, r.code) && r.credit == CreditsUpTo(s.entries, asOf, r.code)
    {
      var i :| 0 <= i < |rows| && rows[i] == r;
      assert Codes(rows)[i] == r.code;
      CountsUpTo(s.entries, asOf, r.code);
    }
    forall code | code in s.accounts && s.accounts[code].isActive
      ensures exists r <- rows :: r.code == code
    {
      assert ActiveAccount(s, code) && code in Codes(rows);
      var i :| 0 <= i < |rows| && Codes(rows)[i] == code;
      assert rows[i] in rows;
    }
    forall i, j | 0 <= i < j < |rows|
      ensures rows[i].code < rows[j].code
    {
      assert Codes(rows)[i] < Codes(rows)[j];
    }
  }

  /** One more entry moves the row of an account by its own lines there, exactly when it is dated up to and including the day. */
  lemma {:induction false} EntryMovesRows(s: Store, e: Entry, asOf: int, before: TrialRow, after: TrialRow, rows: seq<TrialRow>, next: seq<TrialRow>)
    requires RowsOf(s, asOf, rows) && RowsOf(s.(entries := s.entries + [e]), asOf, next)
    requires before in rows && after in next && before.code == after.code
    ensures after.debit == before.debit + (if e.date <= asOf then DebitsOn(before.code, e) else 0)
    ensures after.credit == before.credit + (if e.date <= asOf then CreditsOn(before.code, e) else 0)
    ensures after.kind == before.kind
  {
    RowsCountUpToTheDay(s, asOf, rows);
    RowsCountUpToTheDay(s.(entries := s.entries + [e]), asOf, next);
    SumAppend(s.entries, e, (e: Entry) => if e.date <= asOf then DebitsOn(before.code, e) else 0);
    SumAppend(s.entries, e, (e: Entry) => if e.date <= asOf then CreditsOn(before.code, e) else 0);
  }

  lemma {:induction false} NetOfEntry(e: Entry, code: nat)
    ensures EntryNet(code)(e) == DebitsOn(code, e) - CreditsOn(code, e)
  {
    var d, c := (l: Line) => if l.account == code then l.debit else 0, (l: Line) => if l.account == code then l.credit else 0;
    SumMinus(e.lines, d, c);
    SumCongruent(e.lines, NetOn(code), Minus(d, c));
  }

  /** A balance is all debits less all credits. */
  lemma {:induction false} BalanceIsDebitsLessCredits(entries: seq<Entry>, asOf: int, code: nat)
    requires forall e <- entries :: e.date <= asOf
    ensures Balance(entries, code) == DebitsUpTo(entries, asOf, code) - CreditsUpTo(entries, asOf, code)
  {
    if |entries| > 0 {
      BalanceIsDebitsLessCredits(entries[..|entries| - 1], asOf, code);
      NetOfEntry(entries[|entries| - 1], code);
    }
  }

  /** When no entry is dated later, a row's debits less credits are the account's balance, the one the reversal chains speak of. */
  lemma {:induction false} RowNetIsBalance(s: Store, asOf: int, rows: seq<TrialRow>)
    requires RowsOf(s, asOf, rows) && forall e <- s.entries :: e.date <= asOf
    ensures forall r <- rows :: r.debit - r.credit == Balance(s.entries, r.code)
  {
    RowsCountUpToTheDay(s, asOf, rows);
    forall r | r in rows
      ensures r.debit - r.credit == Balance(s.entries, r.code)
    {
      BalanceIsDebitsLessCredits(s.entries, asOf, r.code);
    }
  }

  /** What is missing from the report: the entries up to and including the day, on accounts that are not active. */
  lemma {:induction false} GapCountsUpToTheDay(s: Store, asOf: int)
    ensures InactiveNet(s, asOf) == Sum(s.entries, (e: Entry) => if e.date <= asOf then OffBooksOf(s.accounts, e) else 0)
    decreases |s.entries|
  {
    if |s.entries| > 0 {
      var n := |s.entries| - 1;
      var rest, e := s.entries[..n], s.entries[n];
      GapCountsUpToTheDay(s.(entries := rest), asOf);
      SumConcat(LinesUpTo(rest, asOf), if e.date <= asOf then e.lines else [], OffBooks(s.accounts));
      SumCongruent(e.lines, OffBooks(s.accounts),
                   (l: Line) => if l.account in s.accounts && s.accounts[l.account].isActive then 0 else l.debit - l.credit);
      SumCongruent(rest, (e: Entry) => if e.date <= asOf then OffBooksOf(s.(entries := rest).accounts, e) else 0,
                   (e: Entry) => if e.date <= asOf then OffBooksOf(s.accounts, e) else 0);
    }
  }
}
