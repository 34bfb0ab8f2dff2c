/** Double-entry journals: validation, posting and reversal (backend/internal/ledger). */
module Ledger {
  import opened Wrappers
  import opened Int64
  import opened Tables
  import opened Database
  import opened Sums
  import opened Money

  datatype LedgerError = UnbalancedEntry | ZeroAmountEntry | InsufficientLines | InvalidLineDirection | AlreadyReversed
                       | InvalidAmount | EntryNotFound | AccountNotFound | UnknownAccount | DuplicateReversal | InvalidSourceDocument

  // ---------- what makes an entry acceptable ----------

  function DebitOf(): Line -> int {
    (l: Line) => l.debit
  }

  function CreditOf(): Line -> int {
    (l: Line) => l.credit
  }

  predicate OneSided(l: Line) {
    (l.debit > 0 && l.credit == 0) || (l.credit > 0 && l.debit == 0)
  }

  predicate Acceptable(lines: seq<Line>) {
    && |lines| >= 2
    && (forall l <- lines :: OneSided(l))
    && Sum(lines, DebitOf()) == Sum(lines, CreditOf()) <= MAX64
  }

  predicate AllZero(lines: seq<Line>) {
    forall l <- lines :: l.debit == 0 && l.credit == 0
  }

  predicate SumsFit(lines: seq<Line>) {
    Sum(lines, DebitOf()) <= MAX64 && Sum(lines, CreditOf()) <= MAX64
  }

  lemma {:induction false} OneSidedSumsGrow(lines: seq<Line>, k: nat)
    requires k < |lines| && forall i :: 0 <= i <= k ==> OneSided(lines[i])
    ensures Sum(lines[..k], DebitOf()) >= 0 && Sum(lines[..k], CreditOf()) >= 0
    ensures Sum(lines[..k + 1], DebitOf()) == Sum(lines[..k], DebitOf()) + lines[k].debit
    ensures Sum(lines[..k + 1], CreditOf()) == Sum(lines[..k], CreditOf()) + lines[k].credit
  {
    assert lines[..k + 1][..k] == lines[..k];
    SumNonNegative(lines[..k], DebitOf());
    SumNonNegative(lines[..k], CreditOf());
  }

  /** Over well-formed lines a longer prefix only sums to more. */
  lemma FitsEarlier(lines: seq<Line>, k: nat)
    requires k <= |lines|
    ensures forall n :: k <= n <= |lines| && (forall i :: 0 <= i < n ==> OneSided(lines[i])) && SumsFit(lines[..n]) ==> SumsFit(lines[..k])
    ensures (forall l <- lines :: OneSided(l)) && SumsFit(lines) ==> SumsFit(lines[..k])
  {
    forall n | k <= n <= |lines| && (forall i :: 0 <= i < n ==> OneSided(lines[i])) && SumsFit(lines[..n])
      ensures SumsFit(lines[..k])
    {
      assert lines[..n][..k] == lines[..k];
      SumPrefix(lines[..n], k, DebitOf());
      SumPrefix(lines[..n], k, CreditOf());
    }
    assert lines[..|lines|] == lines;
  }

  lemma OneSidedTotalPositive(lines: seq<Line>)
    requires |lines| > 0 && forall l <- lines :: OneSided(l)
    ensures Sum(lines, DebitOf()) >= 0 && Sum(lines, CreditOf()) >= 0
    ensures Sum(lines, DebitOf()) + Sum(lines, CreditOf()) > 0
  {
    OneSidedSumsGrow(lines, |lines| - 1);
    assert lines[..|lines|] == lines;
  }

  method IsAllZero(lines: seq<Line>) returns (r: bool)
    ensures r <==> AllZero(lines)
  {
    for i := 0 to |lines|
      invariant AllZero(lines[..i])
    {
      if lines[i].debit != 0 || lines[i].credit != 0 {
        assert lines[i] in lines;
        return false;
      }
    }
    assert lines[..|lines|] == lines;
    return true;
  }

  /** Adds one side in exact money; a zero amount is skipped. */
  method AddSide(sum: Money, amount: int) returns (r: Result<Money, LedgerError>)
    requires sum == IDR(sum.amount) && sum.amount >= 0 && amount >= 0
    ensures r == if sum.amount + amount <= MAX64 then Ok(IDR(sum.amount + amount)) else Err(InvalidAmount)
  {
    if amount > 0 {
      var m := FromExact(amount);
      if m.Err? { return Err(InvalidAmount); }
      var next := sum.Add(m.value);
      if next.Err? { return Err(InvalidAmount); }
      return Ok(next.value);
    }
    return Ok(sum);
  }

  /** The first bad line, unless the totals before it already left int64. */
  ghost predicate FirstBadLine(lines: seq<Line>, k: nat) {
    k < |lines| && !OneSided(lines[k]) && (forall i :: 0 <= i < k ==> OneSided(lines[i])) && SumsFit(lines[..k])
  }

  /** The line-by-line sums, or why they cannot be taken. */
  method SumSides(lines: seq<Line>) returns (r: Result<(int64, int64), LedgerError>)
    ensures r.Ok? <==> (forall l <- lines :: OneSided(l)) && SumsFit(lines)
    ensures r.Ok? ==> r.value == (Sum(lines, DebitOf()), Sum(lines, CreditOf()))
    ensures r == Err(InvalidLineDirection) <==> exists k :: FirstBadLine(lines, k)
    ensures r.Err? ==> r.error == InvalidLineDirection || r.error == InvalidAmount
  {
    var sumDebit, sumCredit := IDR(0), IDR(0);
    for k := 0 to |lines|
      invariant forall i :: 0 <= i < k ==> OneSided(lines[i])
      invariant sumDebit == IDR(sumDebit.amount) && sumDebit.amount == Sum(lines[..k], DebitOf()) >= 0
      invariant sumCredit == IDR(sumCredit.amount) && sumCredit.amount == Sum(lines[..k], CreditOf()) >= 0
    {
      var line := lines[k];
      assert line in lines;
      if line.debit < 0 || line.credit < 0
         || (line.debit > 0 && line.credit > 0) || (line.debit == 0 && line.credit == 0) {
        assert FirstBadLine(lines, k);
        return Err(InvalidLineDirection);
      }
      OneSidedSumsGrow(lines, k);
      FitsEarlier(lines, k + 1);
      var d := AddSide(sumDebit, line.debit);
      if d.Err? { return Err(InvalidAmount); }
      var c := AddSide(sumCredit, line.credit);
      if c.Err? { return Err(InvalidAmount); }
      sumDebit, sumCredit := d.value, c.value;
    }
    assert lines[..|lines|] == lines;
    return Ok((sumDebit.amount, sumCredit.amount));
  }

  /** Accepts exactly the lines that post: at least two, each on one side, equal totals within int64. */
  method ValidateBalance(lines: seq<Line>) returns (r: Option<LedgerError>)
    ensures r.None? <==> Acceptable(lines)
    ensures r == Some(InsufficientLines) <==> |lines| < 2
    ensures r == Some(ZeroAmountEntry) <==> |lines| >= 2 && AllZero(lines)
    ensures r == Some(InvalidLineDirection) <==> |lines| >= 2 && !AllZero(lines) && exists k :: FirstBadLine(lines, k)
    ensures r == Some(UnbalancedEntry) <==>
              && |lines| >= 2 && (forall l <- lines :: OneSided(l)) && SumsFit(lines)
              && Sum(lines, DebitOf()) != Sum(lines, CreditOf())
    ensures r.Some? ==> r.value in {InsufficientLines, ZeroAmountEntry, InvalidLineDirection, UnbalancedEntry, InvalidAmount}
  {
    if |lines| < 2 {
      return Some(InsufficientLines);
    }
    var allZero := IsAllZero(lines);
    if allZero {
      assert lines[0] in lines;
      return Some(ZeroAmountEntry);
    }
    var sums := SumSides(lines);
    if sums.Err? {
      return Some(sums.error);
    }
    OneSidedTotalPositive(lines);
    var (sumDebit, sumCredit) := sums.value;
    // The source tests here a second time for a zero entry; that test can no longer fire.
    assert !(sumDebit == 0 && sumCredit == 0);
    if sumDebit != sumCredit {
      return Some(UnbalancedEntry);
    }
    return None;
  }

  // ---------- accounts and the automatic journals ----------

  const CASH_ON_HAND: nat := 1010
  const BANK: nat := 1020
  const INVENTORY: nat := 1030
  const PAYABLE: nat := 2010
  const SALES_REVENUE: nat := 4010
  const COGS: nat := 5010
  const SHRINKAGE: nat := 5020

  predicate ActiveAccount(s: Store, code: nat) {
    code in s.accounts && s.accounts[code].isActive
  }

  /** The four accounts a sale and its void post to. */
  predicate SaleAccountsActive(s: Store, payment: PaymentMethod) {
    ActiveAccount(s, AssetAccount(payment)) && ActiveAccount(s, SALES_REVENUE) && ActiveAccount(s, COGS) && ActiveAccount(s, INVENTORY)
  }

  function AssetAccount(payment: PaymentMethod): nat {
    if payment == CASH then CASH_ON_HAND else BANK
  }

  function Posting(doc: DocType, docId: Option<nat>, date: int, lines: seq<Line>): Entry {
    Entry(doc, docId, date, POSTED, None, lines)
  }

  function SaleEntry(sale: nat, total: int, cogs: int, payment: PaymentMethod, date: int): Entry {
    Posting(POS_SALE, Some(sale), date,
            [Line(AssetAccount(payment), total, 0), Line(SALES_REVENUE, 0, total), Line(COGS, cogs, 0), Line(INVENTORY, 0, cogs)])
  }

  function VoidEntry(sale: nat, total: int, cogs: int, payment: PaymentMethod, date: int): Entry {
    Posting(POS_VOID, Some(sale), date,
            [Line(SALES_REVENUE, total, 0), Line(AssetAccount(payment), 0, total), Line(INVENTORY, cogs, 0), Line(COGS, 0, cogs)])
  }

  function ReceiptEntry(receipt: nat, value: int, date: int): Entry {
    Posting(GOODS_RECEIPT, Some(receipt), date, [Line(INVENTORY, value, 0), Line(PAYABLE, 0, value)])
  }

  function AdjustmentEntry(adjustment: nat, delta: int, value: int, date: int): Entry {
    Posting(MANUAL_ADJUSTMENT, Some(adjustment), date,
            if delta < 0 then [Line(SHRINKAGE, value, 0), Line(INVENTORY, 0, value)]
            else [Line(INVENTORY, value, 0), Line(SHRINKAGE, 0, value)])
  }

  lemma TwoLinesAcceptable(a: Line, b: Line)
    requires a.credit == 0 && b.debit == 0 && a.debit == b.credit
    ensures Acceptable([a, b]) <==> 0 < a.debit <= MAX64
  {
    SumOfTwo(a, b, DebitOf());
    SumOfTwo(a, b, CreditOf());
    assert a in [a, b];
    assert forall l <- [a, b] :: l == a || l == b;
  }

  lemma FourLinesAcceptable(a: Line, b: Line, c: Line, d: Line)
    requires a.credit == b.debit == c.credit == d.debit == 0 && a.debit == b.credit && c.debit == d.credit
    ensures Acceptable([a, b, c, d]) <==> 0 < a.debit && 0 < c.debit && a.debit + c.debit <= MAX64
  {
    SumOfFour(a, b, c, d, DebitOf());
    SumOfFour(a, b, c, d, CreditOf());
    assert a in [a, b, c, d] && c in [a, b, c, d];
    assert forall l <- [a, b, c, d] :: l == a || l == b || l == c || l == d;
  }

  predicate ReversalRecorded(entries: seq<Entry>, docId: Option<nat>) {
    exists i :: 0 <= i < |entries| && entries[i].doc == REVERSAL && entries[i].docId == docId
  }

  /** Inserts an entry with its lines; foreign keys and the one-reversal-per-entry index can refuse it. */
  method CreateEntryWithLines(tx: Tx, e: Entry) returns (r: Option<LedgerError>)
    modifies tx
    ensures r.None? <==> (forall l <- e.lines :: l.account in old(tx.store.accounts))
                         && !(e.doc == REVERSAL && ReversalRecorded(old(tx.store.entries), e.docId))
    ensures r.None? ==> tx.store == old(tx.store).(entries := old(tx.store.entries) + [e])
    ensures r.Some? ==> r.value in {UnknownAccount, DuplicateReversal} && tx.store == old(tx.store)
  {
    if exists l <- e.lines :: l.account !in tx.store.accounts {
      return Some(UnknownAccount);
    }
    if e.doc == REVERSAL && ReversalRecorded(tx.store.entries, e.docId) {
      return Some(DuplicateReversal);
    }
    tx.store := tx.store.(entries := tx.store.entries + [e]);
    return None;
  }

  method PostPOSSaleJournal(tx: Tx, sale: nat, total: int64, cogs: int64, payment: PaymentMethod, today: int)
    returns (r: Option<LedgerError>)
    modifies tx
    ensures r.None? <==> SaleAccountsActive(old(tx.store), payment) && 0 < total && 0 < cogs && total + cogs <= MAX64
    ensures r.None? ==> tx.store == old(tx.store).(entries := old(tx.store.entries) + [SaleEntry(sale, total, cogs, payment, today)])
    ensures r.Some? ==> tx.store == old(tx.store)
  {
    var asset := AssetAccount(payment);
    if !ActiveAccount(tx.store, asset) { return Some(AccountNotFound); }
    if !ActiveAccount(tx.store, SALES_REVENUE) { return Some(AccountNotFound); }
    if !ActiveAccount(tx.store, COGS) { return Some(AccountNotFound); }
    if !ActiveAccount(tx.store, INVENTORY) { return Some(AccountNotFound); }
    var lines := [Line(asset, total, 0), Line(SALES_REVENUE, 0, total), Line(COGS, cogs, 0), Line(INVENTORY, 0, cogs)];
    FourLinesAcceptable(lines[0], lines[1], lines[2], lines[3]);
    var invalid := ValidateBalance(lines);
    if invalid.Some? { return invalid; }
    r := CreateEntryWithLines(tx, Posting(POS_SALE, Some(sale), today, lines));
  }

  method PostPOSVoidReversalJournal(tx: Tx, sale: nat, total: int64, cogs: int64, payment: PaymentMethod, today: int)
    returns (r: Option<LedgerError>)
    modifies tx
    ensures r.None? <==> SaleAccountsActive(old(tx.store), payment) && 0 < total && 0 < cogs && total + cogs <= MAX64
    ensures r.None? ==> tx.store == old(tx.store).(entries := old(tx.store.entries) + [VoidEntry(sale, total, cogs, payment, today)])
    ensures r.Some? ==> tx.store == old(tx.store)
  {
    var asset := AssetAccount(payment);
    if !ActiveAccount(tx.store, asset) { return Some(AccountNotFound); }
    if !ActiveAccount(tx.store, SALES_REVENUE) { return Some(AccountNotFound); }
    if !ActiveAccount(tx.store, COGS) { return Some(AccountNotFound); }
    if !ActiveAccount(tx.store, INVENTORY) { return Some(AccountNotFound); }
    var lines := [Line(SALES_REVENUE, total, 0), Line(asset, 0, total), Line(INVENTORY, cogs, 0), Line(COGS, 0, cogs)];
    FourLinesAcceptable(lines[0], lines[1], lines[2], lines[3]);
    var invalid := ValidateBalance(lines);
    if invalid.Some? { return invalid; }
    r := CreateEntryWithLines(tx, Posting(POS_VOID, Some(sale), today, lines));
  }

  method PostGoodsReceiptJournal(tx: Tx, receipt: nat, value: int64, today: int) returns (r: Option<LedgerError>)
    modifies tx
    ensures r.None? <==> ActiveAccount(old(tx.store), INVENTORY) && ActiveAccount(old(tx.store), PAYABLE) && 0 < value
    ensures r.None? ==> tx.store == old(tx.store).(entries := old(tx.store.entries) + [ReceiptEntry(receipt, value, today)])
    ensures r.Some? ==> tx.store == old(tx.store)
  {
    if !ActiveAccount(tx.store, INVENTORY) { return Some(AccountNotFound); }
    if !ActiveAccount(tx.store, PAYABLE) { return Some(AccountNotFound); }
    var lines := [Line(INVENTORY, value, 0), Line(PAYABLE, 0, value)];
    TwoLinesAcceptable(lines[0], lines[1]);
    var invalid := ValidateBalance(lines);
    if invalid.Some? { return invalid; }
    r := CreateEntryWithLines(tx, Posting(GOODS_RECEIPT, Some(receipt), today, lines));
  }

  /** What a stock difference is worth at unit cost. */
  function Worth(delta: int, unitCost: int64): int {
    unitCost * (if delta < 0 then -delta else delta)
  }

  method ValueAdjustment(delta: int, unitCost: int64) returns (r: Result<int64, LedgerError>)
    requires -MAX64 <= delta <= MAX64 && unitCost >= 0
    ensures r == if Worth(delta, unitCost) <= MAX64 then Ok(Worth(delta, unitCost)) else Err(InvalidAmount)
    ensures Worth(delta, unitCost) >= 0
  {
    var magnitude := if delta < 0 then -delta else delta;
    assert unitCost * magnitude >= 0;
    var worth := TimesExact(unitCost, magnitude);
    if worth.Err? { return Err(InvalidAmount); }
    return Ok(worth.value.amount);
  }

  /** Values a stock difference at unit cost and posts it, unless it is worth nothing. Yields the new entry. */
  method PostInventoryAdjustmentJournal(tx: Tx, adjustment: nat, delta: int, unitCost: int64, today: int)
    returns (r: Result<Option<nat>, LedgerError>)
    requires -MAX64 <= delta <= MAX64 && unitCost >= 0
    modifies tx
    ensures r == Err(InvalidAmount) <==> Worth(delta, unitCost) > MAX64
    ensures r.Ok? <==> && Worth(delta, unitCost) <= MAX64
                       && (Worth(delta, unitCost) == 0 || (ActiveAccount(old(tx.store), INVENTORY) && ActiveAccount(old(tx.store), SHRINKAGE)))
    ensures r.Ok? && Worth(delta, unitCost) == 0 ==> r.value == None && tx.store == old(tx.store)
    ensures r.Ok? && Worth(delta, unitCost) != 0 ==>
              && r.value == Some(|old(tx.store.entries)|)
              && tx.store == old(tx.store).(entries :=
                                old(tx.store.entries) + [AdjustmentEntry(adjustment, delta, Worth(delta, unitCost), today)])
    ensures r.Err? ==> tx.store == old(tx.store)
  {
    var worth := ValueAdjustment(delta, unitCost);
    if worth.Err? { return Err(worth.error); }
    var value := worth.value;
    if value == 0 { return Ok(None); }
    if !ActiveAccount(tx.store, INVENTORY) { return Err(AccountNotFound); }
    if !ActiveAccount(tx.store, SHRINKAGE) { return Err(AccountNotFound); }
    var lines := if delta < 0 then [Line(SHRINKAGE, value, 0), Line(INVENTORY, 0, value)]
                 else [Line(INVENTORY, value, 0), Line(SHRINKAGE, 0, value)];
    TwoLinesAcceptable(lines[0], lines[1]);
    var invalid := ValidateBalance(lines);
    var created := CreateEntryWithLines(tx, Posting(MANUAL_ADJUSTMENT, Some(adjustment), today, lines));
    assert invalid.None? && created.None?; // the source's two error returns here are never taken
    return Ok(Some(|tx.store.entries| - 1));
  }

  // ---------- manual entries and reversals ----------

  /** The endpoint lets only MANUAL_ADJUSTMENT through; the service then validates and posts. */
  method CreateManualEntry(db: Database, doc: DocType, docId: Option<nat>, lines: seq<Line>, today: int) returns (r: Option<LedgerError>)
    modifies db
    ensures r.None? <==> doc == MANUAL_ADJUSTMENT && Acceptable(lines) && forall l <- lines :: l.account in old(db.store.accounts)
    ensures r.None? ==> db.store == old(db.store).(entries := old(db.store.entries) + [Posting(doc, docId, today, lines)])
    ensures r.Some? ==> db.store == old(db.store)
    ensures r == Some(InvalidSourceDocument) <==> doc != MANUAL_ADJUSTMENT
    ensures r.None? ==> db.store == old(db.store).(entries :=
                          old(db.store.entries) + [Entry(MANUAL_ADJUSTMENT, docId, today, POSTED, None, lines)])
  {
    if doc != MANUAL_ADJUSTMENT {
      return Some(InvalidSourceDocument);
    }
    var tx := db.Begin();
    r := ValidateBalance(lines);
    if r.Some? { return; }
    r := CreateEntryWithLines(tx, Posting(doc, docId, today, lines));
    if r.Some? { return; }
    db.Commit(tx);
  }

  function Inverted(lines: seq<Line>): (r: seq<Line>)
    ensures |r| == |lines| && forall i :: 0 <= i < |r| ==> r[i] == Line(lines[i].account, lines[i].credit, lines[i].debit)
  {
    seq(|lines|, i requires 0 <= i < |lines| => Line(lines[i].account, lines[i].credit, lines[i].debit))
  }

  /** The ledger after reversing entry i: a mirrored entry at the end, and i pointing to it. */
  function WithReversal(entries: seq<Entry>, i: nat, date: int): seq<Entry>
    requires i < |entries|
  {
    entries[i := entries[i].(status := REVERSED, reversedBy := Some(|entries|))]
    + [Posting(REVERSAL, Some(i), date, Inverted(entries[i].lines))]
  }

  lemma {:induction false} InvertedSums(lines: seq<Line>)
    ensures Sum(Inverted(lines), DebitOf()) == Sum(lines, CreditOf())
    ensures Sum(Inverted(lines), CreditOf()) == Sum(lines, DebitOf())
  {
    if |lines| > 0 {
      InvertedSums(lines[..|lines| - 1]);
      assert Inverted(lines)[..|lines| - 1] == Inverted(lines[..|lines| - 1]);
    }
  }

  lemma InvertedAcceptable(lines: seq<Line>)
    requires Acceptable(lines)
    ensures Acceptable(Inverted(lines))
  {
    InvertedSums(lines);
    forall l | l in Inverted(lines)
      ensures OneSided(l)
    {
      var i :| 0 <= i < |lines| && Inverted(lines)[i] == l;
      assert lines[i] in lines;
    }
  }

  /** What every reachable ledger satisfies: acceptable entries, each reversed at most once, by its own mirror image. */
  ghost predicate Sound(entries: seq<Entry>) {
    && (forall i :: 0 <= i < |entries| ==> Acceptable(entries[i].lines))
    && (forall i :: 0 <= i < |entries| ==> LinkSound(entries, i))
    && (forall j :: 0 <= j < |entries| && entries[j].doc == REVERSAL ==> RevertsSome(entries, j))
  }

  ghost predicate LinkSound(entries: seq<Entry>, i: nat)
    requires i < |entries|
  {
    match entries[i].reversedBy
    case None => entries[i].status == POSTED
    case Some(j) =>
      && entries[i].status == REVERSED && i < j < |entries|
      && entries[j].doc == REVERSAL && entries[j].docId == Some(i) && entries[j].lines == Inverted(entries[i].lines)
  }

  ghost predicate RevertsSome(entries: seq<Entry>, j: nat)
    requires j < |entries|
  {
    entries[j].docId.Some? && entries[j].docId.value < j && entries[entries[j].docId.value].reversedBy == Some(j)
  }

  lemma PostingKeepsSound(entries: seq<Entry>, e: Entry)
    requires Sound(entries) && Acceptable(e.lines)
    requires e.status == POSTED && e.reversedBy == None && e.doc != REVERSAL
    ensures Sound(entries + [e])
  {
    var after := entries + [e];
    forall i | 0 <= i < |after|
      ensures LinkSound(after, i)
    {
      if i < |entries| { assert LinkSound(entries, i); }
    }
    forall j | 0 <= j < |after| && after[j].doc == REVERSAL
      ensures RevertsSome(after, j)
    {
      assert RevertsSome(entries, j);
    }
  }

  lemma ReversingKeepsSound(entries: seq<Entry>, i: nat, date: int)
    requires Sound(entries) && i < |entries| && entries[i].status == POSTED
    ensures Sound(WithReversal(entries, i, date))
  {
    var after := WithReversal(entries, i, date);
    InvertedAcceptable(entries[i].lines);
    assert LinkSound(entries, i);
    forall k | 0 <= k < |after|
      ensures LinkSound(after, k)
    {
      if k < |entries| { assert LinkSound(entries, k); }
    }
    forall j | 0 <= j < |after| && after[j].doc == REVERSAL
      ensures RevertsSome(after, j)
    {
      if j < |entries| { assert RevertsSome(entries, j); }
    }
  }

  method InvertLines(lines: seq<Line>) returns (r: seq<Line>)
    ensures r == Inverted(lines)
  {
    r := [];
    for i := 0 to |lines|
      invariant r == Inverted(lines)[..i]
    {
      r := r + [Line(lines[i].account, lines[i].credit, lines[i].debit)];
    }
  }

  /** In a sound ledger a reversal succeeds exactly on an existing entry that is still POSTED. */
  method ReverseManualEntry(db: Database, id: nat, today: int) returns (r: Result<nat, LedgerError>)
    requires Sound(db.store.entries)
    requires forall e <- db.store.entries, l <- e.lines :: l.account in db.store.accounts
    modifies db
    ensures var entries := old(db.store.entries);
            && (r.Ok? <==> id < |entries| && entries[id].status == POSTED)
            && (r == Err(EntryNotFound) <==> id >= |entries|)
            && (r == Err(AlreadyReversed) <==> id < |entries| && entries[id].status == REVERSED)
            && (r.Ok? ==> r.value == |entries| && db.store == old(db.store).(entries := WithReversal(entries, id, today)))
    ensures r.Err? ==> db.store == old(db.store)
  {
    var tx := db.Begin();
    if id >= |tx.store.entries| {
      return Err(EntryNotFound);
    }
    var original := tx.store.entries[id];
    assert LinkSound(tx.store.entries, id);
    if original.status == REVERSED {
      return Err(AlreadyReversed);
    }
    var lines := InvertLines(original.lines);
    InvertedAcceptable(original.lines);
    var invalid := ValidateBalance(lines);
    var newId := |tx.store.entries|;
    forall l | l in lines
      ensures l.account in tx.store.accounts
    {
      var k :| 0 <= k < |lines| && lines[k] == l;
      assert original.lines[k] in original.lines && original in tx.store.entries;
    }
    assert forall j :: 0 <= j < newId && tx.store.entries[j].doc == REVERSAL ==> RevertsSome(tx.store.entries, j);
    var created := CreateEntryWithLines(tx, Posting(REVERSAL, Some(id), today, lines));
    var marked := MarkEntryReversed(tx, id, newId);
    assert invalid.None? && created.None? && marked.None?; // the source's error returns here are never taken
    db.Commit(tx);
    return Ok(newId);
  }

  /** The guarded update: only a POSTED row changes. */
  method MarkEntryReversed(tx: Tx, original: nat, reversal: nat) returns (r: Option<LedgerError>)
    modifies tx
    ensures var entries := old(tx.store.entries);
            && (r.None? <==> original < |entries| && entries[original].status == POSTED)
            && (r.None? ==> tx.store == old(tx.store).(entries :=
                              entries[original := entries[original].(status := REVERSED, reversedBy := Some(reversal))]))
    ensures r.Some? ==> r == Some(AlreadyReversed) && tx.store == old(tx.store)
  {
    var entries := tx.store.entries;
    if original >= |entries| || entries[original].status != POSTED {
      return Some(AlreadyReversed);
    }
    tx.store := tx.store.(entries := entries[original := entries[original].(status := REVERSED, reversedBy := Some(reversal))]);
    return None;
  }

  // ---------- the answers in plain figures ----------

  /** Lines that post: at least two, every one a positive debit or a positive credit but not both, the debits and the credits
      adding up to the same figure within int64. */
  lemma {:induction false} AcceptableExactlyWhen(lines: seq<Line>)
    ensures Acceptable(lines) <==>
              && |lines| > 1
              && (forall l <- lines :: l.debit >= 0 && l.credit >= 0 && (l.debit == 0 <==> l.credit != 0))
              && Sum(lines, (l: Line) => l.debit) == Sum(lines, (l: Line) => l.credit)
              && Sum(lines, (l: Line) => l.debit) <= 9_223_372_036_854_775_807
  {
    SumCongruent(lines, DebitOf(), (l: Line) => l.debit);
    SumCongruent(lines, CreditOf(), (l: Line) => l.credit);
  }

  /** A reversal leaves the original marked and pointing at the last entry, which carries each line with its sides exchanged. */
  lemma {:induction false} ReversalLeaves(entries: seq<Entry>, i: nat, date: int)
    requires i < |entries|
    ensures var n, t, was := |entries|, WithReversal(entries, i, date), entries[i];
            && |t| == n + 1 && (forall k :: 0 <= k < n && k != i ==> t[k] == entries[k])
            && t[i] == Entry(was.doc, was.docId, was.date, REVERSED, Some(n), was.lines)
            && (t[n].doc, t[n].docId, t[n].date, t[n].status, t[n].reversedBy) == (REVERSAL, Some(i), date, POSTED, None)
            && |t[n].lines| == |was.lines|
            && forall k :: 0 <= k < |was.lines| ==>
                 && t[n].lines[k].account == was.lines[k].account
                 && t[n].lines[k].debit == was.lines[k].credit && t[n].lines[k].credit == was.lines[k].debit
  {
  }
}
