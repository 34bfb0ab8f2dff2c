/** Voiding a sale (backend/internal/pos/service.go, VoidTransaction). */
module Voids {
  import opened Wrappers
  import opened Int64
  import opened Tables
  import opened Database
  import opened Sums
  import opened Checkout
  import Money
  import Inventory
  import Ledger
  import Balances

  datatype VoidError = TransactionNotFound | AlreadyVoided | NotVoidable | RestockFailed | VoidJournalFailed

  /** What every committed sale looks like; proved of all reachable stores in module Runs. */
  ghost predicate SaleSound(s: Store, sale: Sale) {
    && |sale.lines| >= 1
    && (forall l <- sale.lines :: l.quantity > 0 && l.costPrice >= 0 && l.product in s.stock.onHand)
    && 0 < sale.total <= Money.MAX_TRANSACTION_AMOUNT && 0 < Cogs(sale) && sale.total + Cogs(sale) <= MAX64
    && sale.total == sale.subtotal - sale.discount && (sale.status == COMPLETED || sale.status == VOIDED)
  }

  /** The store after voiding sale id: its status, one IN movement per line, and the opposite journal. */
  function WithVoid(s: Store, id: nat, at: int, today: int): Store
    requires id < |s.sales|
  {
    var sale := s.sales[id];
    s.(sales := s.sales[id := sale.(status := VOIDED)],
       stock := Inventory.Moved(s.stock, SaleMovements(id, sale.lines, POS_VOID, at)),
       entries := s.entries + [Ledger.VoidEntry(id, sale.total, Cogs(sale), sale.payment, today)])
  }

  lemma {:induction false} LineCostsNonNegative(lines: seq<SaleLine>)
    requires forall l <- lines :: l.quantity > 0 && l.costPrice >= 0
    ensures forall l <- lines :: LineCost()(l) >= 0
  {
    forall l | l in lines
      ensures LineCost()(l) >= 0
    {
      assert l.costPrice * l.quantity >= 0;
    }
  }

  /** The cost of the lines, recomputed from what the sale recorded. It cannot leave int64 if the whole does not. */
  method RecomputeCogs(lines: seq<SaleLine>) returns (r: Result<int64, VoidError>)
    requires forall l <- lines :: l.quantity > 0 && l.costPrice >= 0
    ensures r == if Sum(lines, LineCost()) <= MAX64 then Ok(Sum(lines, LineCost())) else Err(RestockFailed)
  {
    LineCostsNonNegative(lines);
    var cogs: int64 := 0;
    for i := 0 to |lines|
      invariant cogs == Sum(lines[..i], LineCost()) >= 0
    {
      assert lines[i] in lines && lines[..i + 1][..i] == lines[..i];
      SumPrefix(lines, i + 1, LineCost());
      var next := Money.AddTimes(cogs, lines[i].costPrice, lines[i].quantity);
      if next.Err? { return Err(RestockFailed); }
      cogs := next.value;
    }
    assert lines[..|lines|] == lines;
    return Ok(cogs);
  }

  /** Voids a sale. A COMPLETED sale can always be voided while its four accounts are active; a second void is refused. */
  method VoidTransaction(db: Database, id: nat, at: int, today: int) returns (r: Option<VoidError>)
    requires forall sale <- db.store.sales :: SaleSound(db.store, sale)
    requires forall p <- db.store.stock.onHand :: db.store.stock.onHand[p] >= 0
    requires id < |db.store.sales| && db.store.sales[id].status == COMPLETED ==> NoMovementsOf(db.store.stock.movements, POS_VOID, id)
    modifies db
    ensures var s := old(db.store);
            r == if id >= |s.sales| then Some(TransactionNotFound)
                 else if s.sales[id].status == VOIDED then Some(AlreadyVoided)
                 else if !Ledger.SaleAccountsActive(s, s.sales[id].payment) then Some(VoidJournalFailed)
                 else None
    ensures r.None? <==>
              && id < |old(db.store.sales)| && old(db.store.sales)[id].status == COMPLETED
              && forall code <- [if old(db.store.sales)[id].payment == CASH then 1010 else 1020, 4010, 5010, 1030] ::
                   code in old(db.store.accounts) && old(db.store.accounts)[code].isActive
    ensures r.None? ==> db.store == WithVoid(old(db.store), id, at, today)
    ensures r.Some? ==> db.store == old(db.store)
  {
    var tx := db.Begin();
    if id >= |tx.store.sales| { return Some(TransactionNotFound); }
    var sale := tx.store.sales[id];
    assert sale in tx.store.sales;
    if sale.status == VOIDED { return Some(AlreadyVoided); }
    assert sale.status == COMPLETED; // the source's third status test guards PENDING, which no checkout writes
    var posted := PostLineMovements(tx, id, sale.lines, POS_VOID, at);
    var cogs := RecomputeCogs(sale.lines);
    assert posted.None? && cogs.Ok?; // restocking and recomputing cannot fail
    tx.store := tx.store.(sales := tx.store.sales[id := sale.(status := VOIDED)]);
    var journal := Ledger.PostPOSVoidReversalJournal(tx, id, sale.total, cogs.value, sale.payment, today);
    if journal.Some? { return Some(VoidJournalFailed); }
    db.Commit(tx);
    return None;
  }

  /** What a void leaves: the row VOIDED and otherwise as it was, an IN movement per line, every balance up by what its lines
      sold, one journal of four lines, and nothing else touched. */
  lemma {:induction false} VoidLeaves(s: Store, id: nat, at: int, today: int)
    requires id < |s.sales|
    ensures var sale, t := s.sales[id], WithVoid(s, id, at, today);
            && t.sales == s.sales[id := sale.(status := VOIDED)] && t == s.(sales := t.sales, stock := t.stock, entries := t.entries)
            && |t.stock.movements| == |s.stock.movements| + |sale.lines| && t.stock.movements[..|s.stock.movements|] == s.stock.movements
            && (forall i :: 0 <= i < |sale.lines| ==>
                  t.stock.movements[|s.stock.movements| + i] ==
                  Movement(sale.lines[i].product, sale.lines[i].quantity, IN, Source(POS_VOID, id, Some(i)), at))
            && t.stock.onHand.Keys == s.stock.onHand.Keys
    ensures forall p <- s.stock.onHand ::
              WithVoid(s, id, at, today).stock.onHand[p]
              == s.stock.onHand[p] + Sum(s.sales[id].lines, (l: SaleLine) => if l.product == p then l.quantity else 0)
    ensures var sale := s.sales[id];
            var cogs := Sum(sale.lines, (l: SaleLine) => l.costPrice * l.quantity);
            WithVoid(s, id, at, today).entries == s.entries +
            [Entry(POS_VOID, Some(id), today, POSTED, None,
                   [Line(4010, sale.total, 0), Line(if sale.payment == CASH then 1010 else 1020, 0, sale.total), Line(1030, cogs, 0), Line(5010, 0, cogs)])]
  {
    var lines := s.sales[id].lines;
    forall p | p in s.stock.onHand
      ensures WithVoid(s, id, at, today).stock.onHand[p]
              == s.stock.onHand[p] + Sum(lines, (l: SaleLine) => if l.product == p then l.quantity else 0)
    {
      MovementsOfLines(id, lines, POS_VOID, at, p);
      SumCongruent(lines, SoldOf(p), (l: SaleLine) => if l.product == p then l.quantity else 0);
    }
    SumCongruent(lines, LineCost(), (l: SaleLine) => l.costPrice * l.quantity);
  }

  // ---------- what a void undoes ----------

  /** The void's journal is the sale's journal with the sign turned, on every account. */
  lemma {:induction false} VoidEntryCancels(id: nat, total: int, cogs: int, payment: PaymentMethod, sold: int, voided: int, a: nat)
    ensures Balances.EntryNet(a)(Ledger.VoidEntry(id, total, cogs, payment, voided)) ==
            -Balances.EntryNet(a)(Ledger.SaleEntry(id, total, cogs, payment, sold))
  {
    var v, s := Ledger.VoidEntry(id, total, cogs, payment, voided).lines, Ledger.SaleEntry(id, total, cogs, payment, sold).lines;
    SumOfFour(v[0], v[1], v[2], v[3], Balances.NetOn(a));
    SumOfFour(s[0], s[1], s[2], s[3], Balances.NetOn(a));
  }

  /** The void puts back exactly what the sale took of every product. */
  lemma {:induction false} VoidRestocks(s: Store, sale: Sale, between: Store, sold: int, voided: int, today: int, p: nat)
    requires |between.sales| > |s.sales| && between.sales[|s.sales|] == sale
    requires p in s.stock.onHand && p in between.stock.onHand
    ensures WithVoid(between, |s.sales|, voided, today).stock.onHand[p] - between.stock.onHand[p]
            == s.stock.onHand[p] - WithSale(s, sale, sold).stock.onHand[p]
            == Sum(sale.lines, SoldOf(p))
  {
    MovementsOfLines(|s.sales|, sale.lines, POS_SALE, sold, p);
    MovementsOfLines(|s.sales|, sale.lines, POS_VOID, voided, p);
  }

  /** The void's journal moves every account back by what the sale's journal moved it. */
  lemma {:induction false} VoidUnpostsSale(s: Store, sale: Sale, between: Store, sold: int, voided: int, today: int, a: nat)
    requires |between.sales| > |s.sales| && between.sales[|s.sales|] == sale
    ensures Balances.Balance(WithVoid(between, |s.sales|, voided, today).entries, a) - Balances.Balance(between.entries, a)
            == Balances.Balance(s.entries, a) - Balances.Balance(WithSale(s, sale, sold).entries, a)
  {
    var id := |s.sales|;
    VoidEntryCancels(id, sale.total, Cogs(sale), sale.payment, sale.day, today, a);
    SumAppend(s.entries, Ledger.SaleEntry(id, sale.total, Cogs(sale), sale.payment, sale.day), Balances.EntryNet(a));
    SumAppend(between.entries, Ledger.VoidEntry(id, sale.total, Cogs(sale), sale.payment, today), Balances.EntryNet(a));
  }

  /** Selling and then voiding, whatever happened in between: the void takes back exactly what the sale did to every
      stock quantity and every account balance. */
  lemma {:induction false} VoidUndoesSale(s: Store, sale: Sale, between: Store, sold: int, voided: int, today: int)
    requires |between.sales| > |s.sales| && between.sales[|s.sales|] == sale
    requires s.stock.onHand.Keys <= between.stock.onHand.Keys
    ensures forall p <- s.stock.onHand ::
              WithVoid(between, |s.sales|, voided, today).stock.onHand[p] - between.stock.onHand[p]
              == s.stock.onHand[p] - WithSale(s, sale, sold).stock.onHand[p]
    ensures forall a ::
              Balances.Balance(WithVoid(between, |s.sales|, voided, today).entries, a) - Balances.Balance(between.entries, a)
              == Balances.Balance(s.entries, a) - Balances.Balance(WithSale(s, sale, sold).entries, a)
  {
    forall p | p in s.stock.onHand
      ensures WithVoid(between, |s.sales|, voided, today).stock.onHand[p] - between.stock.onHand[p]
              == s.stock.onHand[p] - WithSale(s, sale, sold).stock.onHand[p]
    {
      VoidRestocks(s, sale, between, sold, voided, today, p);
    }
    forall a
      ensures Balances.Balance(WithVoid(between, |s.sales|, voided, today).entries, a) - Balances.Balance(between.entries, a)
              == Balances.Balance(s.entries, a) - Balances.Balance(WithSale(s, sale, sold).entries, a)
    {
      VoidUnpostsSale(s, sale, between, sold, voided, today, a);
    }
  }
}
