/** Sales against stock and ledger, over every event: one set of movements and one entry per sale, and journals that
    add up to the daily figures. */
module SalesBooks {
  import opened Wrappers
  import opened Tables
  import opened Sums
  import opened Checkout
  import opened Voids
  import opened GoodsReceipts
  import opened Events
  import opened Integrity
  import opened Inventory
  import opened Balances
  import Ledger

  // ---------- what belongs to one document ----------

  function MovedFor(doc: DocType, id: nat, p: nat): Movement -> int {
    (m: Movement) => if m.source.doc == doc && m.source.id == id && m.product == p then m.delta else 0
  }

  function PostedFor(doc: DocType, id: nat): Entry -> int {
    (e: Entry) => if e.doc == doc && e.docId == Some(id) then 1 else 0
  }

  /** Net effect on account a of the automatic sale and void journals. */
  function SalesNet(a: nat): Entry -> int {
    (e: Entry) => if e.doc == POS_SALE || e.doc == POS_VOID then EntryNet(a)(e) else 0
  }

  /** What a sale should leave on account a: its journal while it stands, nothing once it is voided. */
  function BookedNet(a: nat): Sale -> int {
    (sale: Sale) => if sale.status == COMPLETED then EntryNet(a)(Ledger.SaleEntry(0, sale.total, Cogs(sale), sale.payment, 0)) else 0
  }

  /** Sale id has moved exactly its quantities out, and back in if voided, and posted exactly one entry for each. */
  ghost predicate SaleBooked(s: Store, id: nat)
    requires id < |s.sales|
  {
    var sale, voids := s.sales[id], if s.sales[id].status == VOIDED then 1 else 0;
    && (forall p :: Sum(s.stock.movements, MovedFor(POS_SALE, id, p)) == -Sum(sale.lines, SoldOf(p)))
    && (forall p :: Sum(s.stock.movements, MovedFor(POS_VOID, id, p)) == voids * Sum(sale.lines, SoldOf(p)))
    && Sum(s.entries, PostedFor(POS_SALE, id)) == 1 && Sum(s.entries, PostedFor(POS_VOID, id)) == voids
  }

  ghost predicate KeysUnique(s: Store) {
    forall i, j :: 0 <= i < j < |s.sales| ==> s.sales[i].key != s.sales[j].key
  }

  ghost predicate SaleEntriesKnown(s: Store) {
    forall e <- s.entries :: e.doc == POS_SALE || e.doc == POS_VOID ==> e.docId.Some? && e.docId.value < |s.sales|
  }

  ghost predicate Booked(s: Store) {
    && KeysUnique(s) && SaleEntriesKnown(s) && (forall id :: 0 <= id < |s.sales| ==> SaleBooked(s, id))
    && forall a :: Sum(s.entries, SalesNet(a)) == Sum(s.sales, BookedNet(a))
  }

  // ---------- how sums over the ledgers move with an event ----------

  /** A figure of an entry that its reversal mark does not touch and that reversals do not carry. */
  ghost predicate SourceFigure(f: Entry -> int) {
    && (forall e: Entry, status, mark :: f(e.(status := status, reversedBy := mark)) == f(e))
    && (forall e: Entry :: e.doc == REVERSAL ==> f(e) == 0)
  }

  lemma {:induction false} EntriesMove(s: Store, e: Event, f: Entry -> int)
    requires Addressed(s, e) && SourceFigure(f)
    ensures Sum(Apply(s, e).entries, f) == Sum(s.entries, f) + Sum(NewEntries(s, e), f)
  {
    if e.ReverseEntry? {
      var i, n := e.entry, |s.entries|;
      var marked := s.entries[i].(status := REVERSED, reversedBy := Some(n));
      SumUpdate(s.entries, i, marked, f);
      SumAppend(s.entries[i := marked], Ledger.Posting(REVERSAL, Some(i), e.day, Ledger.Inverted(s.entries[i].lines)), f);
    } else {
      ApplyPosts(s, e);
      SumConcat(s.entries, NewEntries(s, e), f);
    }
  }

  lemma {:induction false} MovementsMove(s: Store, e: Event, g: Movement -> int)
    requires Addressed(s, e)
    ensures Sum(Apply(s, e).stock.movements, g) == Sum(s.stock.movements, g) + Sum(NewMovements(s, e), g)
  {
    ApplyPosts(s, e);
    SumConcat(s.stock.movements, NewMovements(s, e), g);
  }

  lemma SumOfOne<T>(x: T, f: T -> int)
    ensures Sum([x], f) == f(x)
  {
    SumAppend([], x, f);
    assert [] + [x] == [x];
  }

  /** The movements an event posts for sale id. */
  lemma {:induction false} NewMovesForSale(s: Store, e: Event, doc: DocType, id: nat, p: nat)
    requires Addressed(s, e) && (doc == POS_SALE || doc == POS_VOID)
    ensures Sum(NewMovements(s, e), MovedFor(doc, id, p)) ==
            if e.Sell? && doc == POS_SALE && id == |s.sales| then -Sum(e.sale.lines, SoldOf(p))
            else if e.VoidSale? && doc == POS_VOID && id == e.sold then Sum(s.sales[id].lines, SoldOf(p))
            else 0
  {
    match e
    case Sell(_, _, _, sale, at) => SaleMoves(|s.sales|, sale.lines, POS_SALE, at, doc, id, p);
    case VoidSale(sold, at, _) => SaleMoves(sold, s.sales[sold].lines, POS_VOID, at, doc, id, p);
    case Receive(r, at, _) =>
      ReceiptSources(|s.receipts|, r.lines, at);
      SumZero(NewMovements(s, e), MovedFor(doc, id, p));
    case _ => SumZero(NewMovements(s, e), MovedFor(doc, id, p));
  }

  lemma {:induction false} SaleMoves(id: nat, lines: seq<SaleLine>, doc: DocType, at: int, forDoc: DocType, forId: nat, p: nat)
    requires doc == POS_SALE || doc == POS_VOID
    ensures Sum(SaleMovements(id, lines, doc, at), MovedFor(forDoc, forId, p)) ==
            if forDoc != doc || forId != id then 0 else if doc == POS_SALE then -Sum(lines, SoldOf(p)) else Sum(lines, SoldOf(p))
  {
    var ms := SaleMovements(id, lines, doc, at);
    if forDoc == doc && forId == id {
      SumCongruent(ms, MovedFor(forDoc, forId, p), DeltaOf(p));
      MovementsOfLines(id, lines, doc, at, p);
    } else {
      SumZero(ms, MovedFor(forDoc, forId, p));
    }
  }

  /** The entries an event posts for sale id. */
  lemma {:induction false} NewPostsForSale(s: Store, e: Event, doc: DocType, id: nat)
    requires Addressed(s, e) && (doc == POS_SALE || doc == POS_VOID)
    ensures Sum(NewEntries(s, e), PostedFor(doc, id)) ==
            if (e.Sell? && doc == POS_SALE && id == |s.sales|) || (e.VoidSale? && doc == POS_VOID && id == e.sold) then 1 else 0
  {
    var more := NewEntries(s, e);
    if |more| == 1 {
      SumOfOne(more[0], PostedFor(doc, id));
      assert more == [more[0]];
    }
  }

  /** Nothing is posted for a sale that does not exist yet, nor moved back for one that stands. */
  lemma NothingBefore(s: Store, doc: DocType, id: nat, p: nat)
    requires SourcesKnown(s) && SaleEntriesKnown(s) && (doc == POS_SALE || doc == POS_VOID) && id >= |s.sales|
    ensures Sum(s.stock.movements, MovedFor(doc, id, p)) == 0 && Sum(s.entries, PostedFor(doc, id)) == 0
  {
    SumZero(s.stock.movements, MovedFor(doc, id, p));
    SumZero(s.entries, PostedFor(doc, id));
  }

  // ---------- the invariant, step by step ----------

  lemma {:induction false} KeepsSaleBooked(s: Store, e: Event, id: nat)
    requires SourcesKnown(s) && SaleEntriesKnown(s) && (id < |s.sales| ==> SaleBooked(s, id))
    requires Enabled(s, e) && id < |Apply(s, e).sales|
    ensures SaleBooked(Apply(s, e), id)
  {
    var t := Apply(s, e);
    forall p
      ensures Sum(t.stock.movements, MovedFor(POS_SALE, id, p)) == -Sum(t.sales[id].lines, SoldOf(p))
      ensures Sum(t.stock.movements, MovedFor(POS_VOID, id, p)) == (if t.sales[id].status == VOIDED then 1 else 0) * Sum(t.sales[id].lines, SoldOf(p))
    {
      SaleStock(s, e, id, p);
    }
    SalePosts(s, e, id);
  }

  lemma {:induction false} SaleStock(s: Store, e: Event, id: nat, p: nat)
    requires SourcesKnown(s) && SaleEntriesKnown(s) && (id < |s.sales| ==> SaleBooked(s, id))
    requires Enabled(s, e) && id < |Apply(s, e).sales|
    ensures var t := Apply(s, e);
            && Sum(t.stock.movements, MovedFor(POS_SALE, id, p)) == -Sum(t.sales[id].lines, SoldOf(p))
            && Sum(t.stock.movements, MovedFor(POS_VOID, id, p)) == (if t.sales[id].status == VOIDED then 1 else 0) * Sum(t.sales[id].lines, SoldOf(p))
  {
    MovementsMove(s, e, MovedFor(POS_SALE, id, p));
    MovementsMove(s, e, MovedFor(POS_VOID, id, p));
    NewMovesForSale(s, e, POS_SALE, id, p);
    NewMovesForSale(s, e, POS_VOID, id, p);
    if id >= |s.sales| {
      NothingBefore(s, POS_SALE, id, p);
      NothingBefore(s, POS_VOID, id, p);
    }
    SalesAfter(s, e, id);
  }

  /** Where sale id stands after the event. */
  lemma {:induction false} SalesAfter(s: Store, e: Event, id: nat)
    requires Enabled(s, e) && id < |Apply(s, e).sales|
    ensures var t := Apply(s, e);
            && (id >= |s.sales| ==> e.Sell? && id == |s.sales| && t.sales[id] == e.sale && e.sale.status == COMPLETED)
            && (id < |s.sales| && e.VoidSale? && id == e.sold ==> s.sales[id].status == COMPLETED && t.sales[id] == s.sales[id].(status := VOIDED))
            && (id < |s.sales| && !(e.VoidSale? && id == e.sold) ==> t.sales[id] == s.sales[id])
  {
    ApplyFrame(s, e);
  }

  lemma {:induction false} SalePosts(s: Store, e: Event, id: nat)
    requires SourcesKnown(s) && SaleEntriesKnown(s) && (id < |s.sales| ==> SaleBooked(s, id))
    requires Enabled(s, e) && id < |Apply(s, e).sales|
    ensures var t := Apply(s, e);
            && Sum(t.entries, PostedFor(POS_SALE, id)) == 1
            && Sum(t.entries, PostedFor(POS_VOID, id)) == if t.sales[id].status == VOIDED then 1 else 0
  {
    EntriesMove(s, e, PostedFor(POS_SALE, id));
    EntriesMove(s, e, PostedFor(POS_VOID, id));
    NewPostsForSale(s, e, POS_SALE, id);
    NewPostsForSale(s, e, POS_VOID, id);
    if id >= |s.sales| {
      NothingBefore(s, POS_SALE, id, 0);
      NothingBefore(s, POS_VOID, id, 0);
    }
    SalesAfter(s, e, id);
  }

  /** A journal's effect does not depend on which sale or day it names. */
  lemma {:induction false} SaleEntryNetOnly(id: nat, total: int, cogs: int, payment: PaymentMethod, day: int, a: nat)
    ensures EntryNet(a)(Ledger.SaleEntry(id, total, cogs, payment, day)) == EntryNet(a)(Ledger.SaleEntry(0, total, cogs, payment, 0))
    ensures EntryNet(a)(Ledger.VoidEntry(id, total, cogs, payment, day)) == -EntryNet(a)(Ledger.SaleEntry(0, total, cogs, payment, 0))
  {
    VoidEntryCancels(id, total, cogs, payment, 0, day, a);
    assert Ledger.SaleEntry(id, total, cogs, payment, 0).lines == Ledger.SaleEntry(0, total, cogs, payment, 0).lines;
    assert Ledger.SaleEntry(id, total, cogs, payment, day).lines == Ledger.SaleEntry(0, total, cogs, payment, 0).lines;
  }

  lemma {:induction false} NewNet(s: Store, e: Event, a: nat)
    requires Enabled(s, e)
    ensures Sum(NewEntries(s, e), SalesNet(a)) ==
            if e.Sell? then BookedNet(a)(e.sale)
            else if e.VoidSale? then -BookedNet(a)(s.sales[e.sold])
            else 0
  {
    var more := NewEntries(s, e);
    if |more| == 1 {
      SumOfOne(more[0], SalesNet(a));
      assert more == [more[0]];
    }
    match e
    case Sell(_, _, _, sale, _) => SaleEntryNetOnly(|s.sales|, sale.total, Cogs(sale), sale.payment, sale.day, a);
    case VoidSale(id, _, day) =>
      var sale := s.sales[id];
      SaleEntryNetOnly(id, sale.total, Cogs(sale), sale.payment, day, a);
    case _ =>
  }

  lemma SalesNetIsSourceFigure(a: nat)
    ensures SourceFigure(SalesNet(a))
  {
    forall e: Entry, status, mark
      ensures SalesNet(a)(e.(status := status, reversedBy := mark)) == SalesNet(a)(e)
    {
      var marked := e.(status := status, reversedBy := mark);
      assert marked.lines == e.lines && marked.doc == e.doc;
      assert EntryNet(a)(marked) == EntryNet(a)(e);
    }
  }

  lemma {:induction false} KeepsNet(s: Store, e: Event, a: nat)
    requires Sum(s.entries, SalesNet(a)) == Sum(s.sales, BookedNet(a)) && Enabled(s, e)
    ensures Sum(Apply(s, e).entries, SalesNet(a)) == Sum(Apply(s, e).sales, BookedNet(a))
  {
    SalesNetIsSourceFigure(a);
    EntriesMove(s, e, SalesNet(a));
    NewNet(s, e, a);
    match e
    case Sell(_, _, _, sale, _) => SumAppend(s.sales, sale, BookedNet(a));
    case VoidSale(id, _, _) => SumUpdate(s.sales, id, s.sales[id].(status := VOIDED), BookedNet(a));
    case _ => ApplyFrame(s, e);
  }

  lemma {:induction false} KeepsKeysUnique(s: Store, e: Event)
    requires KeysUnique(s) && Enabled(s, e)
    ensures KeysUnique(Apply(s, e))
  {
    forall i, j | 0 <= i < j < |Apply(s, e).sales|
      ensures Apply(s, e).sales[i].key != Apply(s, e).sales[j].key
    {
      SalesAfter(s, e, i);
      SalesAfter(s, e, j);
    }
  }

  lemma {:induction false} KeepsSaleEntriesKnown(s: Store, e: Event)
    requires SaleEntriesKnown(s) && Addressed(s, e)
    ensures SaleEntriesKnown(Apply(s, e))
  {
    ApplyGrows(s, e);
    var t := Apply(s, e);
    if e.ReverseEntry? {
      forall x | x in t.entries && (x.doc == POS_SALE || x.doc == POS_VOID)
        ensures x.docId.Some? && x.docId.value < |t.sales|
      {
        var k :| 0 <= k < |t.entries| && t.entries[k] == x;
        assert s.entries[k] in s.entries;
      }
    } else {
      ApplyPosts(s, e);
      assert forall x <- NewEntries(s, e) :: x.doc == POS_SALE || x.doc == POS_VOID ==> x.docId.Some? && x.docId.value < |t.sales|;
    }
  }

  lemma {:induction false} KeepsBooked(s: Store, e: Event)
    requires Intact(s) && Booked(s) && Enabled(s, e)
    ensures Booked(Apply(s, e))
  {
    KeepsKeysUnique(s, e);
    KeepsSaleEntriesKnown(s, e);
    forall id | 0 <= id < |Apply(s, e).sales|
      ensures SaleBooked(Apply(s, e), id)
    {
      KeepsSaleBooked(s, e, id);
    }
    forall a
      ensures Sum(Apply(s, e).entries, SalesNet(a)) == Sum(Apply(s, e).sales, BookedNet(a))
    {
      KeepsNet(s, e, a);
    }
  }
}
