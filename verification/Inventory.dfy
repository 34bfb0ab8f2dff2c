/** The append-only stock ledger and the balances it explains (backend/internal/inventory/repository.go). */
module Inventory {
  import opened Wrappers
  import opened Tables
  import opened Database
  import opened Sums

  datatype Error = InsufficientStock | InvalidMovementType | InvalidQuantityDelta | ProductNotFound | DuplicateMovementSource

  // ---------- what the movement rows mean ----------

  function DeltaOf(p: nat): Movement -> int {
    (m: Movement) => if m.product == p then m.delta else 0
  }

  /** The sign each movement type allows. */
  predicate SignMatchesType(m: Movement) {
    match m.kind
    case OPENING => m.delta >= 0
    case IN => m.delta > 0
    case OUT => m.delta < 0
    case ADJUSTMENT => m.delta != 0
    case UNKNOWN_TYPE => false
  }

  predicate SourceUnused(ms: seq<Movement>, source: Source) {
    forall i :: 0 <= i < |ms| ==> ms[i].source != source
  }

  ghost predicate SourcesDistinct(ms: seq<Movement>) {
    forall i, j :: 0 <= i < j < |ms| ==> ms[i].source != ms[j].source
  }

  /** Every balance is explained by its movements, is not negative, and every movement is well signed and unique. */
  ghost predicate Reconciled(s: Stock) {
    && (forall p <- s.onHand :: s.onHand[p] == Sum(s.movements, DeltaOf(p)) && s.onHand[p] >= 0)
    && (forall m <- s.movements :: SignMatchesType(m) && m.product in s.onHand)
    && SourcesDistinct(s.movements)
  }

  /** The stock after posting ms. */
  function Moved(s: Stock, ms: seq<Movement>): Stock {
    Stock(map p | p in s.onHand :: s.onHand[p] + Sum(ms, DeltaOf(p)), s.movements + ms)
  }

  /** What the database accepts of a batch: known products, right signs, unused sources, no balance below zero. */
  ghost predicate Postable(s: Stock, ms: seq<Movement>) {
    && (forall m <- ms :: SignMatchesType(m) && m.product in s.onHand)
    && (forall p <- s.onHand :: s.onHand[p] + Sum(ms, DeltaOf(p)) >= 0)
    && SourcesDistinct(s.movements + ms)
  }

  lemma MovedNothing(s: Stock)
    ensures Moved(s, []) == s
  {
    assert Moved(s, []).onHand == s.onHand;
  }

  lemma MovedTwice(s: Stock, a: seq<Movement>, b: seq<Movement>)
    ensures Moved(Moved(s, a), b) == Moved(s, a + b)
  {
    forall p | p in s.onHand
      ensures Moved(Moved(s, a), b).onHand[p] == Moved(s, a + b).onHand[p]
    {
      SumConcat(a, b, DeltaOf(p));
    }
    assert Moved(Moved(s, a), b).onHand == Moved(s, a + b).onHand;
    assert s.movements + a + b == s.movements + (a + b);
  }

  /** Posting keeps every balance equal to the sum of its movements. */
  lemma PostingKeepsReconciled(s: Stock, ms: seq<Movement>)
    requires Reconciled(s) && Postable(s, ms)
    ensures Reconciled(Moved(s, ms))
  {
    var t := Moved(s, ms);
    forall p | p in t.onHand
      ensures t.onHand[p] == Sum(t.movements, DeltaOf(p))
    {
      SumConcat(s.movements, ms, DeltaOf(p));
    }
  }

  // ---------- posting one movement ----------

  /** Locks the balance row and reads it. */
  method LockInventoryForUpdate(tx: Tx, p: nat) returns (r: Result<int, Error>)
    ensures r == if p in tx.store.stock.onHand then Ok(tx.store.stock.onHand[p]) else Err(ProductNotFound)
  {
    if p !in tx.store.stock.onHand {
      return Err(ProductNotFound);
    }
    return Ok(tx.store.stock.onHand[p]);
  }

  method ValidateMovementParams(m: Movement) returns (r: Option<Error>)
    ensures r.None? <==> SignMatchesType(m)
    ensures r == Some(InvalidMovementType) <==> m.kind == UNKNOWN_TYPE
    ensures r.Some? ==> r.value in {InvalidMovementType, InvalidQuantityDelta}
    ensures r == Some(InvalidQuantityDelta) <==>
              || (m.kind == OPENING && m.delta < 0) || (m.kind == IN && m.delta < 1) || (m.kind == OUT && m.delta > -1)
              || (m.kind == ADJUSTMENT && m.delta == 0)
  {
    match m.kind {
      case OPENING => if m.delta < 0 { return Some(InvalidQuantityDelta); }
      case IN => if m.delta <= 0 { return Some(InvalidQuantityDelta); }
      case OUT => if m.delta >= 0 { return Some(InvalidQuantityDelta); }
      case ADJUSTMENT => if m.delta == 0 { return Some(InvalidQuantityDelta); }
      case UNKNOWN_TYPE => return Some(InvalidMovementType);
    }
    return None;
  }

  /** Posts one movement and its balance change together, or reports why not and changes nothing. */
  method PostMovementTx(tx: Tx, m: Movement) returns (r: Option<Error>)
    modifies tx
    ensures r.None? ==> tx.store == old(tx.store).(stock := Moved(old(tx.store.stock), [m]))
    ensures var onHand := old(tx.store.stock.onHand); r.None? ==> m.product in onHand && tx.store.stock.onHand == onHand[m.product := onHand[m.product] + m.delta]
    ensures r.Some? ==> tx.store == old(tx.store)
    ensures var s := old(tx.store.stock);
            && (r.None? <==> SignMatchesType(m) && m.product in s.onHand && s.onHand[m.product] + m.delta >= 0
                             && SourceUnused(s.movements, m.source))
            && (r == Some(ProductNotFound) <==> SignMatchesType(m) && m.product !in s.onHand)
            && (r == Some(InsufficientStock) <==> SignMatchesType(m) && m.product in s.onHand && s.onHand[m.product] + m.delta < 0)
            && (r == Some(DuplicateMovementSource) <==> SignMatchesType(m) && m.product in s.onHand
                                                        && s.onHand[m.product] + m.delta >= 0 && !SourceUnused(s.movements, m.source))
            && (r == Some(InvalidMovementType) <==> m.kind == UNKNOWN_TYPE)
  {
    var invalid := ValidateMovementParams(m);
    if invalid.Some? {
      return invalid;
    }
    var locked := LockInventoryForUpdate(tx, m.product);
    if locked.Err? {
      return Some(locked.error);
    }
    var quantity := locked.value + m.delta;
    if quantity < 0 {
      return Some(InsufficientStock);
    }
    var stock := tx.store.stock;
    if !SourceUnused(stock.movements, m.source) {
      return Some(DuplicateMovementSource);
    }
    tx.store := tx.store.(stock := Stock(stock.onHand[m.product := quantity], stock.movements + [m]));
    forall p | p in stock.onHand
      ensures Moved(stock, [m]).onHand[p] == stock.onHand[m.product := quantity][p]
    {
      SumAppend([], m, DeltaOf(p));
      assert [] + [m] == [m];
    }
    assert Moved(stock, [m]).onHand == stock.onHand[m.product := quantity];
    return None;
  }

  // ---------- the reconciliation query ----------

  function OpeningOf(p: nat): Movement -> int {
    (m: Movement) => if m.product == p && m.kind == OPENING then m.delta else 0
  }

  function SubsequentOf(p: nat): Movement -> int {
    (m: Movement) => if m.product == p && m.kind != OPENING then m.delta else 0
  }

  lemma {:induction false} OpeningPlusSubsequent(ms: seq<Movement>, p: nat)
    ensures Sum(ms, OpeningOf(p)) + Sum(ms, SubsequentOf(p)) == Sum(ms, DeltaOf(p))
  {
    if |ms| > 0 {
      OpeningPlusSubsequent(ms[..|ms| - 1], p);
    }
  }

  datatype Balance = Balance(onHand: int, opening: int, subsequent: int)

  /** The two conditional sums and the stored balance of one product. */
  function GetReconciledBalance(s: Stock, p: nat): Result<Balance, Error> {
    if p !in s.onHand then Err(ProductNotFound)
    else Ok(Balance(s.onHand[p], Sum(s.movements, OpeningOf(p)), Sum(s.movements, SubsequentOf(p))))
  }

  /** The acceptance invariant of the stock ledger: opening plus subsequent movements is the quantity on hand. */
  lemma ReconciledBalanceAddsUp(s: Stock, p: nat)
    requires Reconciled(s) && p in s.onHand
    ensures GetReconciledBalance(s, p).Ok?
    ensures var b := GetReconciledBalance(s, p).value; b.opening + b.subsequent == b.onHand == s.onHand[p] >= 0
  {
    OpeningPlusSubsequent(s.movements, p);
  }

  /** One more movement of the product moves the stored balance by its delta, and of the two sums the opening one if it is an
      OPENING movement and the other one if it is not. */
  lemma {:induction false} ReconciledBalanceMoves(s: Stock, m: Movement, p: nat)
    requires p in s.onHand
    ensures GetReconciledBalance(s, p).Ok? && GetReconciledBalance(Moved(s, [m]), p).Ok?
    ensures var was, now := GetReconciledBalance(s, p).value, GetReconciledBalance(Moved(s, [m]), p).value;
            && now.onHand == was.onHand + (if m.product == p then m.delta else 0)
            && now.opening == was.opening + (if m.product == p && m.kind == OPENING then m.delta else 0)
            && now.subsequent == was.subsequent + (if m.product == p && m.kind != OPENING then m.delta else 0)
  {
    SumAppend(s.movements, m, OpeningOf(p));
    SumAppend(s.movements, m, SubsequentOf(p));
    SumAppend([], m, DeltaOf(p));
    assert [] + [m] == [m];
  }
}
