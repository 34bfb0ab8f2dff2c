/** Exact Rupiah amounts on 64-bit integers (backend/pkg/money/money.go). */
module Money {
  import opened Wrappers
  import opened Int64
  import opened Sums

  const MAX_TRANSACTION_AMOUNT: int64 := 1_000_000_000
  const MAX_TENDER_AMOUNT: int64 := 2_000_000_000
  const MAX_LINE_ITEM_QUANTITY: int64 := 99_999

  const IDR_CODE: string := "IDR"

  datatype Error = CurrencyMismatch | DivisionByZero | Overflow | ExceedsMaxCap | NegativeAmount

  datatype Money = Money(amount: int64, code: string) {

    /** A zero-value Money has no currency and counts as Rupiah. */
    function Currency(): string {
      if code == "" then IDR_CODE else code
    }

    function Add(other: Money): (r: Result<Money, Error>)
      ensures Currency() != other.Currency() ==> r == Err(CurrencyMismatch)
      ensures Currency() == other.Currency() ==>
                r == if InRange(amount + other.amount) then Ok(Money(amount + other.amount, Currency())) else Err(Overflow)
    {
      if Currency() != other.Currency() then Err(CurrencyMismatch)
      else if (other.amount > 0 && amount > Wrap(MAX64 - other.amount)) ||
              (other.amount < 0 && amount < Wrap(MIN64 - other.amount)) then Err(Overflow)
      else Ok(Money(Wrap(amount + other.amount), Currency()))
    }

    function Sub(other: Money): (r: Result<Money, Error>)
      ensures Currency() != other.Currency() ==> r == Err(CurrencyMismatch)
      ensures Currency() == other.Currency() ==>
                r == if InRange(amount - other.amount) then Ok(Money(amount - other.amount, Currency())) else Err(Overflow)
    {
      if Currency() != other.Currency() then Err(CurrencyMismatch)
      else if (other.amount < 0 && amount > Wrap(MAX64 + other.amount)) ||
              (other.amount > 0 && amount < Wrap(MIN64 + other.amount)) then Err(Overflow)
      else Ok(Money(Wrap(amount - other.amount), Currency()))
    }

    /** Multiply with wrap-around, then divide back to notice an overflow. */
    function Mul(k: int64): Result<Money, Error> {
      if amount == 0 || k == 0 then Ok(Money(0, Currency()))
      else
        var product := Wrap(amount * k);
        if Quot(product, k) != amount then Err(Overflow) else Ok(Money(product, Currency()))
    }
  }

  /** Constructor for whole Rupiah. */
  function IDR(amount: int64): Money {
    Money(amount, IDR_CODE)
  }

  /** FromExactFloat on a whole number: only the int64 range can fail. */
  function FromExact(v: int): (r: Result<Money, Error>)
    ensures r.Ok? <==> InRange(v)
    ensures r.Ok? ==> r.value == IDR(v)
  {
    if InRange(v) then Ok(IDR(v)) else Err(Overflow)
  }

  /** A non-negative amount within the cap; a cap of zero or less means no cap. */
  function ValidateIDR(v: int, maxCap: int64): (r: Result<Money, Error>)
    ensures r.Ok? <==> 0 <= v <= (if maxCap > 0 then maxCap else MAX64)
    ensures r.Ok? ==> r.value == IDR(v)
  {
    if v < 0 then Err(NegativeAmount)
    else if !InRange(v) then Err(Overflow)
    else if maxCap > 0 && v > maxCap then Err(ExceedsMaxCap)
    else Ok(IDR(v))
  }

  // ---------- multiplication: the wrap-then-divide test is exact but for one pair ----------

  lemma NonzeroFactorGrows(d: int, k: int)
    requires d != 0
    ensures d * k >= k || d * k <= -k
    ensures d * k <= k || d * k >= -k
    ensures k > 0 ==> d * k >= k || d * k <= -k
    ensures k < 0 ==> d * k <= k || d * k >= -k
  {
    if d > 0 {
      if k > 0 { LeftFactorGrows(d, k); } else { LeftFactorGrows(d, -k); }
    } else {
      if k > 0 { LeftFactorGrows(-d, k); } else { LeftFactorGrows(-d, -k); }
    }
    SignMoves(d, k);
    SignMoves(-d, k);
  }

  lemma LeftFactorGrows(d: int, k: int)
    requires d >= 1 && k >= 0
    ensures d * k >= k
  {
    assert (d - 1) * k >= 0;
  }

  /** If dividing the wrapped product gives the multiplicand back, nothing was lost. */
  lemma DivideBack(m: int64, k: int64)
    requires k != 0 && TruncDiv(Wrap(m * k), k) == m
    ensures Wrap(m * k) == m * k
  {
    var p := Wrap(m * k);
    TruncDivBounds(p, k);
    var j: int :| p == m * k - j * TWO64;
    assert p - m * k == -j * TWO64;
  }

  lemma ExactQuotient(m: int, k: int)
    requires k != 0
    ensures TruncDiv(m * k, k) == m
  {
    var q := TruncDiv(m * k, k);
    TruncDivBounds(m * k, k);
    assert m * k - q * k == (m - q) * k;
    if m != q {
      NonzeroFactorGrows(m - q, k);
    }
  }

  lemma QuotientAtMost(n: nat, d: nat)
    requires d >= 1
    ensures 0 <= n / d <= n
    ensures d >= 2 ==> 2 * (n / d) <= n
  {
    DivisionRemainder(n, d);
    var q := n / d;
    LeftFactorGrows(d, q);
    SignMoves(q, d);
    if d >= 2 { LeftFactorHalves(q, d); }
  }

  lemma QuotientFits(p: int64, k: int64)
    requires k != 0 && !(p == MIN64 && k == -1)
    ensures InRange(TruncDiv(p, k))
  {
    var n := if p >= 0 then p as int else -(p as int);
    var d := if k > 0 then k as int else -(k as int);
    QuotientAtMost(n, d);
    assert TruncDiv(p, k) == n / d || TruncDiv(p, k) == -(n / d);
    if d == 1 && TruncDiv(p, k) == n / d {
      assert k == 1 ==> TruncDiv(p, k) == p;
    }
  }

  lemma LeftFactorHalves(q: nat, d: nat)
    requires d >= 2
    ensures q * d >= 2 * q
  {
    assert q * (d - 2) >= 0;
  }

  lemma DivideBackDetectsWrap(m: int64, k: int64)
    requires m != 0 && k != 0 && !(m == MIN64 && k == -1)
    ensures Quot(Wrap(m * k), k) == m <==> InRange(m * k)
  {
    var p := Wrap(m * k);
    ExactQuotient(m, k);
    if p == MIN64 && k == -1 {
      assert TruncDiv(p, k) == TWO64 / 2;
    } else {
      QuotientFits(p, k);
      if TruncDiv(p, k) == m {
        DivideBack(m, k);
      }
    }
  }

  /** Mul is exact, or reports the overflow, for every pair but (MinInt64, -1). */
  lemma MulIsExactOrOverflow(a: Money, k: int64)
    ensures !(a.amount == MIN64 && k == -1) <==>
            a.Mul(k) == if InRange(a.amount * k) then Ok(Money(a.amount * k, a.Currency())) else Err(Overflow)
  {
    if a.amount == MIN64 && k == -1 {
      MulMissesOneOverflow(a);
    } else if a.amount != 0 && k != 0 {
      DivideBackDetectsWrap(a.amount, k);
    }
  }

  /** The pair it misses: MinInt64 times -1 comes back as MinInt64, with no error. */
  lemma MulMissesOneOverflow(a: Money)
    requires a.amount == MIN64
    ensures a.Mul(-1) == Ok(Money(MIN64, a.Currency()))
    ensures !InRange(a.amount * -1)
  {
    assert Wrap(a.amount * -1) == MIN64;
    assert TruncDiv(MIN64, -1) == TWO64 / 2;
  }

  /** Amounts of sales and orders are never negative, so there Mul is always exact. */
  lemma MulNonNegative(amount: int64, k: int64)
    requires amount >= 0
    ensures IDR(amount).Mul(k) == if InRange(amount * k) then Ok(IDR(amount * k)) else Err(Overflow)
  {
    MulIsExactOrOverflow(IDR(amount), k);
  }

  method TimesExact(amount: int64, k: int64) returns (r: Result<Money, Error>)
    requires amount >= 0
    ensures r == if InRange(amount * k) then Ok(IDR(amount * k)) else Err(Overflow)
  {
    MulNonNegative(amount, k);
    r := IDR(amount).Mul(k);
  }

  /** Adds price times quantity to a running Rupiah sum, both steps checked. */
  method AddTimes(sum: int64, price: int64, quantity: int64) returns (r: Result<int64, Error>)
    requires sum >= 0 && price >= 0 && quantity >= 0
    ensures price * quantity >= 0
    ensures r == if sum + price * quantity <= MAX64 then Ok(sum + price * quantity) else Err(Overflow)
  {
    assert price * quantity >= 0;
    var amount := TimesExact(price, quantity);
    if amount.Err? { return Err(amount.error); }
    r := AddExact(sum, amount.value.amount);
  }

  method AddExact(sum: int64, x: int64) returns (r: Result<int64, Error>)
    ensures r == if InRange(sum + x) then Ok(sum + x) else Err(Overflow)
  {
    var next := IDR(sum).Add(IDR(x));
    if next.Err? { return Err(next.error); }
    return Ok(next.value.amount);
  }

  // ---------- splitting an amount into parts ----------

  function AmountOf(): Money -> int {
    (m: Money) => m.amount
  }

  /** The share of part i: the quotient, plus one unit of the remainder for the first parts. */
  function Share(amount: int64, parts: int64, i: nat): (share: int)
    requires 0 < parts
  {
    var base := TruncDiv(amount, parts);
    var rest := Rem(amount, parts);
    base + (if rest > 0 && i < rest then 1 else if rest < 0 && i < -rest then -1 else 0)
  }

  lemma ShareBounds(amount: int64, parts: int64, i: nat)
    requires 0 < parts
    ensures InRange(Share(amount, parts, i))
    ensures InRange(TruncDiv(amount, parts))
  {
    TruncDivBounds(amount, parts);
    QuotientFits(amount, parts);
    var base := TruncDiv(amount, parts);
    if base > 0 { LeftFactorGrows(parts, base); } else { LeftFactorGrows(parts, -base); SignMoves(base, parts); }
  }

  /** How much of the remainder the first n parts have taken. */
  function Taken(rest: int, n: nat): int {
    if rest >= 0 then (if n < rest then n else rest) else if n < -rest then -(n as int) else rest
  }

  /** Conservation: no Rupiah is lost or invented, whatever the sign. */
  lemma {:induction false} SharesConserve(amount: int64, parts: int64, shares: seq<Money>)
    requires 0 < parts
    requires forall i :: 0 <= i < |shares| ==> shares[i].amount == Share(amount, parts, i)
    ensures Sum(shares, AmountOf()) == |shares| * TruncDiv(amount, parts) + Taken(Rem(amount, parts), |shares|)
  {
    if |shares| > 0 {
      var n := |shares| - 1;
      SharesConserve(amount, parts, shares[..n]);
      OneMore(n, TruncDiv(amount, parts));
    }
  }

  lemma OneMore(n: nat, x: int)
    ensures (n + 1) * x == n * x + x
  {
  }

  lemma SplitTotal(amount: int64, parts: int64, shares: seq<Money>)
    requires 0 < parts == |shares|
    requires forall i :: 0 <= i < |shares| ==> shares[i].amount == Share(amount, parts, i)
    ensures Sum(shares, AmountOf()) == amount
  {
    SharesConserve(amount, parts, shares);
    TruncDivBounds(amount, parts);
  }

  /** Parts differ by at most one unit, and the larger ones come first. */
  lemma SharesClose(amount: int64, parts: int64, i: nat, j: nat)
    requires 0 < parts && i < j
    ensures var d := Share(amount, parts, i) - Share(amount, parts, j); if amount >= 0 then 0 <= d <= 1 else -1 <= d <= 0
  {
    TruncDivBounds(amount, parts);
  }

  /** Fills a fresh slice with the parts; a non-positive number of parts is an error. */
  method Split(m: Money, parts: int64) returns (r: Result<array<Money>, Error>)
    ensures parts <= 0 ==> r == Err(DivisionByZero)
    ensures parts > 0 ==> r.Ok? && r.value.Length == parts
    ensures parts > 0 ==> Sum(r.value[..], AmountOf()) == m.amount
    ensures parts > 0 ==> forall i, j :: 0 <= i < j < parts ==>
                            var d := r.value[i].amount - r.value[j].amount; if m.amount >= 0 then 0 <= d <= 1 else -1 <= d <= 0
    ensures parts > 0 ==> forall i :: 0 <= i < parts ==> r.value[i].code == m.Currency()
  {
    if parts <= 0 {
      return Err(DivisionByZero);
    }
    ShareBounds(m.amount, parts, 0);
    var base := Quot(m.amount, parts);
    var remainder := Rem(m.amount, parts);
    var results := new Money[parts](_ => Money(0, ""));
    for i := 0 to parts
      invariant forall j :: 0 <= j < i ==> results[j] == Money(Share(m.amount, parts, j), m.Currency())
    {
      var extra := 0;
      if m.amount >= 0 {
        if i < remainder { extra := 1; }
      } else {
        if i < -remainder { extra := -1; }
      }
      TruncDivBounds(m.amount, parts);
      ShareBounds(m.amount, parts, i);
      results[i] := Money(Wrap(base + extra), m.Currency());
    }
    SplitTotal(m.amount, parts, results[..]);
    forall i, j | 0 <= i < j < parts
      ensures var d := results[i].amount - results[j].amount; if m.amount >= 0 then 0 <= d <= 1 else -1 <= d <= 0
    {
      SharesClose(m.amount, parts, i, j);
    }
    return Ok(results);
  }
}
