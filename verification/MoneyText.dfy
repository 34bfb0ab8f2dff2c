/** Printing and parsing Rupiah: Format and UnmarshalJSON (backend/pkg/money/money.go) and parseIDR (frontend/src/lib/money.ts). */
module MoneyText {
  import opened Wrappers
  import opened Int64
  import opened Money
  import Compliance

  // ---------- digits ----------

  predicate IsDigit(c: char) {
    '0' <= c <= '9'
  }

  predicate AllDigits(s: string) {
    forall c <- s :: IsDigit(c)
  }

  function Digits(n: nat): string {
    if n < 10 then ['0' + n as char] else Digits(n / 10) + ['0' + (n % 10) as char]
  }

  function Value(s: string): nat
    requires AllDigits(s)
  {
    if |s| == 0 then 0
    else
      assert s[|s| - 1] in s;
      Value(s[..|s| - 1]) * 10 + (s[|s| - 1] - '0') as nat
  }

  lemma {:induction false} DigitsRead(n: nat)
    ensures |Digits(n)| >= 1 && AllDigits(Digits(n)) && Value(Digits(n)) == n
  {
    if n >= 10 {
      DigitsRead(n / 10);
      assert Digits(n)[..|Digits(n)| - 1] == Digits(n / 10);
    }
  }

  /** strconv.FormatInt in base 10. */
  function FormatInt(v: int): string {
    if v < 0 then "-" + Digits(-v) else Digits(v)
  }

  // ---------- printing ----------

  /** Threes from the right, separated by dots. */
  function Grouped(s: string): string {
    if |s| <= 3 then s else Grouped(s[..|s| - 3]) + "." + s[|s| - 3..]
  }

  /** The first i characters of s with a dot before each one that leaves a multiple of three to go. */
  function GroupedFromLeft(s: string, i: nat): string
    requires i <= |s|
  {
    if i == 0 then ""
    else GroupedFromLeft(s, i - 1) + (if i - 1 > 0 && (|s| - (i - 1)) % 3 == 0 then "." else "") + [s[i - 1]]
  }

  lemma {:induction false} ShorterSameDots(s: string, i: nat)
    requires |s| >= 3 && i <= |s| - 3
    ensures GroupedFromLeft(s, i) == GroupedFromLeft(s[..|s| - 3], i)
  {
    if i > 0 {
      ShorterSameDots(s, i - 1);
      assert (|s| - (i - 1)) % 3 == (|s| - 3 - (i - 1)) % 3;
    }
  }

  /** Counting from the left puts the dots where grouping from the right does. */
  lemma {:induction false} LeftIsRight(s: string)
    ensures GroupedFromLeft(s, |s|) == Grouped(s)
  {
    var n := |s|;
    if n > 3 {
      ShorterSameDots(s, n - 3);
      LeftIsRight(s[..n - 3]);
      assert GroupedFromLeft(s, n - 2) == GroupedFromLeft(s, n - 3) + "." + [s[n - 3]];
      assert GroupedFromLeft(s, n - 1) == GroupedFromLeft(s, n - 2) + "" + [s[n - 2]];
      assert GroupedFromLeft(s, n) == GroupedFromLeft(s, n - 1) + "" + [s[n - 1]];
      assert s[n - 3..] == [s[n - 3]] + [s[n - 2]] + [s[n - 1]];
    } else if n == 3 {
      assert GroupedFromLeft(s, 1) == [s[0]];
      assert GroupedFromLeft(s, 2) == [s[0]] + "" + [s[1]];
      assert GroupedFromLeft(s, 3) == [s[0]] + "" + [s[1]] + "" + [s[2]];
    } else if n == 2 {
      assert GroupedFromLeft(s, 1) == [s[0]];
    }
  }

  /** The printed amount: sign, currency, grouped digits. Negating MinInt64 wraps, so its minus sign appears twice. */
  function Printed(m: Money): string {
    var val := if m.amount < 0 then Wrap(-(m.amount as int)) else m.amount as int;
    (if m.amount < 0 then "-" else "") + (if m.Currency() == IDR_CODE then "Rp" else m.Currency()) + " " + Grouped(FormatInt(val))
  }

  /** The grouping loop of Format. */
  method GroupDigits(strVal: string) returns (formatted: string)
    ensures formatted == Grouped(strVal)
  {
    formatted := "";
    var n := |strVal|;
    for i := 0 to n
      invariant formatted == GroupedFromLeft(strVal, i)
    {
      if i > 0 && (n - i) % 3 == 0 {
        formatted := formatted + ".";
      }
      formatted := formatted + [strVal[i]];
    }
    LeftIsRight(strVal);
  }

  method Format(m: Money) returns (r: string)
    ensures r == Printed(m)
  {
    var sign := "";
    var val: int := m.amount;
    if val < 0 {
      sign := "-";
      val := Wrap(-val);
    }
    var formatted := GroupDigits(FormatInt(val));
    if m.Currency() == IDR_CODE {
      return sign + "Rp" + " " + formatted;
    }
    return sign + m.Currency() + " " + formatted;
  }

  // ---------- string helpers of the two parsers ----------

  function TrimLeft(s: string, space: char -> bool): string {
    if |s| > 0 && space(s[0]) then TrimLeft(s[1..], space) else s
  }

  function TrimRight(s: string, space: char -> bool): string {
    if |s| > 0 && space(s[|s| - 1]) then TrimRight(s[..|s| - 1], space) else s
  }

  function Trim(s: string, space: char -> bool): string {
    TrimRight(TrimLeft(s, space), space)
  }

  /** ReplaceAll(s, pattern, ""). */
  function Removed(s: string, pattern: string): string
    requires |pattern| >= 1
  {
    if |s| < |pattern| then s
    else if s[..|pattern|] == pattern then Removed(s[|pattern|..], pattern)
    else [s[0]] + Removed(s[1..], pattern)
  }

  lemma {:induction false} RemovedAbsent(s: string, pattern: string)
    requires |pattern| >= 1 && pattern[0] !in s
    ensures Removed(s, pattern) == s
  {
    if |s| >= |pattern| {
      assert s[..|pattern|][0] == s[0];
      RemovedAbsent(s[1..], pattern);
    }
  }

  lemma {:induction false} RemovedConcat(a: string, b: string, c: char)
    ensures Removed(a + b, [c]) == Removed(a, [c]) + Removed(b, [c])
  {
    if |a| == 0 {
      assert a + b == b;
    } else {
      assert (a + b)[1..] == a[1..] + b;
      assert (a + b)[..1] == a[..1] == [a[0]];
      RemovedConcat(a[1..], b, c);
    }
  }

  lemma {:induction false} DotRemoved(a: string, b: string)
    ensures Removed(a + "." + b, ".") == Removed(a, ".") + Removed(b, ".")
  {
    RemovedConcat(a + ".", b, '.');
    RemovedConcat(a, ".", '.');
    assert Removed(".", ".") == "";
  }

  lemma {:induction false} UngroupedParts(x: string, g: string, front: string, last: string)
    requires x == g + "." + last && Removed(g, ".") == front && '.' !in last
    ensures Removed(x, ".") == front + last
  {
    DotRemoved(g, last);
    RemovedAbsent(last, ".");
  }

  /** Taking the dots out of grouped digits leaves the digits. */
  lemma {:induction false} UngroupedAgain(s: string)
    requires '.' !in s
    ensures Removed(Grouped(s), ".") == s
  {
    if |s| <= 3 {
      RemovedAbsent(s, ".");
    } else {
      var (front, last) := (s[..|s| - 3], s[|s| - 3..]);
      UngroupedAgain(front);
      UngroupedParts(Grouped(s), Grouped(front), front, last);
      assert s == front + last;
    }
  }

  lemma {:induction false} GroupedChars(s: string)
    ensures forall c <- Grouped(s) :: c in s || c == '.'
    ensures |s| > 0 ==> |Grouped(s)| > 0 && Grouped(s)[0] == s[0] && Grouped(s)[|Grouped(s)| - 1] == s[|s| - 1]
  {
    if |s| > 3 {
      GroupedChars(s[..|s| - 3]);
    }
  }

  lemma TrimKeeps(s: string, space: char -> bool)
    requires |s| > 0 && !space(s[0]) && !space(s[|s| - 1])
    ensures Trim(s, space) == s
  {
  }

  // ---------- the server's parser ----------

  function GoSpace(): char -> bool {
    (c: char) => Compliance.IsSpace(c)
  }

  /** strconv.ParseInt(s, 10, 64). */
  function ParseInt(s: string): Option<int64> {
    var signed := |s| > 0 && (s[0] == '-' || s[0] == '+');
    var body := if signed then s[1..] else s;
    if |body| == 0 || !AllDigits(body) then None
    else
      var v: int := if signed && s[0] == '-' then -(Value(body) as int) else Value(body);
      if InRange(v) then Some(v) else None
  }

  /** What is left of a money string to be read as a number. */
  function Cleaned(s: string): string {
    Trim(Removed(Removed(Removed(Removed(Trim(s, GoSpace()), "Rp"), "IDR"), "."), ","), GoSpace())
  }

  /** The value a JSON string is decoded into. */
  class Decoded {
    var value: Money

    constructor ()
      ensures value == Money(0, "")
    {
      value := Money(0, "");
    }

    /** The string branch of UnmarshalJSON. */
    method UnmarshalString(s: string) returns (ok: bool)
      modifies this
      ensures ok <==> ParseInt(Cleaned(s)).Some?
      ensures value == if ok then IDR(ParseInt(Cleaned(s)).value) else old(value)
    {
      var clean := Trim(s, GoSpace());
      clean := Removed(clean, "Rp");
      clean := Removed(clean, "IDR");
      clean := Removed(clean, ".");
      clean := Removed(clean, ",");
      clean := Trim(clean, GoSpace());
      var parsed := ParseInt(clean);
      if parsed.None? { return false; }
      value := IDR(parsed.value);
      return true;
    }
  }

  lemma {:induction false} NotSpace(c: char)
    requires IsDigit(c) || c == '-' || c == 'R'
    ensures !GoSpace()(c) && !JsSpace()(c)
  {
  }

  function Signed(negative: bool, s: string): string {
    if negative then "-" + s else s
  }

  lemma {:induction false} PrintTrimmed(negative: bool, g: string)
    requires |g| > 0 && !GoSpace()(g[|g| - 1])
    ensures Trim(Signed(negative, "Rp " + g), GoSpace()) == Signed(negative, "Rp " + g)
  {
    var s := Signed(negative, "Rp " + g);
    NotSpace(s[0]);
    assert s[|s| - 1] == g[|g| - 1];
    TrimKeeps(s, GoSpace());
  }

  lemma {:induction false} NothingToRemove(negative: bool, x: string, pattern: string)
    requires |pattern| >= 1 && pattern[0] != '-' && pattern[0] != ' ' && pattern[0] !in x
    ensures Removed(Signed(negative, " " + x), pattern) == Signed(negative, " " + x)
  {
    RemovedAbsent(Signed(negative, " " + x), pattern);
  }

  /** Cleaning what Format wrote for Rupiah leaves the digits, behind "- " for a negative amount. */
  lemma {:induction false} CleanedPrint(digits: string, negative: bool)
    requires AmountText(digits)
    ensures Cleaned(Signed(negative, "Rp " + Grouped(digits))) == if negative then "-" + (" " + digits) else digits
  {
    var g := Grouped(digits);
    AmountTextEnds(digits);
    GroupedChars(digits);
    NotSpace(g[|g| - 1]);
    PrintTrimmed(negative, g);
    RpRemoved(negative, g);
    NothingToRemove(negative, g, "IDR");
    DotsRemoved(negative, digits);
    NothingToRemove(negative, digits, ",");
    TrimmedDigits(negative, digits);
  }

  lemma {:induction false} RpRemoved(negative: bool, g: string)
    requires 'R' !in g
    ensures Removed(Signed(negative, "Rp " + g), "Rp") == Signed(negative, " " + g)
  {
    var rest := "Rp " + g;
    assert rest[..2] == "Rp" && rest[2..] == " " + g;
    RemovedAbsent(" " + g, "Rp");
    if negative {
      var s := "-" + rest;
      assert s[..2][0] == '-' && s[1..] == rest;
    }
  }

  lemma {:induction false} DotsRemoved(negative: bool, digits: string)
    requires '.' !in digits
    ensures Removed(Signed(negative, " " + Grouped(digits)), ".") == Signed(negative, " " + digits)
  {
    RemovedConcat(" ", Grouped(digits), '.');
    RemovedAbsent(" ", ".");
    UngroupedAgain(digits);
    if negative {
      RemovedConcat("-", " " + Grouped(digits), '.');
      RemovedAbsent("-", ".");
    }
  }

  lemma {:induction false} TrimmedDigits(negative: bool, digits: string)
    requires |digits| > 0 && (IsDigit(digits[0]) || digits[0] == '-') && IsDigit(digits[|digits| - 1])
    ensures Trim(Signed(negative, " " + digits), GoSpace()) == if negative then "-" + (" " + digits) else digits
  {
    NotSpace(digits[0]);
    NotSpace(digits[|digits| - 1]);
    NotSpace('-');
    if negative {
      TrimKeeps("-" + (" " + digits), GoSpace());
    } else {
      assert (" " + digits)[1..] == digits;
      assert TrimLeft(" " + digits, GoSpace()) == TrimLeft(digits, GoSpace()) == digits;
    }
  }

  function TextOf(m: Money): string {
    if m.amount == MIN64 then "-" + Digits(-MIN64) else Digits(if m.amount < 0 then -(m.amount as int) else m.amount)
  }

  lemma {:induction false} TextReads(m: Money)
    ensures AmountText(TextOf(m)) && (AllDigits(TextOf(m)) <==> m.amount != MIN64)
    ensures m.amount != MIN64 ==> Value(TextOf(m)) == if m.amount < 0 then -(m.amount as int) else m.amount
  {
    DigitsRead(if m.amount < 0 then -(m.amount as int) else m.amount);
    if m.amount == MIN64 { assert TextOf(m)[1..] == Digits(-MIN64) && TextOf(m)[0] in TextOf(m); }
  }

  /** The decimal text of what Format prints. */
  lemma {:induction false} PrintedText(m: Money)
    requires m.Currency() == IDR_CODE
    ensures Printed(m) == Signed(m.amount < 0, "Rp " + Grouped(TextOf(m)))
  {
    assert Wrap(-MIN64) == MIN64;
    RupiahPrefix(Grouped(TextOf(m)));
  }

  lemma RupiahPrefix(g: string)
    ensures "" + "Rp" + " " + g == "Rp " + g
    ensures "-" + "Rp" + " " + g == "-" + ("Rp " + g)
  {
    assert "" + "Rp" + " " == "Rp ";
    assert "-" + "Rp" + " " == "-" + "Rp ";
    assert ("-" + "Rp ") + g == "-" + ("Rp " + g);
  }

  lemma DecodeCleaned(text: string)
    requires AmountText(text)
    ensures ParseInt("-" + (" " + text)) == None
    ensures AllDigits(text) && Value(text) <= MAX64 ==> ParseInt(text) == Some(Value(text))
  {
    var s := "-" + (" " + text);
    assert s[1..][0] == ' ' && ' ' in s[1..];
    if AllDigits(text) { assert text[0] in text; }
  }

  /** Printing a Rupiah amount and decoding the string gives the amount back exactly when it is not negative; the text of
      a negative amount is refused. */
  lemma {:induction false} PrintThenDecode(m: Money)
    requires m.Currency() == IDR_CODE
    ensures ParseInt(Cleaned(Printed(m))) == if m.amount >= 0 then Some(m.amount) else None
  {
    PrintedText(m);
    TextReads(m);
    CleanedPrint(TextOf(m), m.amount < 0);
    DecodeCleaned(TextOf(m));
  }

  // ---------- the browser's parser ----------

  /** What JavaScript's trim and \\s treat as white space. */
  function JsSpace(): char -> bool {
    (c: char) => c in {' ', '\t', '\n', '\r', '\U{B}', '\U{C}', '\U{A0}', '\U{1680}', '\U{2028}', '\U{2029}', '\U{202F}', '\U{205F}', '\U{3000}', '\U{FEFF}'}
                 || '\U{2000}' <= c <= '\U{200A}'
  }

  predicate Letter(c: char, lower: char) {
    c == lower || (lower == 'r' && c == 'R') || (lower == 'p' && c == 'P') || (lower == 'i' && c == 'I') || (lower == 'd' && c == 'D')
  }

  /** replace(/^(rp|idr)\\.?\\s*\/i, ""). */
  function WithoutCurrency(s: string): string {
    var n := if |s| >= 2 && Letter(s[0], 'r') && Letter(s[1], 'p') then 2
             else if |s| >= 3 && Letter(s[0], 'i') && Letter(s[1], 'd') && Letter(s[2], 'r') then 3
             else 0;
    if n == 0 then s
    else if |s| > n && s[n] == '.' then TrimLeft(s[n + 1..], JsSpace())
    else TrimLeft(s[n..], JsSpace())
  }

  /** One to three digits, then groups of a dot and three digits. */
  predicate DotGroups(s: string) {
    if |s| <= 3 then |s| >= 1 && AllDigits(s)
    else |s| >= 5 && s[|s| - 4] == '.' && AllDigits(s[|s| - 3..]) && DotGroups(s[..|s| - 4])
  }

  /** The text before an optional ",0" or ",00". */
  function WholePart(s: string): string {
    if |s| >= 3 && s[|s| - 3..] == ",00" then s[..|s| - 3]
    else if |s| >= 2 && s[|s| - 2..] == ",0" then s[..|s| - 2]
    else s
  }

  predicate WholeRupiah(s: string) {
    var body := WholePart(s);
    (|body| >= 1 && AllDigits(body)) || DotGroups(body)
  }

  lemma {:induction false} DotGroupsUngroup(s: string)
    requires DotGroups(s)
    ensures |Removed(s, ".")| >= 1 && AllDigits(Removed(s, ".")) && ',' !in s
  {
    if |s| <= 3 {
      RemovedAbsent(s, ".");
    } else {
      var (front, last) := (s[..|s| - 4], s[|s| - 3..]);
      DotGroupsUngroup(front);
      assert s == front + "." + last;
      DotRemoved(front, last);
      RemovedAbsent(last, ".");
    }
  }

  lemma {:induction false} WholeRupiahDigits(s: string)
    requires WholeRupiah(s)
    ensures |Removed(WholePart(s), ".")| >= 1 && AllDigits(Removed(WholePart(s), ".")) && ',' !in WholePart(s)
  {
    var body := WholePart(s);
    if |body| >= 1 && AllDigits(body) {
      RemovedAbsent(body, ".");
    } else {
      DotGroupsUngroup(body);
    }
  }

  /** Whole Rupiah within the tender cap. */
  function ReadBody(body: string, negative: bool): Option<int> {
    if !WholeRupiah(body) then None
    else
      WholeRupiahDigits(body);
      var v := Value(Removed(WholePart(body), "."));
      if v > MAX_TENDER_AMOUNT then None else Some(if negative then -(v as int) else v)
  }

  /** What an input means: an optional minus sign, a currency prefix, whole Rupiah within the tender cap. */
  function ReadIdr(input: string, allowNegative: bool): Option<int> {
    var text := Trim(input, JsSpace());
    var negative := |text| > 0 && text[0] == '-';
    if |text| == 0 || (negative && !allowNegative) then None
    else ReadBody(WithoutCurrency(if negative then Trim(text[1..], JsSpace()) else text), negative)
  }

  function FirstComma(s: string): (k: nat)
    ensures k <= |s| && ',' !in s[..k] && (k < |s| ==> s[k] == ',')
  {
    if |s| == 0 || s[0] == ',' then 0
    else
      assert s[..1 + FirstComma(s[1..])] == [s[0]] + s[1..][..FirstComma(s[1..])];
      1 + FirstComma(s[1..])
  }

  /** Removing the dots leaves the whole part's digits and its zero decimals as they were. */
  lemma {:induction false} DotsThenComma(s: string)
    requires WholeRupiah(s)
    ensures var digits, tail := Removed(WholePart(s), "."), s[|WholePart(s)|..];
            && s == WholePart(s) + tail && (tail == "" || tail == ",0" || tail == ",00")
            && Removed(s, ".") == digits + tail && ',' !in digits
  {
    WholeRupiahDigits(s);
    var body := WholePart(s);
    var tail := s[|body|..];
    assert s == body + tail;
    RemovedConcat(body, tail, '.');
    RemovedAbsent(tail, ".");
  }

  const MAX_SAFE: int := 0x1F_FFFF_FFFF_FFFF

  /** What parseIDR accepts: a number, absent when it is NaN or infinite, or a text. */
  datatype Input = Number(value: Option<real>) | Text(text: string)

  predicate Whole(x: real, n: int) {
    x == n as real
  }

  /** parseIDR: a number passes as it is if it is whole and within the cap, a text as it reads. */
  method ParseIdr(input: Input, allowNegative: bool) returns (r: Option<int>)
    ensures input.Text? ==> r == ReadIdr(input.text, allowNegative)
    ensures input.Number? && input.value.None? ==> r.None?
    ensures input.Number? && input.value.Some? ==>
              forall n: int | Whole(input.value.value, n) ::
                r == if -MAX_TENDER_AMOUNT <= n <= MAX_TENDER_AMOUNT && (allowNegative || n >= 0) then Some(n) else None
    ensures input.Number? && input.value.Some? && (forall n: int :: !Whole(input.value.value, n)) ==> r.None?
  {
    match input {
      case Number(value) =>
        if value.None? { return None; }
        var n := value.value.Floor;
        if !Whole(value.value, n) || n > MAX_SAFE || n < -MAX_SAFE {
          assert forall k: int :: Whole(value.value, k) ==> k == n;
          return None;
        }
        if !allowNegative && n < 0 { return None; }
        if n > MAX_TENDER_AMOUNT || -n > MAX_TENDER_AMOUNT { return None; }
        return Some(n);
      case Text(text) =>
        r := ParseText(text, allowNegative);
    }
  }

  /** The text branch. The checks after the pattern can no longer fail, except the cap. */
  method ParseText(input: string, allowNegative: bool) returns (r: Option<int>)
    ensures r == ReadIdr(input, allowNegative)
  {
    var clean := Trim(input, JsSpace());
    if clean == "" { return None; }
    var isNegative := clean[0] == '-';
    if isNegative && !allowNegative { return None; }
    if isNegative { clean := Trim(clean[1..], JsSpace()); }
    clean := WithoutCurrency(clean);
    if !WholeRupiah(clean) { return None; }
    ghost var body := clean;
    DotsThenComma(body);
    WholeRupiahDigits(body);
    clean := Removed(clean, ".");
    var comma := FirstComma(clean);
    CommaAt(Removed(WholePart(body), "."), body[|WholePart(body)|..], comma);
    if comma < |clean| {
      var decimals := clean[comma + 1..];
      assert decimals == "0" || decimals == "00"; // the source's fraction test never rejects here
      clean := clean[..comma];
    }
    assert clean == Removed(WholePart(body), ".");
    var parsed := Value(clean);
    if parsed > MAX_SAFE { return None; }
    if parsed > MAX_TENDER_AMOUNT { return None; }
    return Some(if isNegative then -(parsed as int) else parsed);
  }

  lemma CommaAt(digits: string, tail: string, k: nat)
    requires ',' !in digits && (tail == "" || tail == ",0" || tail == ",00")
    requires k <= |digits + tail| && ',' !in (digits + tail)[..k] && (k < |digits + tail| ==> (digits + tail)[k] == ',')
    ensures (tail == "" ==> k == |digits + tail|) && (tail != "" ==> k == |digits|)
    ensures k < |digits + tail| ==> tail != "" && (digits + tail)[..k] == digits && (digits + tail)[k + 1..] == tail[1..]
    ensures k == |digits + tail| ==> tail == "" && digits + tail == digits
  {
    var s := digits + tail;
    assert forall i :: 0 <= i < |digits| ==> s[i] in digits;
    assert forall i :: 0 <= i < k ==> s[i] == s[..k][i];
    if tail != "" { assert s[|digits|] == ','; } else { assert s == digits; }
  }

  /** Grouped text is well grouped exactly when it is digits. */
  lemma {:induction false} GroupedIsDotted(s: string)
    requires |s| >= 1 && '.' !in s
    ensures DotGroups(Grouped(s)) <==> AllDigits(s)
  {
    if |s| > 3 {
      var (front, last) := (s[..|s| - 3], s[|s| - 3..]);
      GroupedChars(front);
      GroupedIsDotted(front);
      LastGroup(Grouped(front), last);
      assert s == front + last;
    }
  }

  lemma LastGroup(front: string, last: string)
    requires |front| >= 1 && |last| == 3
    ensures DotGroups(front + "." + last) <==> DotGroups(front) && AllDigits(last)
  {
    var g := front + "." + last;
    assert g[..|g| - 4] == front && g[|g| - 3..] == last && g[|g| - 4] == '.';
  }

  lemma {:induction false} NoDecimals(s: string)
    requires ',' !in s
    ensures WholePart(s) == s
  {
    if |s| >= 3 { assert s[|s| - 3..][0] == s[|s| - 3]; }
    if |s| >= 2 { assert s[|s| - 2..][0] == s[|s| - 2]; }
  }

  /** A printable amount: digits, or for MinInt64 digits behind a minus sign. */
  predicate AmountText(text: string) {
    |text| > 0 && (AllDigits(text) || (text[0] == '-' && |text| > 1 && AllDigits(text[1..])))
  }

  lemma AmountTextEnds(text: string)
    requires AmountText(text)
    ensures IsDigit(text[|text| - 1]) && (IsDigit(text[0]) || text[0] == '-') && forall c <- text :: IsDigit(c) || c == '-'
  {
    if !AllDigits(text) {
      assert text == [text[0]] + text[1..];
      assert text[|text| - 1] in text[1..];
    }
  }

  lemma {:induction false} PrefixStripped(g: string)
    requires |g| > 0 && !JsSpace()(g[0])
    ensures WithoutCurrency("Rp " + g) == g
  {
    var s := "Rp " + g;
    assert s[0] == 'R' && s[1] == 'p' && s[2] == ' ' && s[2..] == " " + g;
    assert (" " + g)[1..] == g;
    assert TrimLeft(" " + g, JsSpace()) == TrimLeft(g, JsSpace()) == g;
  }

  lemma {:induction false} GroupedIsWhole(text: string)
    requires AmountText(text)
    ensures WholePart(Grouped(text)) == Grouped(text) && (WholeRupiah(Grouped(text)) <==> AllDigits(text))
  {
    AmountTextEnds(text);
    GroupedChars(text);
    NoDecimals(Grouped(text));
    GroupedIsDotted(text);
    if AllDigits(Grouped(text)) { GroupedDigitsAreDigits(text); }
  }

  /** Reading back "Rp " and grouped text. */
  lemma {:induction false} ReadGrouped(text: string)
    requires AmountText(text)
    ensures var g := Grouped(text);
            && WithoutCurrency("Rp " + g) == g && WholePart(g) == g && Removed(g, ".") == text
            && (WholeRupiah(g) <==> AllDigits(text))
            && |g| > 0 && !JsSpace()(g[|g| - 1])
  {
    AmountTextEnds(text);
    GroupedChars(text);
    NotSpace(text[0]);
    NotSpace(text[|text| - 1]);
    PrefixStripped(Grouped(text));
    GroupedIsWhole(text);
    UngroupedAgain(text);
  }

  lemma GroupedDigitsAreDigits(text: string)
    requires AmountText(text) && AllDigits(Grouped(text))
    ensures AllDigits(text)
  {
    GroupedChars(text);
    assert Grouped(text)[0] in Grouped(text);
  }

  /** What the text after the sign reads as. */
  lemma {:induction false} ReadPrintedBody(text: string, negative: bool)
    requires AmountText(text)
    ensures ReadBody(WithoutCurrency("Rp " + Grouped(text)), negative) ==
            if !AllDigits(text) || Value(text) > MAX_TENDER_AMOUNT then None else Some(if negative then -(Value(text) as int) else Value(text))
  {
    ReadGrouped(text);
  }

  lemma {:induction false} BareTrimmed(text: string)
    requires AmountText(text)
    ensures var bare := "Rp " + Grouped(text);
            Trim(bare, JsSpace()) == bare && Trim("-" + bare, JsSpace()) == "-" + bare
  {
    var bare := "Rp " + Grouped(text);
    ReadGrouped(text);
    NotSpace('R');
    NotSpace('-');
    TrimKeeps(bare, JsSpace());
    TrimKeeps("-" + bare, JsSpace());
  }

  lemma {:induction false} ReadUnsigned(text: string, allowNegative: bool)
    requires AmountText(text)
    ensures ReadIdr("Rp " + Grouped(text), allowNegative) == ReadBody(WithoutCurrency("Rp " + Grouped(text)), false)
  {
    BareTrimmed(text);
  }

  lemma {:induction false} ReadNegative(text: string, allowNegative: bool)
    requires AmountText(text)
    ensures ReadIdr("-" + ("Rp " + Grouped(text)), allowNegative) ==
            if allowNegative then ReadBody(WithoutCurrency("Rp " + Grouped(text)), true) else None
  {
    BareTrimmed(text);
    assert ("-" + ("Rp " + Grouped(text)))[1..] == "Rp " + Grouped(text);
  }

  /** Printing and parsing undo each other for every amount within the tender cap, of either sign where negatives are
      allowed, and no other amount parses. */
  lemma {:induction false} PrintThenParse(m: Money, allowNegative: bool)
    requires m.Currency() == IDR_CODE
    ensures ReadIdr(Printed(m), allowNegative) ==
            if -MAX_TENDER_AMOUNT <= m.amount <= MAX_TENDER_AMOUNT && (allowNegative || m.amount >= 0) then Some(m.amount as int) else None
  {
    PrintedText(m);
    TextReads(m);
    ReadUnsigned(TextOf(m), allowNegative);
    ReadNegative(TextOf(m), allowNegative);
    ReadPrintedBody(TextOf(m), m.amount < 0);
  }
}
