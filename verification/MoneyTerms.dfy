/** Which texts the two money parsers read, and as what, said of the digits alone. */
module MoneyTerms {
  import opened Wrappers
  import opened Int64
  import opened Money
  import opened MoneyText

  // ---------- what digits are worth ----------

  function TenTo(n: nat): nat {
    if n == 0 then 1 else 10 * TenTo(n - 1)
  }

  lemma {:induction false} LastDigitCounts(a: nat, n: nat)
    requires n >= 1
    ensures a * TenTo(n) == a * TenTo(n - 1) * 10
  {
    assert a * (10 * TenTo(n - 1)) == a * TenTo(n - 1) * 10;
  }

  /** Decimal notation: digits in front of n others count for 10 to the n. */
  lemma {:induction false} PlacesCount(s: string, t: string)
    requires AllDigits(s) && AllDigits(t)
    ensures AllDigits(s + t) && Value(s + t) == Value(s) * TenTo(|t|) + Value(t)
  {
    if |t| == 0 {
      assert s + t == s;
    } else {
      var front := t[..|t| - 1];
      assert forall c <- front :: c in t;
      PlacesCount(s, front);
      assert (s + t)[..|s + t| - 1] == s + front;
      LastDigitCounts(Value(s), |t|);
      assert (s + t)[|s + t| - 1] == t[|t| - 1] && t[|t| - 1] in t;
      assert forall c <- s + t :: c in s || c in t;
    }
  }

  /** The ten digits are worth what they say, and an amount is printed in the digits that are worth it, behind its sign. */
  lemma {:induction false} DigitsAreWorth(v: int)
    ensures Value("0") == 0 && Value("1") == 1 && Value("2") == 2 && Value("3") == 3 && Value("4") == 4
    ensures Value("5") == 5 && Value("6") == 6 && Value("7") == 7 && Value("8") == 8 && Value("9") == 9
    ensures v >= 0 ==> AllDigits(FormatInt(v)) && Value(FormatInt(v)) == v
    ensures v < 0 ==> |FormatInt(v)| > 1 && FormatInt(v)[0] == '-' && AllDigits(FormatInt(v)[1..]) && Value(FormatInt(v)[1..]) == -v
  {
    DigitsRead(if v < 0 then -v else v);
    assert v < 0 ==> FormatInt(v)[1..] == Digits(-v);
    assert Value("") == 0;
    assert "0"[..0] == "" && "1"[..0] == "" && "2"[..0] == "" && "3"[..0] == "" && "4"[..0] == "";
    assert "5"[..0] == "" && "6"[..0] == "" && "7"[..0] == "" && "8"[..0] == "" && "9"[..0] == "";
  }

  // ---------- the server's parser ----------

  lemma {:induction false} DigitsStand(s: string)
    requires |s| > 0 && AllDigits(s)
    ensures !GoSpace()(s[0]) && !GoSpace()(s[|s| - 1]) && !JsSpace()(s[0]) && !JsSpace()(s[|s| - 1])
    ensures Removed(s, "Rp") == Removed(s, "IDR") == Removed(s, ".") == Removed(s, ",") == s
  {
    assert s[0] in s && s[|s| - 1] in s;
    NotSpace(s[0]);
    NotSpace(s[|s| - 1]);
    assert 'R' !in s && 'I' !in s && '.' !in s && ',' !in s;
    RemovedAbsent(s, "Rp");
    RemovedAbsent(s, "IDR");
    RemovedAbsent(s, ".");
    RemovedAbsent(s, ",");
  }

  lemma {:induction false} SignedStands(s: string, sign: char)
    requires |s| > 0 && AllDigits(s) && (sign == '-' || sign == '+')
    ensures Cleaned([sign] + s) == [sign] + s && Cleaned(s) == s
  {
    var t := [sign] + s;
    DigitsStand(s);
    assert t[|t| - 1] == s[|s| - 1];
    TrimKeeps(t, GoSpace());
    TrimKeeps(s, GoSpace());
    assert 'R' !in t && 'I' !in t && '.' !in t && ',' !in t;
    RemovedAbsent(t, "Rp");
    RemovedAbsent(t, "IDR");
    RemovedAbsent(t, ".");
    RemovedAbsent(t, ",");
  }

  /** Digits decode to their worth, behind a plus too, and behind a minus to its opposite, wherever int64 holds it. Nothing at all
      does not decode. */
  lemma {:induction false} DigitsDecode(s: string)
    requires |s| > 0 && AllDigits(s)
    ensures ParseInt(Cleaned(s)) == (if Value(s) <= 9_223_372_036_854_775_807 then Some(Value(s)) else None)
    ensures ParseInt(Cleaned("+" + s)) == ParseInt(Cleaned(s))
    ensures ParseInt(Cleaned("-" + s)) == (if Value(s) <= 9_223_372_036_854_775_808 then Some(-(Value(s) as int)) else None)
    ensures ParseInt(Cleaned("")) == None
  {
    SignedStands(s, '-');
    SignedStands(s, '+');
    assert "-" + s == ['-'] + s && "+" + s == ['+'] + s;
    assert ("-" + s)[1..] == s && ("+" + s)[1..] == s;
    assert s[0] in s;
  }

  // ---------- the browser's parser ----------

  lemma {:induction false} TailComesOff(body: string, tail: string)
    requires |body| > 0 && ',' !in body && tail in {"", ",0", ",00"}
    ensures WholePart(body + tail) == body
  {
    var s := body + tail;
    if tail == "" {
      assert s == body;
      NoDecimals(body);
    } else if tail == ",0" {
      assert s[|s| - 2..] == ",0" && s[..|s| - 2] == body;
      if |s| >= 3 { assert s[|s| - 3..][1] == ','; }
    } else {
      assert s[|s| - 3..] == ",00" && s[..|s| - 3] == body;
    }
  }

  lemma {:induction false} PrefixComesOff(prefix: string, body: string)
    requires |body| > 0 && IsDigit(body[0]) && prefix in {"", "Rp", "Rp ", "RP.", "rp. ", "IDR", "idr "}
    ensures WithoutCurrency(prefix + body) == body
  {
    var s := prefix + body;
    NotSpace(body[0]);
    assert TrimLeft(body, JsSpace()) == body;
    assert (" " + body)[1..] == body && TrimLeft(" " + body, JsSpace()) == body;
    if prefix == "" {
      assert s == body;
    } else if prefix == "Rp" {
      assert s[2..] == body;
    } else if prefix == "Rp " {
      assert s[2..] == " " + body;
    } else if prefix == "RP." {
      assert s[3..] == body;
    } else if prefix == "rp. " {
      assert s[3..] == " " + body;
    } else if prefix == "IDR" {
      assert s[3..] == body;
    } else {
      assert s[3..] == " " + body;
    }
  }

  function Plain(digits: string, dotted: bool, tail: string): string {
    (if dotted then Grouped(digits) else digits) + tail
  }

  /** Either way of writing the digits is whole Rupiah, and taking the dots out gives the digits. */
  lemma {:induction false} WrittenDigits(digits: string, dotted: bool)
    requires |digits| > 0 && AllDigits(digits)
    ensures var body := if dotted then Grouped(digits) else digits;
            && |body| > 0 && body[0] == digits[0] && body[|body| - 1] == digits[|digits| - 1] && ',' !in body
            && Removed(body, ".") == digits && ((|body| >= 1 && AllDigits(body)) || DotGroups(body))
  {
    DigitsStand(digits);
    assert digits[0] in digits;
    if dotted {
      UngroupedAgain(digits);
      GroupedChars(digits);
      GroupedIsDotted(digits);
    }
  }

  lemma {:induction false} ReadWhole(s: string, body: string, digits: string, negative: bool)
    requires WholePart(s) == body && ((|body| >= 1 && AllDigits(body)) || DotGroups(body)) && Removed(body, ".") == digits && AllDigits(digits)
    ensures ReadBody(s, negative) == if Value(digits) <= 2_000_000_000 then Some(if negative then -(Value(digits) as int) else Value(digits)) else None
  {
  }

  lemma {:induction false} PlainReads(digits: string, dotted: bool, tail: string, negative: bool)
    requires |digits| > 0 && AllDigits(digits) && tail in {"", ",0", ",00"}
    ensures ReadBody(Plain(digits, dotted, tail), negative)
            == if Value(digits) <= 2_000_000_000 then Some(if negative then -(Value(digits) as int) else Value(digits)) else None
  {
    WrittenDigits(digits, dotted);
    var body := if dotted then Grouped(digits) else digits;
    TailComesOff(body, tail);
    ReadWhole(body + tail, body, digits, negative);
  }

  lemma {:induction false} PlainEnds(digits: string, dotted: bool, tail: string)
    requires |digits| > 0 && AllDigits(digits) && tail in {"", ",0", ",00"}
    ensures var s := Plain(digits, dotted, tail); |s| > 0 && IsDigit(s[0]) && !JsSpace()(s[0]) && !JsSpace()(s[|s| - 1])
  {
    WrittenDigits(digits, dotted);
    DigitsStand(digits);
    assert digits[0] in digits;
    NotSpace('0');
    var body := if dotted then Grouped(digits) else digits;
    if tail == "" { assert body + tail == body; } else { assert (body + tail)[|body + tail| - 1] == '0'; }
  }

  lemma {:induction false} InputReads(bare: string, body: string, allowNegative: bool)
    requires |bare| > 0 && !JsSpace()(bare[0]) && !JsSpace()(bare[|bare| - 1]) && bare[0] != '-' && WithoutCurrency(bare) == body
    ensures ReadIdr(bare, allowNegative) == ReadBody(body, false)
    ensures ReadIdr("-" + bare, allowNegative) == if allowNegative then ReadBody(body, true) else None
  {
    NotSpace('-');
    TrimKeeps(bare, JsSpace());
    TrimKeeps("-" + bare, JsSpace());
    assert ("-" + bare)[1..] == bare;
  }

  /** Whole Rupiah read in every form the till accepts: bare or dotted in threes, with or without a currency prefix in either case,
      with ",0" or ",00" behind, and behind a minus sign where negatives are allowed; up to two billion. */
  lemma {:induction false} RupiahReads(digits: string, prefix: string, dotted: bool, tail: string, allowNegative: bool)
    requires |digits| > 0 && AllDigits(digits)
    requires prefix in {"", "Rp", "Rp ", "RP.", "rp. ", "IDR", "idr "} && tail in {"", ",0", ",00"}
    ensures var s := prefix + Plain(digits, dotted, tail);
            && ReadIdr(s, allowNegative) == (if Value(digits) <= 2_000_000_000 then Some(Value(digits) as int) else None)
            && ReadIdr("-" + s, allowNegative) == (if allowNegative && Value(digits) <= 2_000_000_000 then Some(-(Value(digits) as int)) else None)
  {
    var body := Plain(digits, dotted, tail);
    PlainReads(digits, dotted, tail, false);
    PlainReads(digits, dotted, tail, true);
    PlainEnds(digits, dotted, tail);
    PrefixComesOff(prefix, body);
    PrefixStarts(prefix, body);
    InputReads(prefix + body, body, allowNegative);
  }

  lemma {:induction false} PrefixStarts(prefix: string, body: string)
    requires |body| > 0 && IsDigit(body[0]) && !JsSpace()(body[|body| - 1]) && prefix in {"", "Rp", "Rp ", "RP.", "rp. ", "IDR", "idr "}
    ensures var s := prefix + body; |s| > 0 && s[0] != '-' && !JsSpace()(s[0]) && !JsSpace()(s[|s| - 1])
  {
    var s := prefix + body;
    NotSpace(body[0]);
    assert s[|s| - 1] == body[|body| - 1];
    assert s[0] == if prefix == "" then body[0] else prefix[0];
  }

  /** What is not whole Rupiah is refused: nothing, a word, cents, a group of the wrong size. */
  lemma {:induction false} OthersAreRefused(allowNegative: bool)
    ensures ReadIdr("", allowNegative) == None
    ensures !WholeRupiah("12,5") && !WholeRupiah("1.23") && !WholeRupiah("1234.567") && !WholeRupiah("x") && !WholeRupiah("")
  {
    assert "12,5"[2..] == ",5" && "12,5"[2] == ',' && "12,5"[1..] == "2,5";
    assert ',' in "12,5";
    var a, b := "1.23", "1234.567";
    assert a[2..] == "23" && a[1..] == ".23" && a[1] == '.' && '.' in a;
    assert b[4..] == ".567" && b[..4] == "1234" && b[6..] == "67" && b[5..] == "567" && '.' in b;
    assert !DotGroups("1234");
    assert 'x' in "x";
  }
}
