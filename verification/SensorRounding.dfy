/**
 The sensor value stored in the database: values longer than ten characters are
 rounded to two decimals and printed again.  Over the reals, and for plain decimal
 syntax: an optional sign, digits, and optionally a point and more digits.
 */
module SensorRounding {
  import opened Wrappers

  // ----- Rounding half away from zero

  function Round(x: real): int {
    if x >= 0.0 then (x + 0.5).Floor else -((-x + 0.5).Floor)
  }

  /** The rounded value in hundredths, and the value itself. */
  function Hundredths(x: real): int { Round(x * 100.0) }

  function Rounded(x: real): real { Hundredths(x) as real / 100.0 }

  lemma RoundNear(x: real)
    ensures -0.5 <= Round(x) as real - x <= 0.5
    ensures Round(x) as real - x == 0.5 ==> x > 0.0
    ensures Round(x) as real - x == -0.5 ==> x < 0.0
  {
  }

  /** The rounded value is the nearest multiple of one hundredth, the one away from zero on a tie. */
  lemma RoundingError(x: real)
    ensures -1.0 / 200.0 <= Rounded(x) - x <= 1.0 / 200.0
    ensures Rounded(x) - x == 1.0 / 200.0 ==> x > 0.0
    ensures Rounded(x) - x == -1.0 / 200.0 ==> x < 0.0
  {
    RoundNear(x * 100.0);
    assert (Rounded(x) - x) * 100.0 == Hundredths(x) as real - x * 100.0;
  }

  lemma RoundingIsMonotone(x: real, y: real)
    requires x <= y
    ensures Rounded(x) <= Rounded(y)
  {
    var a, b := x * 100.0, y * 100.0;
    assert a <= b;
    assert Round(a) <= Round(b) by {
      if a < 0.0 && b < 0.0 {
        assert (-b + 0.5).Floor <= (-a + 0.5).Floor;
      }
    }
  }

  lemma RoundingIsOdd(x: real)
    ensures Rounded(-x) == -Rounded(x)
  {
    assert (-x) * 100.0 == -(x * 100.0);
  }

  lemma RoundOfInt(n: int)
    ensures Round(n as real) == n
  {
  }

  lemma RoundingIsIdempotent(x: real)
    ensures Rounded(Rounded(x)) == Rounded(x)
  {
    SameHundredths(x);
  }

  lemma SameHundredths(x: real)
    ensures Hundredths(Rounded(x)) == Hundredths(x)
  {
    RoundOfInt(Hundredths(x));
    assert Rounded(x) * 100.0 == Hundredths(x) as real;
  }

  // ----- Decimal digits

  predicate IsDigit(c: char) { '0' <= c <= '9' }

  predicate AllDigits(s: string) { forall i | 0 <= i < |s| :: IsDigit(s[i]) }

  function DigitValue(c: char): (d: nat)
    requires IsDigit(c)
    ensures d <= 9
  {
    c as int - '0' as int
  }

  function DigitChar(d: nat): (c: char)
    requires d <= 9
    ensures IsDigit(c) && DigitValue(c) == d
  {
    ('0' as int + d) as char
  }

  function NatOf(s: string): nat
    requires AllDigits(s)
  {
    if s == "" then 0 else NatOf(s[..|s| - 1]) * 10 + DigitValue(s[|s| - 1])
  }

  function Digits(n: nat): (s: string)
    ensures s != "" && AllDigits(s) && (n > 0 ==> s[0] != '0') && (n == 0 ==> s == "0")
  {
    if n < 10 then [DigitChar(n)] else Digits(n / 10) + [DigitChar(n % 10)]
  }

  lemma {:induction false} DigitsRoundTrip(n: nat)
    ensures NatOf(Digits(n)) == n
  {
    if n < 10 {
      assert Digits(n)[..0] == "";
    } else {
      DigitsRoundTrip(n / 10);
      assert Digits(n)[..|Digits(n)| - 1] == Digits(n / 10);
    }
  }

  function Pow10(n: nat): (p: nat)
    ensures p >= 1
  {
    if n == 0 then 1 else 10 * Pow10(n - 1)
  }

  // ----- Parsing and printing

  /** A decimal literal taken apart. */
  datatype Decimal = Decimal(negative: bool, whole: string, fraction: string)

  /** The position of the first point, or the length when there is none. */
  function PointAt(s: string): (i: nat)
    ensures i <= |s| && (i < |s| ==> s[i] == '.') && forall j | 0 <= j < i :: s[j] != '.'
  {
    if s == "" || s[0] == '.' then 0
    else
      var i := 1 + PointAt(s[1..]);
      assert forall j | 1 <= j < i :: s[j] == s[1..][j - 1];
      i
  }

  /** A text after its sign. */
  function ParseBody(negative: bool, body: string): Option<Decimal> {
    var i := PointAt(body);
    var whole, fraction := body[..i], if i < |body| then body[i + 1..] else "";
    if AllDigits(whole) && AllDigits(fraction) && |whole| + |fraction| > 0
    then Some(Decimal(negative, whole, fraction))
    else None
  }

  predicate Signed(s: string) { s != "" && (s[0] == '-' || s[0] == '+') }

  function Parse(s: string): Option<Decimal> {
    if Signed(s) then ParseBody(s[0] == '-', s[1..]) else ParseBody(false, s)
  }

  function ValueOf(d: Decimal): real
    requires AllDigits(d.whole) && AllDigits(d.fraction)
  {
    var magnitude := NatOf(d.whole) as real + NatOf(d.fraction) as real / Pow10(|d.fraction|) as real;
    if d.negative then -magnitude else magnitude
  }

  lemma ParseGivesDigits(s: string)
    ensures Parse(s).Some? ==> AllDigits(Parse(s).value.whole) && AllDigits(Parse(s).value.fraction)
  {
  }

  /** `%.2f` of a value given in hundredths; the sign is that of the number before rounding, so that
      a small negative value prints as minus zero. */
  function Print(negative: bool, hundredths: nat): string {
    (if negative then "-" else "") + Digits(hundredths / 100) + "."
    + [DigitChar(hundredths / 10 % 10), DigitChar(hundredths % 10)]
  }

  function Abs(n: int): nat { if n < 0 then -n else n }

  function PrintRounded(d: Decimal): string
    requires AllDigits(d.whole) && AllDigits(d.fraction)
  {
    Print(d.negative, Abs(Hundredths(ValueOf(d))))
  }

  /** What is stored for a reading. */
  function Stored(value: string): string {
    if |value| > 10 && Parse(value).Some? then
      ParseGivesDigits(value);
      PrintRounded(Parse(value).value)
    else value
  }

  lemma SignOfRound(d: Decimal)
    requires AllDigits(d.whole) && AllDigits(d.fraction)
    ensures d.negative ==> Hundredths(ValueOf(d)) <= 0
    ensures !d.negative ==> Hundredths(ValueOf(d)) >= 0
  {
    var a, b := NatOf(d.fraction) as real, Pow10(|d.fraction|) as real;
    assert a >= 0.0 && b >= 1.0;
    assert a / b >= 0.0;
  }

  lemma PointAfterDigits(whole: string, fraction: string)
    requires AllDigits(whole)
    ensures PointAt(whole + "." + fraction) == |whole|
  {
    var body := whole + "." + fraction;
    var i := PointAt(body);
    assert body[|whole|] == '.';
    assert forall j | 0 <= j < |whole| :: body[j] == whole[j] && IsDigit(whole[j]);
  }

  lemma ParseOfParts(negative: bool, whole: string, fraction: string)
    requires AllDigits(whole) && AllDigits(fraction) && whole != ""
    ensures Parse((if negative then "-" else "") + whole + "." + fraction) == Some(Decimal(negative, whole, fraction))
  {
    var body := whole + "." + fraction;
    var s := (if negative then "-" else "") + whole + "." + fraction;
    PointAfterDigits(whole, fraction);
    assert body[..|whole|] == whole && body[|whole| + 1..] == fraction;
    assert IsDigit(whole[0]) && body[0] == whole[0];
    if negative {
      assert s[1..] == body;
    } else {
      assert s == body;
    }
  }

  /** Digits, and a point with more digits or no point; at least one digit in all. */
  predicate SpellsBody(body: string, d: Decimal) {
    && AllDigits(d.whole) && AllDigits(d.fraction) && |d.whole| + |d.fraction| > 0
    && (body == d.whole + "." + d.fraction || (d.fraction == "" && body == d.whole))
  }

  /** The texts that spell a decimal: the same after a sign or none. */
  predicate Spells(s: string, d: Decimal) {
    || (!d.negative && SpellsBody(s, d))
    || (s != "" && s[0] == (if d.negative then '-' else '+') && SpellsBody(s[1..], d))
  }

  lemma NoPointInDigits(whole: string)
    requires AllDigits(whole)
    ensures PointAt(whole) == |whole|
  {
    assert forall j | 0 <= j < |whole| :: IsDigit(whole[j]) && whole[j] != '.';
  }

  lemma BodyIsSpelt(negative: bool, body: string, d: Decimal)
    requires ParseBody(negative, body) == Some(d)
    ensures d.negative == negative && SpellsBody(body, d)
  {
    var i := PointAt(body);
    if i < |body| {
      assert body == body[..i] + [body[i]] + body[i + 1..];
    } else {
      assert body[..i] == body;
    }
  }

  lemma SpeltBodyParses(negative: bool, body: string, d: Decimal)
    requires d.negative == negative && SpellsBody(body, d)
    ensures ParseBody(negative, body) == Some(d)
  {
    if body == d.whole + "." + d.fraction {
      PointAfterDigits(d.whole, d.fraction);
      assert body[..|d.whole|] == d.whole && body[|d.whole| + 1..] == d.fraction;
    } else {
      NoPointInDigits(d.whole);
      assert body[..|d.whole|] == d.whole;
    }
  }

  /** A spelt body starts with a digit or a point, never with a sign. */
  lemma BodyIsUnsigned(s: string, d: Decimal)
    requires SpellsBody(s, d)
    ensures !Signed(s)
  {
    if d.whole != "" {
      assert s[0] == d.whole[0] && IsDigit(d.whole[0]);
    }
  }

  /** A text parses to a decimal exactly if it spells it. */
  lemma ParseIffSpelt(s: string, d: Decimal)
    ensures Parse(s) == Some(d) <==> Spells(s, d)
  {
    if Parse(s) == Some(d) {
      if Signed(s) {
        BodyIsSpelt(s[0] == '-', s[1..], d);
      } else {
        BodyIsSpelt(false, s, d);
      }
    }
    if !d.negative && SpellsBody(s, d) {
      BodyIsUnsigned(s, d);
      SpeltBodyParses(false, s, d);
    } else if s != "" && SpellsBody(s[1..], d) {
      SpeltBodyParses(d.negative, s[1..], d);
    }
  }

  lemma TwoDigits(a: nat, b: nat)
    requires a <= 9 && b <= 9
    ensures AllDigits([DigitChar(a), DigitChar(b)]) && NatOf([DigitChar(a), DigitChar(b)]) == a * 10 + b
  {
    var s := [DigitChar(a), DigitChar(b)];
    assert s[..1] == [DigitChar(a)] && s[..1][..0] == "";
    assert NatOf(s[..1]) == a;
  }

  lemma SplitHundredths(n: nat)
    ensures n / 100 * 100 + (n / 10 % 10 * 10 + n % 10) == n
  {
    assert n / 100 == n / 10 / 10;
  }

  /** Printing and parsing again gives the sign and the hundredths back. */
  lemma PrintThenParse(negative: bool, hundredths: nat)
    ensures var p := Parse(Print(negative, hundredths));
            && p.Some? && p.value.negative == negative
            && AllDigits(p.value.whole) && AllDigits(p.value.fraction) && |p.value.fraction| == 2
            && NatOf(p.value.whole) * 100 + NatOf(p.value.fraction) == hundredths
  {
    var whole := Digits(hundredths / 100);
    var fraction := [DigitChar(hundredths / 10 % 10), DigitChar(hundredths % 10)];
    TwoDigits(hundredths / 10 % 10, hundredths % 10);
    ParseOfParts(negative, whole, fraction);
    DigitsRoundTrip(hundredths / 100);
    SplitHundredths(hundredths);
  }

  /** Two parts that make up a number of hundredths. */
  lemma ValueOfHundredths(d: Decimal, n: nat)
    requires AllDigits(d.whole) && AllDigits(d.fraction) && |d.fraction| == 2
    requires NatOf(d.whole) * 100 + NatOf(d.fraction) == n
    ensures ValueOf(d) == if d.negative then -(n as real / 100.0) else n as real / 100.0
  {
    assert Pow10(2) == 10 * Pow10(1) && Pow10(1) == 10;
    assert NatOf(d.whole) as real + NatOf(d.fraction) as real / 100.0 == n as real / 100.0;
  }

  lemma PrintedValue(negative: bool, h: int)
    requires if negative then h <= 0 else h >= 0
    ensures var p := Parse(Print(negative, Abs(h)));
            && p.Some? && AllDigits(p.value.whole) && AllDigits(p.value.fraction)
            && p.value.negative == negative && ValueOf(p.value) == h as real / 100.0
  {
    PrintThenParse(negative, Abs(h));
    ValueOfHundredths(Parse(Print(negative, Abs(h))).value, Abs(h));
  }

  /** The value printed for a long reading parses to exactly the rounded reading, with its sign. */
  lemma StoredValueIsRounded(value: string)
    requires |value| > 10 && Parse(value).Some?
    ensures Parse(Stored(value)).Some?
    ensures var d, p := Parse(value).value, Parse(Stored(value)).value;
            && AllDigits(d.whole) && AllDigits(d.fraction) && AllDigits(p.whole) && AllDigits(p.fraction)
            && p.negative == d.negative && ValueOf(p) == Rounded(ValueOf(d))
  {
    ParseGivesDigits(value);
    var d := Parse(value).value;
    SignOfRound(d);
    PrintedValue(d.negative, Hundredths(ValueOf(d)));
    assert Stored(value) == PrintRounded(d);
  }

  /** No superfluous characters: no plus sign and no leading zero. */
  predicate Canonical(s: string, d: Decimal) {
    s != "" && s[0] != '+' && (d.whole == "0" || (d.whole != "" && d.whole[0] != '0'))
  }

  lemma PrintIsCanonical(negative: bool, hundredths: nat)
    ensures var s := Print(negative, hundredths);
            Parse(s).Some? && Canonical(s, Parse(s).value)
  {
    var whole := Digits(hundredths / 100);
    var fraction := [DigitChar(hundredths / 10 % 10), DigitChar(hundredths % 10)];
    ParseOfParts(negative, whole, fraction);
    assert Print(negative, hundredths)[0] == if negative then '-' else whole[0];
    assert IsDigit(whole[0]);
  }

  /** A reading of at most ten characters, or one that spells no decimal, is stored as it came; any other
      one is replaced by the canonical text that spells it rounded, with two digits after the point. */
  lemma StoredAsItCame(value: string)
    ensures |value| <= 10 || (forall d :: !Spells(value, d)) ==> Stored(value) == value
    ensures forall d :: |value| > 10 && Spells(value, d) ==>
              exists r :: Spells(Stored(value), r) && Canonical(Stored(value), r) && |r.fraction| == 2
                          && r.negative == d.negative && ValueOf(r) == Rounded(ValueOf(d))
  {
    if Parse(value).Some? {
      ParseIffSpelt(value, Parse(value).value);
    }
    forall d | |value| > 10 && Spells(value, d)
      ensures exists r :: Spells(Stored(value), r) && Canonical(Stored(value), r) && |r.fraction| == 2
                          && r.negative == d.negative && ValueOf(r) == Rounded(ValueOf(d))
    {
      ParseIffSpelt(value, d);
      StoredValueIsRounded(value);
      PrintThenParse(d.negative, Abs(Hundredths(ValueOf(d))));
      PrintIsCanonical(d.negative, Abs(Hundredths(ValueOf(d))));
      ParseIffSpelt(Stored(value), Parse(Stored(value)).value);
    }
  }

  /** Storing a stored value again changes nothing. */
  lemma StoringIsIdempotent(value: string)
    ensures Stored(Stored(value)) == Stored(value)
  {
    if |value| > 10 && Parse(value).Some? {
      StoredValueIsRounded(value);
      var d, p := Parse(value).value, Parse(Stored(value)).value;
      SameHundredths(ValueOf(d));
      assert Stored(value) == PrintRounded(d) == PrintRounded(p);
    }
  }
}
