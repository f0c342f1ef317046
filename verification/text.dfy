/** Python's string comparison (lexicographic by code point) and the integer
    parsing that `astype(int)` applies to a season identifier's prefix. */
module Text {
  import opened Wrappers

  /** `a < b` on Python strings: a proper prefix is smaller, otherwise the first
      differing character decides. */
  predicate Less(a: string, b: string)
    decreases |a|
  {
    if |a| == 0 then |b| > 0
    else if |b| == 0 then false
    else if a[0] != b[0] then a[0] < b[0]
    else Less(a[1..], b[1..])
  }

  predicate AtMost(a: string, b: string) {
    a == b || Less(a, b)
  }

  lemma {:induction false} LessIrreflexive(a: string)
    ensures !Less(a, a)
    decreases |a|
  {
    if |a| > 0 {
      LessIrreflexive(a[1..]);
    }
  }

  lemma {:induction false} LessTransitive(a: string, b: string, c: string)
    requires Less(a, b) && Less(b, c)
    ensures Less(a, c)
    decreases |a|
  {
    if |a| > 0 && a[0] == b[0] && b[0] == c[0] {
      LessTransitive(a[1..], b[1..], c[1..]);
    }
  }

  lemma {:induction false} LessTotal(a: string, b: string)
    ensures a == b || Less(a, b) || Less(b, a)
    decreases |a|
  {
    if |a| > 0 && |b| > 0 && a[0] == b[0] {
      LessTotal(a[1..], b[1..]);
      if a[1..] == b[1..] {
        assert a == [a[0]] + a[1..] && b == [b[0]] + b[1..];
      }
    }
  }

  lemma LessAsymmetric(a: string, b: string)
    requires Less(a, b)
    ensures !Less(b, a) && a != b
  {
    LessIrreflexive(a);
    if Less(b, a) {
      LessTransitive(a, b, a);
    }
  }

  lemma AtMostTransitive(a: string, b: string, c: string)
    requires AtMost(a, b) && AtMost(b, c)
    ensures AtMost(a, c)
  {
    if Less(a, b) && Less(b, c) {
      LessTransitive(a, b, c);
    }
  }

  /** `Series.max()` of a non-empty string column. */
  function Greatest(xs: seq<string>): (m: string)
    requires |xs| > 0
    ensures m in xs
    ensures forall i :: 0 <= i < |xs| ==> AtMost(xs[i], m)
  {
    if |xs| == 1 then xs[0]
    else
      var rest := Greatest(xs[1..]);
      assert forall i :: 1 <= i < |xs| ==> xs[i] == xs[1..][i - 1];
      if Less(xs[0], rest) then
        assert forall i :: 1 <= i < |xs| ==> AtMost(xs[i], rest);
        rest
      else
        LessTotal(xs[0], rest);
        assert forall i :: 1 <= i < |xs| ==> AtMost(xs[i], xs[0]) by {
          forall i | 1 <= i < |xs|
            ensures AtMost(xs[i], xs[0])
          {
            AtMostTransitive(xs[i], rest, xs[0]);
          }
        }
        xs[0]
  }

  predicate IsDigit(c: char) {
    '0' <= c <= '9'
  }

  predicate AllDigits(s: string) {
    forall i :: 0 <= i < |s| ==> IsDigit(s[i])
  }

  /** The decimal value of a string of ASCII digits. */
  function DigitsValue(s: string): nat
    requires AllDigits(s)
  {
    if |s| == 0 then 0
    else DigitsValue(s[..|s| - 1]) * 10 + (s[|s| - 1] as int - '0' as int)
  }

  /** What `int` accepts: an optional sign followed by at least one ASCII
      digit. */
  predicate IntLiteral(s: string) {
    var digits := if |s| > 0 && (s[0] == '-' || s[0] == '+') then s[1..] else s;
    |digits| > 0 && AllDigits(digits)
  }

  /** `int(s)` for an optionally signed run of ASCII digits; anything else is
      the ValueError `int` raises. */
  function ParseInt(s: string): (r: Option<int>)
    ensures r.Some? <==> IntLiteral(s)
    ensures r.Some? && r.value < 0 ==> s[0] == '-'
  {
    if |s| > 0 && (s[0] == '-' || s[0] == '+') then
      var digits := s[1..];
      if |digits| > 0 && AllDigits(digits) then
        var n: int := DigitsValue(digits);
        Some(if s[0] == '-' then -n else n)
      else None
    else if |s| > 0 && AllDigits(s) then Some(DigitsValue(s))
    else None
  }

  function Digit(d: nat): (c: char)
    requires d < 10
    ensures IsDigit(c) && c as int - '0' as int == d
  {
    ('0' as int + d) as char
  }

  /** A year written as exactly four digits, the first part of a `YYYY-YY`
      season identifier. */
  function FourDigits(y: nat): (s: string)
    requires y < 10000
    ensures |s| == 4 && AllDigits(s)
  {
    [Digit(y / 1000), Digit(y / 100 % 10), Digit(y / 10 % 10), Digit(y % 10)]
  }

  /** `str(n)`: the shortest decimal rendering, with a minus sign for a
      negative number. */
  function IntText(n: int): string {
    if n < 0 then "-" + Decimal(-n) else Decimal(n)
  }

  function Decimal(n: nat): (s: string)
    ensures |s| > 0 && AllDigits(s)
  {
    if n < 10 then [Digit(n)] else Decimal(n / 10) + [Digit(n % 10)]
  }

  lemma {:induction false} DecimalValue(n: nat)
    ensures DigitsValue(Decimal(n)) == n
  {
    if n >= 10 {
      DecimalValue(n / 10);
      var s := Decimal(n);
      assert s[..|s| - 1] == Decimal(n / 10);
    }
  }

  /** `int(str(n)) == n` for every integer. */
  lemma ParseIntRoundTrip(n: int)
    ensures ParseInt(IntText(n)) == Some(n)
  {
    var s := IntText(n);
    if n < 0 {
      var d := Decimal(-n);
      DecimalValue(-n);
      assert s == "-" + d && s[0] == '-' && s[1..] == d;
    } else {
      DecimalValue(n);
      assert IsDigit(s[0]);
    }
  }

  function Pow10(k: nat): nat {
    if k == 0 then 1 else 10 * Pow10(k - 1)
  }

  /** A run of k digits is below 10^k. */
  lemma {:induction false} DigitsValueBound(s: string)
    requires AllDigits(s)
    ensures DigitsValue(s) < Pow10(|s|)
  {
    if |s| > 0 {
      var init := s[..|s| - 1];
      assert forall i :: 0 <= i < |init| ==> init[i] == s[i];
      DigitsValueBound(init);
    }
  }

  lemma {:induction false} Pow10Monotone(a: nat, b: nat)
    requires a <= b
    ensures Pow10(a) <= Pow10(b)
  {
    if a < b {
      Pow10Monotone(a, b - 1);
    }
  }

  /** Parsing at most `k` characters gives a value of at most k digits, and
      of at most k - 1 digits when it is negative. */
  lemma ParseIntBound(s: string, k: nat)
    requires 0 < k && |s| <= k && ParseInt(s).Some?
    ensures -(Pow10(k - 1) as int) < ParseInt(s).value < Pow10(k)
  {
    if s[0] == '-' || s[0] == '+' {
      DigitsValueBound(s[1..]);
      Pow10Monotone(|s| - 1, k - 1);
      Pow10Monotone(k - 1, k);
    } else {
      DigitsValueBound(s);
      Pow10Monotone(|s|, k);
    }
  }

  /** Parsing a four-digit rendering gives the year back. */
  lemma FourDigitsRoundTrip(y: nat)
    requires y < 10000
    ensures ParseInt(FourDigits(y)) == Some(y)
  {
    var s := FourDigits(y);
    var a, b, c, d := y / 1000, y / 100 % 10, y / 10 % 10, y % 10;
    assert s[..3][..2] == s[..2] && s[..2][..1] == s[..1] && s[..1][..0] == [];
    assert DigitsValue(s[..1]) == a;
    assert DigitsValue(s[..2]) == a * 10 + b;
    assert DigitsValue(s[..3]) == (a * 10 + b) * 10 + c;
    assert s[..4] == s;
    assert DigitsValue(s) == ((a * 10 + b) * 10 + c) * 10 + d;
    DecimalExpansion(y);
  }

  lemma DecimalExpansion(y: nat)
    requires y < 10000
    ensures ((y / 1000 * 10 + y / 100 % 10) * 10 + y / 10 % 10) * 10 + y % 10 == y
  {
    var q := y / 10;
    assert q / 10 == y / 100 && q / 100 == y / 1000;
    assert (y / 100) / 10 == y / 1000;
  }
}
