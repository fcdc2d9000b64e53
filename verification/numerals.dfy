/**
 Decimal numerals as the Java standard library writes and reads them:
 `%d` and `%,d` rendering (with ',' as the grouping separator),
 `Integer.parseInt`, the plain-decimal part of `Double.parseDouble`, the
 `(long)` cast of a non-integral amount and `%.0f` rounding.
 */
module Numerals {
  import opened Wrappers
  import opened Text

  /** Bounds of a Java `int`. */
  const MinInt: int := -0x8000_0000
  const MaxInt: int := 0x7fff_ffff

  /** Java `int` arithmetic: `x` wrapped into the `int` range modulo 2^32,
      as a sum of two `int`s is stored. */
  function WrapInt(x: int): (r: int)
    ensures MinInt <= r <= MaxInt
    ensures (x - r) % 0x1_0000_0000 == 0
    ensures MinInt <= x <= MaxInt ==> r == x
  {
    (x - MinInt) % 0x1_0000_0000 + MinInt
  }

  /** A value that overshoots the `int` range by less than 2^32 wraps to
      itself less 2^32. */
  lemma WrapAbove(x: int)
    requires MaxInt < x <= MaxInt + 0x1_0000_0000
    ensures WrapInt(x) == x - 0x1_0000_0000
  {
    assert (x - MinInt) % 0x1_0000_0000 == x - MinInt - 0x1_0000_0000;
  }

  predicate IsDigit(c: char) {
    '0' <= c <= '9'
  }

  predicate AllDigits(s: string) {
    forall i :: 0 <= i < |s| ==> IsDigit(s[i])
  }

  function DigitValue(c: char): (d: nat)
    requires IsDigit(c)
    ensures d < 10
  {
    c as int - '0' as int
  }

  function DigitChar(d: nat): (c: char)
    requires d < 10
    ensures IsDigit(c) && DigitValue(c) == d
  {
    ('0' as int + d) as char
  }

  function Pow10(n: nat): (r: nat)
    ensures r >= 1
  {
    if n == 0 then 1 else 10 * Pow10(n - 1)
  }

  /** `%d` of a non-negative value: its digits, most significant first, with
      no leading zero except for zero itself. */
  function NatToString(n: nat): (s: string)
    ensures 1 <= |s| && AllDigits(s)
    ensures s[0] == '0' <==> n == 0
    decreases n
  {
    if n < 10 then [DigitChar(n)] else NatToString(n / 10) + [DigitChar(n % 10)]
  }

  /** `%d` of any value: a '-' in front of a negative one. */
  function IntToString(n: int): (s: string)
  {
    if n < 0 then "-" + NatToString(-n) else NatToString(n)
  }

  /** The value of a string of digits, most significant first. */
  function DigitsValue(s: string): nat
    requires AllDigits(s)
  {
    if |s| == 0 then 0 else 10 * DigitsValue(s[..|s| - 1]) + DigitValue(s[|s| - 1])
  }

  /** Reading back a rendered natural number gives the number. */
  lemma {:induction false} NatToStringRoundTrip(n: nat)
    ensures DigitsValue(NatToString(n)) == n
    decreases n
  {
    if n >= 10 {
      var s := NatToString(n);
      assert s[..|s| - 1] == NatToString(n / 10);
      NatToStringRoundTrip(n / 10);
    }
  }

  lemma {:induction false} DigitsValuePositive(s: string)
    requires 1 <= |s| && AllDigits(s) && s[0] != '0'
    ensures DigitsValue(s) >= 1
    decreases |s|
  {
    if |s| > 1 {
      DigitsValuePositive(s[..|s| - 1]);
    }
  }

  /** Rendering the value of a digit string without leading zeros gives the
      string back: `NatToString` and `DigitsValue` are inverse bijections. */
  lemma {:induction false} DigitsValueRoundTrip(s: string)
    requires 1 <= |s| && AllDigits(s)
    requires s[0] == '0' ==> |s| == 1
    ensures NatToString(DigitsValue(s)) == s
    decreases |s|
  {
    if |s| > 1 {
      var p := s[..|s| - 1];
      DigitsValuePositive(p);
      DigitsValueRoundTrip(p);
      var n := DigitsValue(s);
      assert n / 10 == DigitsValue(p) && n % 10 == DigitValue(s[|s| - 1]);
      assert s == p + [s[|s| - 1]];
    }
  }

  /** `d` with a ',' before every third digit from the right, as the `,` flag
      of `%,d` writes it. */
  function Group(d: string): string
    decreases |d|
  {
    if |d| <= 3 then d else Group(d[..|d| - 3]) + "," + d[|d| - 3..]
  }

  /** Grouping only inserts commas: removing them undoes it. */
  lemma {:induction false} GroupStrips(d: string)
    ensures StripCommas(Group(d)) == StripCommas(d)
    decreases |d|
  {
    if |d| > 3 {
      var head, tail := d[..|d| - 3], d[|d| - 3..];
      GroupStrips(head);
      calc {
        StripCommas(Group(d));
        StripCommas(Group(head) + "," + tail);
        { StripCommasAppend(Group(head) + ",", tail); StripCommasAppend(Group(head), ","); }
        StripCommas(head) + StripCommas(tail);
        { StripCommasAppend(head, tail); assert d == head + tail; }
        StripCommas(d);
      }
    }
  }

  /** Grouping adds one comma per full group of three digits beyond the first. */
  lemma {:induction false} GroupLength(d: string)
    requires |d| >= 1
    ensures |Group(d)| == |d| + (|d| - 1) / 3
    decreases |d|
  {
    if |d| > 3 {
      GroupLength(d[..|d| - 3]);
      assert (|d| - 1) / 3 == (|d| - 4) / 3 + 1;
    }
  }

  /** `%,d`: the sign, then the grouped digits of the magnitude. */
  function GroupedInt(n: int): (s: string)
  {
    if n < 0 then "-" + Group(NatToString(-n)) else Group(NatToString(n))
  }

  /** Stripping the grouping commas off `%,d` gives `%d`. */
  lemma GroupedIntStripsToPlain(n: int)
    ensures StripCommas(GroupedInt(n)) == IntToString(n)
  {
    var m := if n < 0 then -n else n;
    var d := NatToString(m);
    assert ',' !in d by {
      assert forall i :: 0 <= i < |d| ==> d[i] != ',';
    }
    GroupStrips(d);
    StripCommasKeeps(d);
    if n < 0 {
      StripCommasAppend("-", Group(d));
      assert StripCommas("-") == "-";
    }
  }

  /** Signed decimal text with an unbounded value: an optional '+' or '-'
      followed by at least one digit. */
  function ParseSigned(s: string): (r: Option<int>)
  {
    if |s| > 0 && (s[0] == '-' || s[0] == '+') then
      var body := s[1..];
      if |body| > 0 && AllDigits(body) then
        var v: int := DigitsValue(body);
        Some(if s[0] == '-' then -v else v)
      else None
    else if |s| > 0 && AllDigits(s) then Some(DigitsValue(s))
    else None
  }

  /** `Integer.parseInt(s)`: `None` stands for the `NumberFormatException`
      thrown on malformed text or on a value outside the `int` range. */
  function ParseInt(s: string): (r: Option<int>)
    ensures r.Some? ==> MinInt <= r.value <= MaxInt
    ensures r.Some? ==> ParseSigned(s) == r
    ensures r.None? && ParseSigned(s).Some? ==> !(MinInt <= ParseSigned(s).value <= MaxInt)
  {
    match ParseSigned(s)
    case Some(v) => if MinInt <= v <= MaxInt then Some(v) else None
    case None => None
  }

  /** Every rendered integer reads back as itself. */
  lemma ParseSignedRoundTrip(n: int)
    ensures ParseSigned(IntToString(n)) == Some(n)
  {
    var m := if n < 0 then -n else n;
    NatToStringRoundTrip(m);
    if n < 0 {
      assert ("-" + NatToString(m))[1..] == NatToString(m);
    }
  }

  /** `Integer.parseInt` inverts `%d` exactly on the `int` range and throws
      outside it. */
  lemma ParseIntRoundTrip(n: int)
    ensures ParseInt(IntToString(n)) == (if MinInt <= n <= MaxInt then Some(n) else None)
  {
    ParseSignedRoundTrip(n);
  }

  /** The index of the first `c` in `s`, if any. */
  function IndexOf(s: string, c: char): (r: Option<nat>)
    ensures r.Some? ==> r.value < |s| && s[r.value] == c && c !in s[..r.value]
    ensures r.None? ==> c !in s
  {
    if |s| == 0 then None
    else if s[0] == c then Some(0)
    else
      match IndexOf(s[1..], c)
      case Some(i) => assert s[..i + 1] == [s[0]] + s[1..][..i]; Some(i + 1)
      case None => assert s == [s[0]] + s[1..]; None
  }

  /** A decimal without sign: digits, optionally a '.' and more digits, with at
      least one digit in all. */
  function ParseUnsignedDecimal(s: string): (r: Option<real>)
    ensures r.Some? ==> r.value >= 0.0
  {
    match IndexOf(s, '.')
    case None =>
      if |s| > 0 && AllDigits(s) then Some(DigitsValue(s) as real) else None
    case Some(i) =>
      var whole := s[..i];
      var frac := s[i + 1..];
      if AllDigits(whole) && AllDigits(frac) && |whole| + |frac| > 0 then
        Some(DigitsValue(whole) as real + DigitsValue(frac) as real / Pow10(|frac|) as real)
      else None
  }

  /** `Double.parseDouble(s)` on plain decimal text `[+-]?(d+(.d*)?|.d+)`,
      with the exact value instead of the nearest double; `None` stands for
      the `NumberFormatException`. */
  function ParseDecimal(s: string): (r: Option<real>)
  {
    if |s| > 0 && (s[0] == '-' || s[0] == '+') then
      match ParseUnsignedDecimal(s[1..])
      case Some(v) => Some(if s[0] == '-' then -v else v)
      case None => None
    else ParseUnsignedDecimal(s)
  }

  /** Every `%d` rendering reads back through `Double.parseDouble` as its
      value. */
  lemma ParseDecimalOfInt(n: int)
    ensures ParseDecimal(IntToString(n)) == Some(n as real)
  {
    var m := if n < 0 then -n else n;
    var d := NatToString(m);
    NatToStringRoundTrip(m);
    assert '.' !in d by {
      assert forall i :: 0 <= i < |d| ==> d[i] != '.';
    }
    assert ParseUnsignedDecimal(d) == Some(m as real);
    if n < 0 {
      assert ("-" + d)[1..] == d;
    }
  }

  /** An amount shown with `%,d`, with its commas removed as the cash field's
      input is, reads back as the amount. */
  lemma ParseDecimalOfGrouped(n: int)
    ensures ParseDecimal(StripCommas(GroupedInt(n))) == Some(n as real)
  {
    GroupedIntStripsToPlain(n);
    ParseDecimalOfInt(n);
  }

  /** Java's `(long)` cast of a double, without its saturation at the `long`
      range: truncation toward zero. */
  function JavaLong(x: real): (r: int)
    ensures 0.0 <= x ==> 0 <= r && r as real <= x < r as real + 1.0
    ensures x < 0.0 ==> r <= 0 && r as real - 1.0 < x <= r as real
  {
    if x >= 0.0 then x.Floor else -((-x).Floor)
  }

  /** The integer `%.0f` prints for `x`: the nearest one, halves away from zero
      (`RoundingMode.HALF_UP`). */
  function RoundHalfUp(x: real): (r: int)
    ensures 0.0 <= x ==> r as real - 0.5 <= x < r as real + 0.5
    ensures x < 0.0 ==> r as real - 0.5 < x <= r as real + 0.5
  {
    if x >= 0.0 then (x + 0.5).Floor else -((-x + 0.5).Floor)
  }

  /** `String.format("%.0f", x)`: a negative value that rounds to zero keeps
      its sign ("-0"). */
  function FormatFixed0(x: real): (s: string)
    ensures ParseDecimal(s) == Some(RoundHalfUp(x) as real)
  {
    if x < 0.0 && RoundHalfUp(x) == 0 then
      assert "-0"[1..] == "0";
      assert IndexOf("0", '.') == None;
      "-0"
    else
      ParseDecimalOfInt(RoundHalfUp(x));
      IntToString(RoundHalfUp(x))
  }
}
