/**
 String helpers shared by the renderer and the input parsers: Java's
 `String.repeat`, the `%-Ns` / `%Ns` width flags of `String.format`, and
 `String.replace(",", "")`.
 */
module Text {

  /** `c` repeated `n` times, as `String.valueOf(c).repeat(n)`. */
  function Repeat(c: char, n: nat): (r: string)
    ensures |r| == n
  {
    if n == 0 then "" else [c] + Repeat(c, n - 1)
  }

  /** Every character of `Repeat(c, n)` is `c`. */
  lemma {:induction false} RepeatChars(c: char, n: nat)
    ensures forall i :: 0 <= i < n ==> Repeat(c, n)[i] == c
    decreases n
  {
    if n > 0 {
      RepeatChars(c, n - 1);
    }
  }

  /** `String.format("%-<width>s", s)`: pads on the right with spaces up to
      `width`, leaves longer text as it is. */
  function PadRight(s: string, width: nat): (r: string)
    ensures |r| == if |s| < width then width else |s|
    ensures r[..|s|] == s
    ensures forall i :: |s| <= i < |r| ==> r[i] == ' '
  {
    if |s| < width then RepeatChars(' ', width - |s|); s + Repeat(' ', width - |s|) else s
  }

  /** `String.format("%<width>s", s)`: pads on the left with spaces up to
      `width`, leaves longer text as it is. */
  function PadLeft(s: string, width: nat): (r: string)
    ensures |r| == if |s| < width then width else |s|
    ensures r[|r| - |s|..] == s
    ensures forall i :: 0 <= i < |r| - |s| ==> r[i] == ' '
  {
    if |s| < width then RepeatChars(' ', width - |s|); Repeat(' ', width - |s|) + s else s
  }

  /** `s.replace(",", "")`: every character of `s` except the commas, in order. */
  function StripCommas(s: string): string {
    if |s| == 0 then ""
    else (if s[0] == ',' then "" else [s[0]]) + StripCommas(s[1..])
  }

  /** Removing commas leaves no comma, keeps every other character with its
      multiplicity, and changes nothing in text without commas. */
  lemma {:induction false} StripCommasKeeps(s: string)
    ensures ',' !in StripCommas(s)
    ensures ',' !in s ==> StripCommas(s) == s
    ensures |StripCommas(s)| <= |s|
    ensures forall c :: c != ',' ==> multiset(StripCommas(s))[c] == multiset(s)[c]
    decreases |s|
  {
    if |s| > 0 {
      StripCommasKeeps(s[1..]);
      assert s == [s[0]] + s[1..];
    }
  }

  /** Removing commas commutes with concatenation. */
  lemma {:induction false} StripCommasAppend(a: string, b: string)
    ensures StripCommas(a + b) == StripCommas(a) + StripCommas(b)
    decreases |a|
  {
    if |a| == 0 {
      assert a + b == b;
    } else {
      assert (a + b)[0] == a[0];
      assert (a + b)[1..] == a[1..] + b;
      StripCommasAppend(a[1..], b);
    }
  }
}
