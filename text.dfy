/**
 * Character-level helpers: decimal digits, Python's ordering of `str`
 * values, and the few renderings the service puts into its messages.
 */
module Text {

  predicate IsDigit(c: char) { '0' <= c <= '9' }

  predicate AllDigits(s: string) { forall i :: 0 <= i < |s| ==> IsDigit(s[i]) }

  function DigitValue(c: char): (d: nat)
    requires IsDigit(c)
    ensures d < 10
  {
    c as int - '0' as int
  }

  function DigitChar(d: nat): (c: char)
    requires d < 10
    ensures IsDigit(c) && DigitValue(c) == d
  {
    ('0' as int + d) as char
  }

  /** The number a run of decimal digits denotes, most significant first. */
  function DigitsValue(s: string): nat
    requires AllDigits(s)
  {
    if s == [] then 0 else DigitsValue(s[..|s| - 1]) * 10 + DigitValue(s[|s| - 1])
  }

  function Pow10(k: nat): (p: nat)
    ensures p >= 1
  {
    if k == 0 then 1 else 10 * Pow10(k - 1)
  }

  /** Python's `str(n)` for a natural number. */
  function NatToString(n: nat): (s: string)
    ensures 1 <= |s| && AllDigits(s)
  {
    if n < 10 then [DigitChar(n)] else NatToString(n / 10) + [DigitChar(n % 10)]
  }

  /** The last `width` decimal digits of `n`, zero-filled: `f"{n:0{width}d}"` for small `n`. */
  function ZeroPadded(n: nat, width: nat): (s: string)
    ensures |s| == width && AllDigits(s)
  {
    if width == 0 then [] else ZeroPadded(n / 10, width - 1) + [DigitChar(n % 10)]
  }

  /** Reading back the decimal rendering of a number gives the number. */
  lemma {:induction false} NatToStringRoundTrip(n: nat)
    ensures DigitsValue(NatToString(n)) == n
  {
    var s := NatToString(n);
    if n >= 10 {
      NatToStringRoundTrip(n / 10);
      assert s[..|s| - 1] == NatToString(n / 10);
    }
  }

  /** A zero-filled rendering wide enough for the number reads back as the number. */
  lemma {:induction false} ZeroPaddedRoundTrip(n: nat, width: nat)
    requires n < Pow10(width)
    ensures DigitsValue(ZeroPadded(n, width)) == n
  {
    if width > 0 {
      var s := ZeroPadded(n, width);
      ZeroPaddedRoundTrip(n / 10, width - 1);
      assert s[..|s| - 1] == ZeroPadded(n / 10, width - 1);
    }
  }

  /** Python's `<` on `str`: lexicographic by code point, a proper prefix first. */
  predicate Less(a: string, b: string)
  {
    if a == [] then b != []
    else if b == [] then false
    else if a[0] != b[0] then a[0] < b[0]
    else Less(a[1..], b[1..])
  }

  lemma {:induction false} LessIrreflexive(a: string)
    ensures !Less(a, a)
  {
    if a != [] { LessIrreflexive(a[1..]); }
  }

  lemma {:induction false} LessAsymmetric(a: string, b: string)
    ensures Less(a, b) ==> !Less(b, a)
  {
    if a != [] && b != [] && a[0] == b[0] { LessAsymmetric(a[1..], b[1..]); }
  }

  lemma {:induction false} LessTransitive(a: string, b: string, c: string)
    requires Less(a, b) && Less(b, c)
    ensures Less(a, c)
  {
    if a != [] && a[0] == b[0] && b[0] == c[0] {
      LessTransitive(a[1..], b[1..], c[1..]);
    }
  }

  lemma {:induction false} LessTotal(a: string, b: string)
    ensures a == b || Less(a, b) || Less(b, a)
  {
    if a != [] && b != [] && a[0] == b[0] {
      LessTotal(a[1..], b[1..]);
      if a[1..] == b[1..] {
        assert a == [a[0]] + a[1..] && b == [b[0]] + b[1..];
      }
    }
  }

  /** `sep.join(parts)`. */
  function Join(sep: string, parts: seq<string>): string
  {
    if parts == [] then ""
    else if |parts| == 1 then parts[0]
    else parts[0] + sep + Join(sep, parts[1..])
  }

  /** Python's `repr` of a list of strings that need no escaping: `['a', 'b']`. */
  function ListRepr(items: seq<string>): string
  {
    "[" + Join(", ", QuoteAll(items)) + "]"
  }

  function QuoteAll(items: seq<string>): (r: seq<string>)
    ensures |r| == |items|
  {
    if items == [] then [] else ["'" + items[0] + "'"] + QuoteAll(items[1..])
  }
}
