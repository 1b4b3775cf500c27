/**
 * The string operations the Python code uses: `' ' * n`, `sep.join(parts)`,
 * `str.isdigit`, `int(s)`, `str(n)`, `p in s`, `s.replace(p, '')`,
 * `s.count(c)` and `os.path.basename`.
 */
module Strings {
  import opened Wrappers

  /** `' ' * n`: a non-positive count gives the empty string. */
  function Spaces(n: int): (r: string)
    ensures |r| == if n <= 0 then 0 else n
    ensures forall i :: 0 <= i < |r| ==> r[i] == ' '
  {
    if n <= 0 then "" else Spaces(n - 1) + " "
  }

  /** `sep.join(parts)`. */
  function Join(sep: string, parts: seq<string>): (text: string) {
    if |parts| == 0 then ""
    else if |parts| == 1 then parts[0]
    else parts[0] + sep + Join(sep, parts[1..])
  }

  lemma {:induction false} JoinAppend(sep: string, a: seq<string>, b: seq<string>)
    requires |a| > 0 && |b| > 0
    ensures Join(sep, a + b) == Join(sep, a) + sep + Join(sep, b)
  {
    if |a| == 1 {
      assert (a + b)[1..] == b;
    } else {
      assert (a + b)[1..] == a[1..] + b;
      JoinAppend(sep, a[1..], b);
    }
  }

  /** A part list between a first and a last part joins to the three texts separated by `sep`. */
  lemma JoinFramed(sep: string, first: string, mid: seq<string>, last: string)
    requires |mid| > 0
    ensures Join(sep, [first] + mid + [last]) == first + sep + Join(sep, mid) + sep + last
  {
    JoinAppend(sep, [first] + mid, [last]);
    JoinAppend(sep, [first], mid);
  }

  predicate IsDigit(c: char) {
    '0' <= c <= '9'
  }

  predicate AllDigits(s: string) {
    forall i :: 0 <= i < |s| ==> IsDigit(s[i])
  }

  /** `s.isdigit()` over ASCII digits: false for the empty string. */
  predicate IsDigits(s: string) {
    |s| > 0 && AllDigits(s)
  }

  /** The decimal value of a string of digits. */
  function DigitsValue(s: string): (r: nat)
    requires AllDigits(s)
  {
    if |s| == 0 then 0
    else DigitsValue(s[..|s| - 1]) * 10 + ((s[|s| - 1] as int) - ('0' as int))
  }

  function DigitChar(d: nat): (c: char)
    requires d < 10
    ensures IsDigit(c) && (c as int) - ('0' as int) == d
  {
    (('0' as int) + d) as char
  }

  /** `str(n)` for a natural number. */
  function NatToString(n: nat): (r: string) {
    if n < 10 then [DigitChar(n)] else NatToString(n / 10) + [DigitChar(n % 10)]
  }

  /** Parsing back what `str` printed gives the number again. */
  lemma {:induction false} NatToStringRoundTrip(n: nat)
    ensures IsDigits(NatToString(n)) && DigitsValue(NatToString(n)) == n
  {
    if n >= 10 {
      NatToStringRoundTrip(n / 10);
      var s := NatToString(n);
      assert s[..|s| - 1] == NatToString(n / 10);
    }
  }

  /** `str(i)` for an integer. */
  function IntToString(i: int): (r: string) {
    if i < 0 then "-" + NatToString(-i) else NatToString(i)
  }

  /** `int(s)`: an optional sign followed by ASCII digits; anything else raises `ValueError` (None here). */
  function ParseInt(s: string): (r: Option<int>) {
    if IsDigits(s) then Some(DigitsValue(s))
    else if |s| > 1 && (s[0] == '-' || s[0] == '+') && IsDigits(s[1..]) then
      var v: int := DigitsValue(s[1..]);
      Some(if s[0] == '-' then -v else v)
    else None
  }

  lemma {:induction false} ParseIntToString(i: int)
    ensures ParseInt(IntToString(i)) == Some(i)
  {
    if i < 0 {
      NatToStringRoundTrip(-i);
      var s := IntToString(i);
      assert s[1..] == NatToString(-i);
      assert !IsDigit(s[0]);
    } else {
      NatToStringRoundTrip(i);
    }
  }

  predicate IsPrefix(p: string, s: string) {
    |p| <= |s| && s[..|p|] == p
  }

  /** `p in s`: the empty string is in every string. */
  predicate Contains(s: string, p: string)
    decreases |s|
  {
    IsPrefix(p, s) || (|s| > 0 && Contains(s[1..], p))
  }

  /** `s.replace(p, '')`: drops the non-overlapping occurrences of `p`, scanning left to right. */
  function RemoveAll(s: string, p: string): (r: string)
    decreases |s|
  {
    if |p| == 0 || |s| == 0 then s
    else if IsPrefix(p, s) then RemoveAll(s[|p|..], p)
    else [s[0]] + RemoveAll(s[1..], p)
  }

  /** `s.count(c)` for a single character. */
  function CountChar(s: string, c: char): (r: nat) {
    if |s| == 0 then 0 else (if s[0] == c then 1 else 0) + CountChar(s[1..], c)
  }

  /** The position just after the last `/` of `p` (0 when there is none). */
  function ComponentStart(p: string): (k: nat)
    ensures k <= |p|
  {
    if |p| == 0 || p[|p| - 1] == '/' then |p| else ComponentStart(p[..|p| - 1])
  }

  /** `posixpath.basename(p)`: what follows the last `/`. */
  function Basename(p: string): (r: string) {
    p[ComponentStart(p)..]
  }

  /** The base name is the longest suffix without a `/`: free of `/`, and preceded by `/` when shorter than the path. */
  lemma {:induction false} BasenameIsLastComponent(p: string)
    ensures |Basename(p)| <= |p| && Basename(p) == p[|p| - |Basename(p)|..]
    ensures forall i :: 0 <= i < |Basename(p)| ==> Basename(p)[i] != '/'
    ensures |Basename(p)| < |p| ==> p[|p| - |Basename(p)| - 1] == '/'
  {
    if |p| > 0 && p[|p| - 1] != '/' {
      var q := p[..|p| - 1];
      BasenameIsLastComponent(q);
      assert ComponentStart(p) == ComponentStart(q);
      assert Basename(p) == Basename(q) + [p[|p| - 1]];
    }
  }
}
