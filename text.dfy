/**
 * Text operations the handler relies on: Python's `str.lower()`, the
 * substring test `p in s`, the slice `s[:n]`, `str.strip()`, `str(int)`
 * and the decoding of captured bytes.
 */
module Text {
  import opened Wrappers

  /** One byte of a captured stream. */
  newtype Byte = b: int | 0 <= b < 0x100

  // ---------------------------------------------------------------- lower()

  predicate IsUpper(c: char) { 'A' <= c <= 'Z' }

  function LowerChar(c: char): char
  {
    if IsUpper(c) then (c as int + 32) as char else c
  }

  /** `s.lower()` on the ASCII letters. */
  function Lower(s: string): (r: string)
    ensures |r| == |s|
    ensures forall i :: 0 <= i < |s| ==> r[i] == LowerChar(s[i])
    ensures forall i :: 0 <= i < |r| ==> !IsUpper(r[i])
  {
    if s == [] then [] else [LowerChar(s[0])] + Lower(s[1..])
  }

  /** Lowering a string that has no upper-case letter leaves it as it is. */
  lemma LowerKeepsLowercase(s: string)
    requires forall i :: 0 <= i < |s| ==> !IsUpper(s[i])
    ensures Lower(s) == s
  {
  }

  // ------------------------------------------------------------- p in s

  /** `p` occurs in `s` starting at index `i`. */
  predicate OccursAt(p: string, s: string, i: int)
  {
    0 <= i && i + |p| <= |s| && s[i..i + |p|] == p
  }

  /** Python's substring test `p in s`, scanning from the left. */
  function Occurs(p: string, s: string): (r: bool)
    ensures r <==> exists i :: OccursAt(p, s, i)
    decreases |s|
  {
    if |s| < |p| then false
    else if s[..|p|] == p then assert OccursAt(p, s, 0); true
    else
      OccursShift(p, s);
      Occurs(p, s[1..])
  }

  /** An occurrence in `s` not at index 0 is an occurrence in `s[1..]`, and back. */
  lemma OccursShift(p: string, s: string)
    requires |p| <= |s| && s[..|p|] != p
    ensures (exists i :: OccursAt(p, s, i)) <==> (exists j :: OccursAt(p, s[1..], j))
  {
    forall i | OccursAt(p, s, i)
      ensures OccursAt(p, s[1..], i - 1)
    {
      assert i != 0;
      assert s[1..][i - 1..i - 1 + |p|] == s[i..i + |p|];
    }
    forall j | OccursAt(p, s[1..], j)
      ensures OccursAt(p, s, j + 1)
    {
      assert s[1..][j..j + |p|] == s[j + 1..j + 1 + |p|];
    }
  }

  // --------------------------------------------------------------- s[:n]

  /** Python's slice `s[:n]` for a non-negative `n`: the first `n` elements, or all of them. */
  function Take<T>(s: seq<T>, n: nat): (r: seq<T>)
    ensures |r| == if |s| < n then |s| else n
    ensures r == s[..|r|]
  {
    if |s| <= n then s else s[..n]
  }

  // ------------------------------------------------------------- strip()

  /** The characters below 128 that `str.isspace()` accepts: TAB..CR, FS..US and space. */
  predicate IsSpace(c: char)
  {
    9 <= c as int <= 13 || 28 <= c as int <= 32
  }

  predicate AllSpace(s: string)
  {
    forall i :: 0 <= i < |s| ==> IsSpace(s[i])
  }

  /** `s.lstrip()`: drops the leading white space and nothing else. */
  function StripLeading(s: string): (r: string)
    ensures |r| <= |s| && r == s[|s| - |r|..]
    ensures AllSpace(s[..|s| - |r|])
    ensures r == [] || !IsSpace(r[0])
  {
    if s != [] && IsSpace(s[0]) then
      var r := StripLeading(s[1..]);
      LeadingStep(s, r);
      r
    else s
  }

  /** `s.rstrip()`: drops the trailing white space and nothing else. */
  function StripTrailing(s: string): (r: string)
    ensures |r| <= |s| && r == s[..|r|]
    ensures AllSpace(s[|r|..])
    ensures r == [] || !IsSpace(r[|r| - 1])
  {
    if s != [] && IsSpace(s[|s| - 1]) then
      var r := StripTrailing(s[..|s| - 1]);
      TrailingStep(s, r);
      r
    else s
  }

  /** One more leading white-space character in front of a stripped suffix. */
  lemma LeadingStep(s: string, r: string)
    requires s != [] && IsSpace(s[0])
    requires |r| <= |s| - 1 && r == s[1..][|s| - 1 - |r|..] && AllSpace(s[1..][..|s| - 1 - |r|])
    ensures r == s[|s| - |r|..] && AllSpace(s[..|s| - |r|])
  {
    var w := s[1..][..|s| - 1 - |r|];
    var lead := s[..|s| - |r|];
    assert lead == [s[0]] + w;
    forall i | 0 <= i < |lead| ensures IsSpace(lead[i]) {
      if i > 0 { assert lead[i] == w[i - 1]; }
    }
  }

  /** One more trailing white-space character behind a stripped prefix. */
  lemma TrailingStep(s: string, r: string)
    requires s != [] && IsSpace(s[|s| - 1])
    requires |r| <= |s| - 1 && r == s[..|s| - 1][..|r|] && AllSpace(s[..|s| - 1][|r|..])
    ensures r == s[..|r|] && AllSpace(s[|r|..])
  {
    var w := s[..|s| - 1][|r|..];
    var trail := s[|r|..];
    assert trail == w + [s[|s| - 1]];
    forall i | 0 <= i < |trail| ensures IsSpace(trail[i]) {
      if i < |w| { assert trail[i] == w[i]; }
    }
  }

  /**
   * `s.strip()`: the part of `s` between its leading and its trailing
   * white space; it neither starts nor ends with white space.
   */
  function Strip(s: string): (r: string)
    ensures r == [] || (!IsSpace(r[0]) && !IsSpace(r[|r| - 1]))
    ensures SurroundedBySpace(s, LeadingSpace(s), r)
  {
    var t := StripLeading(s);
    var r := StripTrailing(t);
    StripSlices(s, t, r);
    r
  }

  /** The number of leading white-space characters of `s`. */
  function LeadingSpace(s: string): nat
  {
    |s| - |StripLeading(s)|
  }

  /** `s` is `r` at index `k`, with only white space before and after it. */
  predicate SurroundedBySpace(s: string, k: nat, r: string)
  {
    k + |r| <= |s| && s[k..k + |r|] == r && AllSpace(s[..k]) && AllSpace(s[k + |r|..])
  }

  /** Cutting a white-space prefix and then a white-space suffix leaves a slice between the two. */
  lemma StripSlices(s: string, t: string, r: string)
    requires |t| <= |s| && t == s[|s| - |t|..] && AllSpace(s[..|s| - |t|])
    requires |r| <= |t| && r == t[..|r|] && AllSpace(t[|r|..])
    requires t == [] || !IsSpace(t[0])
    requires r == [] || !IsSpace(r[|r| - 1])
    ensures r == [] || (!IsSpace(r[0]) && !IsSpace(r[|r| - 1]))
    ensures SurroundedBySpace(s, |s| - |t|, r)
  {
    var k := |s| - |t|;
    assert s[k..k + |r|] == t[..|r|];
    assert s[k + |r|..] == t[|r|..];
    assert r != [] ==> r[0] == t[0];
  }

  /** The leading white space of `a + m` is exactly `a` when `m` does not start with white space. */
  lemma {:induction false} StripLeadingOf(a: string, m: string)
    requires AllSpace(a) && (m == [] || !IsSpace(m[0]))
    ensures StripLeading(a + m) == m
  {
    if a != [] {
      assert (a + m)[1..] == a[1..] + m;
      StripLeadingOf(a[1..], m);
    }
  }

  /** The trailing white space of `m + b` is exactly `b` when `m` does not end with white space. */
  lemma {:induction false} StripTrailingOf(m: string, b: string)
    requires AllSpace(b) && (m == [] || !IsSpace(m[|m| - 1]))
    ensures StripTrailing(m + b) == m
  {
    if b != [] {
      assert (m + b)[..|m + b| - 1] == m + b[..|b| - 1];
      StripTrailingOf(m, b[..|b| - 1]);
    }
  }

  /**
   * Strip is determined by its contract: surrounding any text that neither
   * starts nor ends with white space by white space, and stripping, gives
   * that text back.
   */
  lemma StripRecovers(a: string, m: string, b: string)
    requires AllSpace(a) && AllSpace(b)
    requires m == [] || (!IsSpace(m[0]) && !IsSpace(m[|m| - 1]))
    ensures Strip(a + m + b) == m
  {
    if m == [] {
      var e: string := [];
      assert a + m + b == a + b;
      assert AllSpace(a + b);
      StripLeadingOf(a + b, e);
      assert a + b + e == a + b;
    } else {
      assert a + m + b == a + (m + b);
      StripLeadingOf(a, m + b);
      StripTrailingOf(m, b);
    }
  }

  /** Stripping twice is stripping once. */
  lemma StripIdempotent(s: string)
    ensures Strip(Strip(s)) == Strip(s)
  {
    var m := Strip(s);
    var e: string := [];
    assert e + m + e == m;
    StripRecovers(e, m, e);
  }

  // ------------------------------------------------------------- str(int)

  predicate IsDigit(c: char) { '0' <= c <= '9' }

  predicate AllDigits(s: string)
  {
    forall i :: 0 <= i < |s| ==> IsDigit(s[i])
  }

  function DigitChar(d: nat): (c: char)
    requires d < 10
    ensures IsDigit(c) && c as int - '0' as int == d
  {
    ('0' as int + d) as char
  }

  /** The value of a string of decimal digits. */
  function DecimalValue(s: string): nat
    requires AllDigits(s)
  {
    if s == [] then 0
    else 10 * DecimalValue(s[..|s| - 1]) + (s[|s| - 1] as int - '0' as int)
  }

  /** The decimal numeral of `n`, without leading zeros. */
  function NatToDecimal(n: nat): (r: string)
    ensures r != [] && AllDigits(r)
    ensures r[0] == '0' ==> n == 0
    decreases n
  {
    if n < 10 then [DigitChar(n)] else NatToDecimal(n / 10) + [DigitChar(n % 10)]
  }

  lemma {:induction false} DecimalRoundTrip(n: nat)
    ensures DecimalValue(NatToDecimal(n)) == n
  {
    if n >= 10 {
      var s := NatToDecimal(n);
      assert s[..|s| - 1] == NatToDecimal(n / 10);
      DecimalRoundTrip(n / 10);
    }
  }

  /** Reads back an optional minus sign followed by decimal digits. */
  function ParseInt(s: string): Option<int>
  {
    if s != [] && s[0] == '-' && s[1..] != [] && AllDigits(s[1..]) then Some(-(DecimalValue(s[1..]) as int))
    else if s != [] && AllDigits(s) then Some(DecimalValue(s))
    else None
  }

  /** `str(n)` for an integer: a minus sign for negative values, then the digits of the magnitude. */
  function IntToDecimal(n: int): (r: string)
    ensures ParseInt(r) == Some(n)
    ensures r != [] && (r[0] == '-' <==> n < 0)
    ensures r[0] == '0' ==> r == "0"
    ensures r[0] == '-' ==> |r| > 1 && r[1] != '0'
  {
    if n < 0 then
      var d := NatToDecimal(-n);
      DecimalRoundTrip(-n);
      assert ("-" + d)[1..] == d;
      "-" + d
    else
      DecimalRoundTrip(n);
      NatToDecimal(n)
  }

  // -------------------------------------------------------------- decoding

  /** Decodes captured bytes one character per byte (exact for ASCII output). */
  function Decode(bs: seq<Byte>): (s: string)
    ensures |s| == |bs|
    ensures forall i :: 0 <= i < |bs| ==> s[i] as int == bs[i] as int
  {
    if bs == [] then [] else [(bs[0] as int) as char] + Decode(bs[1..])
  }
}
