/**
 * The string building blocks of every path and file name in the pipeline:
 * POSIX `os.path.join`, `str(n)` and `f"{n:03d}"` for a non-negative integer,
 * and `int(s)` for a string of decimal digits.
 */
module Paths {
  import opened Common

  // ---------------------------------------------------------------------
  // os.path.join
  // ---------------------------------------------------------------------

  /** POSIX `os.path.join(a, b)`: an absolute `b` replaces `a`; otherwise a "/"
      is inserted unless `a` is empty or already ends with one. */
  function Join(a: string, b: string): string
  {
    if |b| > 0 && b[0] == '/' then b
    else if a == "" || a[|a| - 1] == '/' then a + b
    else a + "/" + b
  }

  /** `os.path.join(root, segs[0], ..., segs[n-1])`. */
  function JoinAll(root: string, segs: seq<string>): string
  {
    if segs == [] then root
    else Join(JoinAll(root, segs[..|segs| - 1]), segs[|segs| - 1])
  }

  /** A single non-empty directory or file name. */
  predicate IsSegment(x: string)
  {
    x != "" && forall m :: 0 <= m < |x| ==> x[m] != '/'
  }

  predicate AllSegments(segs: seq<string>)
  {
    forall i :: 0 <= i < |segs| ==> IsSegment(segs[i])
  }

  /** Joining segments to a non-empty prefix appends "/" and the segment. */
  lemma {:induction false} JoinAllStep(root: string, segs: seq<string>)
    requires |segs| >= 2 && AllSegments(segs)
    ensures JoinAll(root, segs) == JoinAll(root, segs[..|segs| - 1]) + "/" + segs[|segs| - 1]
  {
    var init := segs[..|segs| - 1];
    var p := JoinAll(root, init);
    assert init[..|init| - 1] == segs[..|segs| - 2];
    assert p == Join(JoinAll(root, init[..|init| - 1]), init[|init| - 1]);
    var x := init[|init| - 1];
    assert IsSegment(x);
    assert x[|x| - 1] != '/';
    var q := JoinAll(root, init[..|init| - 1]);
    assert p == q + x || p == q + "/" + x;
    assert p != "" && p[|p| - 1] == x[|x| - 1];
    assert segs[|segs| - 1][0] != '/' by { assert IsSegment(segs[|segs| - 1]); }
  }

  /** A "/" followed by a name without "/" ends a path uniquely. */
  lemma LastSegmentUnique(a: string, x: string, b: string, y: string)
    requires forall m :: 0 <= m < |x| ==> x[m] != '/'
    requires forall m :: 0 <= m < |y| ==> y[m] != '/'
    requires a + "/" + x == b + "/" + y
    ensures a == b && x == y
  {
    var s := a + "/" + x;
    assert s[|a|] == '/' && s[|b|] == '/';
    assert forall m :: 0 <= m < |y| ==> s[|b| + 1 + m] == y[m];
    assert forall m :: 0 <= m < |x| ==> s[|a| + 1 + m] == x[m];
    assert |a| == |b|;
    assert a == s[..|a|] == b;
    assert x == s[|a| + 1..] == y;
  }

  /** Paths built from the same root and the same number of segments are equal
      only when the segments are. */
  lemma {:induction false} JoinAllInjective(root: string, s1: seq<string>, s2: seq<string>)
    requires |s1| == |s2| && AllSegments(s1) && AllSegments(s2)
    requires JoinAll(root, s1) == JoinAll(root, s2)
    ensures s1 == s2
    decreases |s1|
  {
    var n := |s1|;
    if n == 1 {
      var x, y := s1[0], s2[0];
      assert s1[..0] == [] && s2[..0] == [];
      assert JoinAll(root, s1) == Join(root, x) && JoinAll(root, s2) == Join(root, y);
      assert IsSegment(x) && IsSegment(y);
      assert x[0] != '/' && y[0] != '/';
      if root == "" || root[|root| - 1] == '/' {
        assert x == (root + x)[|root|..] == (root + y)[|root|..] == y;
      } else {
        assert x == (root + "/" + x)[|root| + 1..] == (root + "/" + y)[|root| + 1..] == y;
      }
      assert s1 == [x] && s2 == [y];
    } else if n >= 2 {
      JoinAllStep(root, s1);
      JoinAllStep(root, s2);
      assert IsSegment(s1[n - 1]) && IsSegment(s2[n - 1]);
      LastSegmentUnique(JoinAll(root, s1[..n - 1]), s1[n - 1], JoinAll(root, s2[..n - 1]), s2[n - 1]);
      JoinAllInjective(root, s1[..n - 1], s2[..n - 1]);
      assert s1 == s1[..n - 1] + [s1[n - 1]];
      assert s2 == s2[..n - 1] + [s2[n - 1]];
    }
  }

  /** The last segment of a joined path can be read back after the last "/". */
  lemma JoinAllLast(root: string, segs: seq<string>, x: string, other: seq<string>, y: string)
    requires AllSegments(segs + [x]) && AllSegments(other + [y]) && |segs| >= 1 && |other| >= 1
    requires JoinAll(root, segs + [x]) == JoinAll(root, other + [y])
    ensures x == y
  {
    JoinAllStep(root, segs + [x]);
    JoinAllStep(root, other + [y]);
    assert (segs + [x])[..|segs|] == segs;
    assert (other + [y])[..|other|] == other;
    assert IsSegment((segs + [x])[|segs|]) && IsSegment((other + [y])[|other|]);
    LastSegmentUnique(JoinAll(root, segs), x, JoinAll(root, other), y);
  }

  // ---------------------------------------------------------------------
  // Decimal numerals
  // ---------------------------------------------------------------------

  predicate IsDigit(c: char)
  {
    '0' <= c <= '9'
  }

  predicate IsDigits(s: string)
  {
    forall m :: 0 <= m < |s| ==> IsDigit(s[m])
  }

  function DigitChar(d: nat): (c: char)
    requires d < 10
    ensures IsDigit(c)
  {
    ('0' as int + d) as char
  }

  /** `str(n)` for a non-negative integer: its decimal digits, no leading zero. */
  function NatStr(n: nat): (s: string)
    ensures s != [] && IsDigits(s)
    ensures forall m :: 0 <= m < |s| ==> s[m] != '/'
  {
    if n < 10 then [DigitChar(n)] else NatStr(n / 10) + [DigitChar(n % 10)]
  }

  /** The value of a string of decimal digits (leading zeros allowed). */
  function DigitsValue(s: string): nat
    requires IsDigits(s)
  {
    if s == [] then 0
    else DigitsValue(s[..|s| - 1]) * 10 + (s[|s| - 1] as int - '0' as int)
  }

  /** `int(s)` on a string of ASCII digits; `None` stands for the `ValueError`
      that `int` raises on an empty or non-numeric string. */
  function ParseInt(s: string): (r: Option<nat>)
    ensures r.Some? <==> s != [] && IsDigits(s)
    ensures r.Some? ==> r.value == DigitsValue(s)
  {
    if s != [] && IsDigits(s) then Some(DigitsValue(s)) else None
  }

  /** Parsing a numeral written by `str` gives the number back. */
  lemma {:induction false} NatStrRoundTrip(n: nat)
    ensures ParseInt(NatStr(n)) == Some(n)
  {
    var s := NatStr(n);
    if n < 10 {
      assert s == [DigitChar(n)];
      assert s[..0] == [];
      assert DigitsValue(s) == DigitsValue([]) * 10 + (DigitChar(n) as int - '0' as int);
    } else {
      NatStrRoundTrip(n / 10);
      assert s[..|s| - 1] == NatStr(n / 10);
      assert s[|s| - 1] as int - '0' as int == n % 10;
    }
  }

  lemma NatStrInjective(a: nat, b: nat)
    requires NatStr(a) == NatStr(b)
    ensures a == b
  {
    NatStrRoundTrip(a);
    NatStrRoundTrip(b);
  }

  function Zeros(n: nat): (s: string)
    ensures |s| == n && forall m :: 0 <= m < n ==> s[m] == '0'
  {
    if n == 0 then "" else Zeros(n - 1) + "0"
  }

  /** Left-pads a numeral with zeros to at least `width` characters, as the
      format specification `0<width>d` does for a non-negative integer. */
  function ZeroPad(s: string, width: nat): string
  {
    if |s| >= width then s else Zeros(width - |s|) + s
  }

  /** Leading zeros do not change the value of a numeral. */
  lemma {:induction false} LeadingZerosValue(z: nat, s: string)
    requires IsDigits(s)
    ensures IsDigits(Zeros(z) + s) && DigitsValue(Zeros(z) + s) == DigitsValue(s)
    decreases |s|
  {
    var t := Zeros(z) + s;
    if s == [] {
      assert t == Zeros(z);
      ZerosValue(z);
    } else {
      assert t[..|t| - 1] == Zeros(z) + s[..|s| - 1];
      LeadingZerosValue(z, s[..|s| - 1]);
    }
  }

  lemma {:induction false} ZerosValue(z: nat)
    ensures IsDigits(Zeros(z)) && DigitsValue(Zeros(z)) == 0
  {
    if z > 0 {
      ZerosValue(z - 1);
      assert Zeros(z)[..z - 1] == Zeros(z - 1);
    }
  }

  /** `f"{n:03d}"` has at least three digits and parses back to `n`. */
  lemma ZeroPadRoundTrip(n: nat, width: nat)
    ensures |ZeroPad(NatStr(n), width)| >= width
    ensures ParseInt(ZeroPad(NatStr(n), width)) == Some(n)
  {
    NatStrRoundTrip(n);
    var s := NatStr(n);
    if |s| < width {
      LeadingZerosValue(width - |s|, s);
    }
  }
}
