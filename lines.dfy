/**
 * Line handling behind both `apply_patch` functions: Python's
 * `str.splitlines(keepends=True)` restricted to the separators "\n", "\r"
 * and "\r\n", Python's clamping slice semantics, and the line-range splice
 * `lines[:first - 1] + patch_lines + lines[last:]`.
 */
module Lines {

  // ---------------------------------------------------------------------
  // Python slicing
  // ---------------------------------------------------------------------

  /** The position a Python slice bound `k` denotes in a sequence of length `len`:
      negative bounds count from the end, and every bound is clamped to [0, len]. */
  function SliceIndex(len: nat, k: int): (r: nat)
    ensures r <= len
    ensures 0 <= k <= len ==> r == k
    ensures k > len ==> r == len
    ensures k < 0 ==> r == if len + k < 0 then 0 else len + k
  {
    if k < 0 then (if len + k < 0 then 0 else len + k)
    else if k > len then len
    else k
  }

  /** Python's `s[:k]`. */
  function Take<T>(s: seq<T>, k: int): seq<T>
  {
    s[..SliceIndex(|s|, k)]
  }

  /** Python's `s[k:]`. */
  function Drop<T>(s: seq<T>, k: int): seq<T>
  {
    s[SliceIndex(|s|, k)..]
  }

  /** `s[:k] + s[k:] == s` for every bound, and a negative bound `k` leaves
      the last `-k` elements (all of them when `-k` exceeds the length) to
      `s[k:]`; a bound past the end leaves nothing. */
  lemma TakeDrop<T>(s: seq<T>, k: int)
    ensures Take(s, k) + Drop(s, k) == s
    ensures k < 0 ==> |Drop(s, k)| == if -k < |s| then -k else |s|
    ensures 0 <= k ==> |Take(s, k)| == if k < |s| then k else |s|
    ensures k >= |s| ==> Drop(s, k) == []
  {
    assert s[..SliceIndex(|s|, k)] + s[SliceIndex(|s|, k)..] == s;
  }

  // ---------------------------------------------------------------------
  // splitlines(keepends=True)
  // ---------------------------------------------------------------------

  predicate IsBreak(c: char)
  {
    c == '\n' || c == '\r'
  }

  /** A line as `splitlines(keepends=True)` produces it: a body without line
      breaks followed by at most one terminator "\n", "\r" or "\r\n". */
  predicate IsLine(p: string)
  {
    exists b :: 0 <= b <= |p| && LineShape(p, b)
  }

  /** `p[..b]` is the body and `p[b..]` is the terminator. */
  predicate LineShape(p: string, b: nat)
    requires b <= |p|
  {
    && (forall m :: 0 <= m < b ==> !IsBreak(p[m]))
    && (p[b..] == "" || p[b..] == "\n" || p[b..] == "\r" || p[b..] == "\r\n")
  }

  predicate EndsWithBreak(p: string)
  {
    |p| > 0 && IsBreak(p[|p| - 1])
  }

  /** Where the line that starts at position `i` ends (exclusive): just after the
      first "\n", "\r\n" or lone "\r" at or after `i`, or at the end of `s`. */
  function LineEnd(s: string, i: nat): (k: nat)
    requires i < |s|
    ensures i < k <= |s|
    decreases |s| - i
  {
    if s[i] == '\n' then i + 1
    else if s[i] == '\r' then (if i + 1 < |s| && s[i + 1] == '\n' then i + 2 else i + 1)
    else if i + 1 == |s| then |s|
    else LineEnd(s, i + 1)
  }

  /** The piece `s[i..LineEnd(s, i)]` holds no break except its terminator, ends with
      a break unless it reaches the end of `s`, and does not split a "\r\n". */
  lemma {:induction false} LineEndFacts(s: string, i: nat)
    requires i < |s|
    ensures var k := LineEnd(s, i);
      && (forall m :: i <= m < k - 1 ==> !IsBreak(s[m]) || (m == k - 2 && s[m] == '\r' && s[k - 1] == '\n'))
      && (k < |s| ==> IsBreak(s[k - 1]))
      && (k < |s| && s[k - 1] == '\r' ==> s[k] != '\n')
    decreases |s| - i
  {
    if !IsBreak(s[i]) && i + 1 < |s| {
      LineEndFacts(s, i + 1);
    }
  }

  /** Python's `s.splitlines(keepends=True)` over the separators "\n", "\r" and "\r\n". */
  function SplitLines(s: string): (r: seq<string>)
    ensures forall i :: 0 <= i < |r| ==> r[i] != []
    decreases |s|
  {
    if s == [] then []
    else
      var k := LineEnd(s, 0);
      [s[..k]] + SplitLines(s[k..])
  }

  /** Concatenation of lines, as `f.writelines` puts them in a file. */
  function Concat(lines: seq<string>): string
  {
    if lines == [] then [] else lines[0] + Concat(lines[1..])
  }

  /** The first piece of `s` is a line, ends with a break unless it is all of `s`,
      and a piece ending in "\r" is never followed by "\n". */
  lemma FirstPiece(s: string)
    requires s != []
    ensures IsLine(s[..LineEnd(s, 0)])
    ensures LineEnd(s, 0) < |s| ==> EndsWithBreak(s[..LineEnd(s, 0)])
    ensures LineEnd(s, 0) < |s| && s[LineEnd(s, 0) - 1] == '\r' ==> s[LineEnd(s, 0)] != '\n'
  {
    FirstPieceIsLine(s);
    LineEndFacts(s, 0);
    var k := LineEnd(s, 0);
    if k < |s| {
      assert s[..k][k - 1] == s[k - 1];
    }
  }

  lemma FirstPieceIsLine(s: string)
    requires s != []
    ensures IsLine(s[..LineEnd(s, 0)])
  {
    var k := LineEnd(s, 0);
    LineEndFacts(s, 0);
    var p := s[..k];
    var crlf := k >= 2 && s[k - 2] == '\r' && s[k - 1] == '\n';
    var b: nat := if crlf then k - 2 else if IsBreak(s[k - 1]) then k - 1 else k;
    forall m | 0 <= m < b ensures !IsBreak(p[m]) {
      assert p[m] == s[m];
      assert !IsBreak(s[m]);
    }
    if crlf {
      assert p[b..] == "\r\n";
    } else if IsBreak(s[k - 1]) {
      assert p[b..] == [s[k - 1]];
    } else {
      assert p[b..] == "";
    }
    assert LineShape(p, b);
  }

  /** Round trip: joining the pieces gives back the text exactly. */
  lemma {:induction false} SplitLinesConcat(s: string)
    ensures Concat(SplitLines(s)) == s
    decreases |s|
  {
    if s != [] {
      var k := LineEnd(s, 0);
      var r := SplitLines(s);
      assert r[0] == s[..k] && r[1..] == SplitLines(s[k..]);
      SplitLinesConcat(s[k..]);
      assert s[..k] + s[k..] == s;
    }
  }

  /** Every piece is a non-empty line. */
  lemma {:induction false} SplitLinesAreLines(s: string)
    ensures forall i :: 0 <= i < |SplitLines(s)| ==> SplitLines(s)[i] != [] && IsLine(SplitLines(s)[i])
    decreases |s|
  {
    if s != [] {
      var k := LineEnd(s, 0);
      var r := SplitLines(s);
      var rest := SplitLines(s[k..]);
      assert r == [s[..k]] + rest;
      FirstPieceIsLine(s);
      SplitLinesAreLines(s[k..]);
      forall i | 0 <= i < |r| ensures r[i] != [] && IsLine(r[i]) {
        if i > 0 { assert r[i] == rest[i - 1]; }
      }
    }
  }

  /** Every piece but the last ends with a line break. */
  lemma {:induction false} SplitLinesBreaks(s: string)
    ensures forall i :: 0 <= i < |SplitLines(s)| - 1 ==> EndsWithBreak(SplitLines(s)[i])
    decreases |s|
  {
    if s != [] {
      var k := LineEnd(s, 0);
      var r := SplitLines(s);
      var rest := SplitLines(s[k..]);
      assert r == [s[..k]] + rest;
      if rest != [] {
        assert k < |s|;
        FirstPiece(s);
      }
      SplitLinesBreaks(s[k..]);
      forall i | 0 <= i < |r| - 1 ensures EndsWithBreak(r[i]) {
        if i > 0 { assert r[i] == rest[i - 1]; }
      }
    }
  }

  /** A piece ending in "\r" is never followed by one starting with "\n". */
  lemma {:induction false} SplitLinesKeepsCrLf(s: string)
    ensures forall i :: 0 <= i < |SplitLines(s)| - 1 && SplitLines(s)[i][|SplitLines(s)[i]| - 1] == '\r'
              ==> SplitLines(s)[i + 1][0] != '\n'
    decreases |s|
  {
    if s != [] {
      var k := LineEnd(s, 0);
      var r := SplitLines(s);
      var rest := SplitLines(s[k..]);
      assert r == [s[..k]] + rest;
      SplitLinesAreLines(s);
      SplitLinesKeepsCrLf(s[k..]);
      if rest != [] {
        FirstPiece(s);
        SplitLinesConcat(s[k..]);
        assert Concat(rest) == rest[0] + Concat(rest[1..]);
        assert rest[0][0] == s[k..][0] == s[k];
      }
      forall i | 0 <= i < |r| - 1 && r[i][|r[i]| - 1] == '\r' ensures r[i + 1][0] != '\n' {
        if i > 0 { assert r[i] == rest[i - 1] && r[i + 1] == rest[i]; }
      }
    }
  }

  /** Every piece is a non-empty line, and every piece but the last ends with a
      line break; a piece ending in "\r" is never followed by one starting with "\n". */
  lemma SplitLinesPieces(s: string)
    ensures forall i :: 0 <= i < |SplitLines(s)| ==> SplitLines(s)[i] != [] && IsLine(SplitLines(s)[i])
    ensures forall i :: 0 <= i < |SplitLines(s)| - 1 ==> EndsWithBreak(SplitLines(s)[i])
    ensures forall i :: 0 <= i < |SplitLines(s)| - 1 && SplitLines(s)[i][|SplitLines(s)[i]| - 1] == '\r'
              ==> SplitLines(s)[i + 1][0] != '\n'
  {
    SplitLinesAreLines(s);
    SplitLinesBreaks(s);
    SplitLinesKeepsCrLf(s);
  }

  // ---------------------------------------------------------------------
  // The splice
  // ---------------------------------------------------------------------

  /** `lines[:first - 1] + patch + lines[last:]` with Python slicing. */
  function Splice(lines: seq<string>, first: int, last: int, patch: seq<string>): (r: seq<string>)
  {
    Take(lines, first - 1) + patch + Drop(lines, last)
  }

  /** Splice shape for a well-formed locus `1 <= first <= last <= |lines|`:
      the line count changes by the patch size minus the span, lines before
      `first` and after `last` keep their contents and their order. */
  lemma SpliceShape(lines: seq<string>, first: int, last: int, patch: seq<string>)
    requires 1 <= first <= last <= |lines|
    ensures |Splice(lines, first, last, patch)| == |lines| - (last - first + 1) + |patch|
    ensures Splice(lines, first, last, patch)[..first - 1] == lines[..first - 1]
    ensures Splice(lines, first, last, patch)[first - 1 .. first - 1 + |patch|] == patch
    ensures Splice(lines, first, last, patch)[first - 1 + |patch|..] == lines[last..]
    ensures forall k :: last <= k < |lines| ==>
              Splice(lines, first, last, patch)[k - (last - first + 1) + |patch|] == lines[k]
  {
    var r := Splice(lines, first, last, patch);
    assert Take(lines, first - 1) == lines[..first - 1];
    assert Drop(lines, last) == lines[last..];
    assert r == lines[..first - 1] + patch + lines[last..];
  }

  /** Clamping: a last line at or past the end of the file keeps nothing after
      the replaced region, and a first line past the end keeps the whole file. */
  lemma SpliceClamp(lines: seq<string>, first: int, last: int, patch: seq<string>)
    requires 1 <= first
    ensures last >= |lines| ==> Splice(lines, first, last, patch) == Take(lines, first - 1) + patch
    ensures first - 1 >= |lines| ==> Take(lines, first - 1) == lines
  {
  }

  /** `first_line = 0` does not mean "from the top": the slice `lines[:-1]`
      keeps every line but the last one. */
  lemma SpliceFirstLineZero(lines: seq<string>, last: int, patch: seq<string>)
    requires |lines| > 0
    ensures Splice(lines, 0, last, patch)[..|lines| - 1] == lines[..|lines| - 1]
    ensures |Take(lines, -1)| == |lines| - 1
  {
    assert Take(lines, -1) == lines[..|lines| - 1];
  }

  /** Replacing a span by its own lines gives the file back. */
  lemma {:induction false} SpliceIdentity(lines: seq<string>, first: int, last: int)
    requires 1 <= first <= last + 1 <= |lines| + 1
    ensures Splice(lines, first, last, lines[first - 1..last]) == lines
  {
    assert Take(lines, first - 1) == lines[..first - 1];
    assert Drop(lines, last) == lines[last..];
    assert lines[..first - 1] + lines[first - 1..last] == lines[..last];
    assert lines[..last] + lines[last..] == lines;
  }
}
