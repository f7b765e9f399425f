/**
 * The JavaScript string operations the modelled code relies on: `trim`, `toLowerCase`,
 * `startsWith`, `indexOf`/`includes`, literal `replace` (first and global), `split`/`join`.
 * Strings are `seq<char>`; the theory of global replacement needed by the
 * page-rewriting scripts (when a replacement removes every occurrence, and when it
 * cannot create a new one) is proved here once.
 */
module JsString {
  import opened Wrappers

  /** The code points JavaScript treats as white space in `trim` and in the regex class `\s`
      (the WhiteSpace and LineTerminator productions of ECMAScript). */
  predicate IsSpace(c: char) {
    c == '\t' || c == '\n' || c == '\U{B}' || c == '\U{C}' || c == '\r' || c == ' ' ||
    c == '\U{A0}' || c == '\U{1680}' || ('\U{2000}' <= c <= '\U{200A}') ||
    c == '\U{2028}' || c == '\U{2029}' || c == '\U{202F}' || c == '\U{205F}' ||
    c == '\U{3000}' || c == '\U{FEFF}'
  }

  /** The characters the regex `.` does not match (LineTerminator). */
  predicate IsLineTerminator(c: char) {
    c == '\n' || c == '\r' || c == '\U{2028}' || c == '\U{2029}'
  }

  predicate AllSpace(s: string) {
    forall i :: 0 <= i < |s| ==> IsSpace(s[i])
  }

  lemma AllSpaceSnoc(a: string, c: char)
    requires AllSpace(a) && IsSpace(c)
    ensures AllSpace(a + [c])
  {
    assert forall i :: 0 <= i < |a| ==> (a + [c])[i] == a[i];
  }

  /** `s.trimStart()`: the suffix left after dropping leading white space. */
  function TrimStart(s: string): (r: string)
    ensures |r| <= |s| && r == s[|s| - |r|..]
    ensures r == [] || !IsSpace(r[0])
    ensures AllSpace(s[..|s| - |r|])
  {
    if s != [] && IsSpace(s[0]) then
      var r := TrimStart(s[1..]);
      assert s[..|s| - |r|] == [s[0]] + s[1..][..|s[1..]| - |r|];
      r
    else s
  }

  /** `s.trimEnd()`: the prefix left after dropping trailing white space. */
  function TrimEnd(s: string): (r: string)
    ensures |r| <= |s| && r == s[..|r|]
    ensures r == [] || !IsSpace(r[|r| - 1])
    ensures AllSpace(s[|r|..])
  {
    if s != [] && IsSpace(s[|s| - 1]) then
      var t := s[..|s| - 1];
      var r := TrimEnd(t);
      assert s[|r|..] == t[|r|..] + [s[|s| - 1]];
      AllSpaceSnoc(t[|r|..], s[|s| - 1]);
      r
    else s
  }

  /** `s.trim()`: empty exactly when `s` is all white space; otherwise it neither starts nor
      ends with white space. */
  function Trim(s: string): (r: string)
    ensures r == [] <==> AllSpace(s)
    ensures r != [] ==> !IsSpace(r[0]) && !IsSpace(r[|r| - 1])
    ensures |r| <= |s|
  {
    var a := TrimStart(s);
    TrimEmptyOnlySpace(s, a);
    TrimNonEmpty(s, a);
    TrimEnd(a)
  }

  /** `trim()` cuts white space only: the result is a slice of the text with nothing but white
      space before and after it. */
  lemma TrimSlice(s: string)
    ensures BetweenSpace(s, Trim(s))
  {
    var a := TrimStart(s);
    assert Trim(s) == TrimEnd(a);
    SpaceAround(s, a, TrimEnd(a));
  }

  /** `r` is a slice of `s` with nothing but white space before it and after it. */
  predicate BetweenSpace(s: string, r: string) {
    exists k :: 0 <= k <= |s| - |r| && r == s[k..k + |r|] && AllSpace(s[..k]) && AllSpace(s[k + |r|..])
  }

  /** A prefix `r` of a suffix `a` of `s`, with white space only before `a` and after `r`, is a
      slice of `s` between white space. */
  lemma SpaceAround(s: string, a: string, r: string)
    requires |a| <= |s| && a == s[|s| - |a|..] && AllSpace(s[..|s| - |a|])
    requires |r| <= |a| && r == a[..|r|] && AllSpace(a[|r|..])
    ensures BetweenSpace(s, r)
  {
    var k := |s| - |a|;
    assert a[..|r|] == s[k..k + |r|];
    assert a[|r|..] == s[k + |r|..];
  }

  lemma TrimEmptyOnlySpace(s: string, a: string)
    requires a == TrimStart(s)
    ensures TrimEnd(a) == [] ==> AllSpace(s)
  {
    if TrimEnd(a) == [] {
      var n := |s| - |a|;
      assert AllSpace(a[0..]);
      assert AllSpace(s[..n]);
      forall i | 0 <= i < |s|
        ensures IsSpace(s[i])
      {
        if i < n {
          assert s[..n][i] == s[i];
        } else {
          assert a[0..][i - n] == s[i];
        }
      }
    }
  }

  lemma TrimNonEmpty(s: string, a: string)
    requires a == TrimStart(s)
    ensures TrimEnd(a) != [] ==> !IsSpace(TrimEnd(a)[0]) && !AllSpace(s)
  {
    if TrimEnd(a) != [] {
      var n := |s| - |a|;
      assert TrimEnd(a)[0] == a[0];
      assert s[n] == a[0];
    }
  }

  /** Trimming leaves a string that neither starts nor ends with white space unchanged. */
  lemma TrimNoSpace(s: string)
    requires s != [] ==> !IsSpace(s[0]) && !IsSpace(s[|s| - 1])
    ensures Trim(s) == s
  {
  }

  /** ASCII lower-casing of one character. */
  function LowerChar(c: char): char {
    if 'A' <= c <= 'Z' then (c as int + 32) as char else c
  }

  /** `s.toLowerCase()` (ASCII letters only). */
  function Lower(s: string): (r: string)
    ensures |r| == |s| && forall i :: 0 <= i < |s| ==> r[i] == LowerChar(s[i])
  {
    seq(|s|, i requires 0 <= i < |s| => LowerChar(s[i]))
  }

  predicate StartsWith(s: string, p: string) {
    |p| <= |s| && s[..|p|] == p
  }

  /** `p` occurs in `s` starting at index `i`. */
  predicate OccursAt(s: string, p: string, i: int) {
    0 <= i && i + |p| <= |s| && s[i..i + |p|] == p
  }

  /** `p` occurs nowhere in `s`. */
  predicate NoOcc(s: string, p: string) {
    forall i :: 0 <= i <= |s| ==> !OccursAt(s, p, i)
  }

  lemma OccursAtTail(s: string, p: string, i: int)
    requires s != [] && i >= 1
    ensures OccursAt(s, p, i) <==> OccursAt(s[1..], p, i - 1)
  {
    if 0 <= i - 1 && i - 1 + |p| <= |s[1..]| {
      assert s[1..][i - 1..i - 1 + |p|] == s[i..i + |p|];
    }
  }

  /** `s.indexOf(p)`: the leftmost occurrence, or `None` for -1. */
  function IndexOf(s: string, p: string): (r: Option<nat>)
    ensures r.Some? ==> OccursAt(s, p, r.value) && forall i :: 0 <= i < r.value ==> !OccursAt(s, p, i)
    ensures r.None? ==> NoOcc(s, p)
    decreases |s|
  {
    if |s| < |p| then None
    else if s[..|p|] == p then Some(0)
    else
      var t := IndexOf(s[1..], p);
      forall i | 1 <= i
        ensures OccursAt(s, p, i) <==> OccursAt(s[1..], p, i - 1)
      {
        OccursAtTail(s, p, i);
      }
      match t
      case None => None
      case Some(k) => Some(k + 1)
  }

  /** `s.includes(p)`. */
  predicate Contains(s: string, p: string) {
    IndexOf(s, p).Some?
  }

  lemma ContainsIff(s: string, p: string)
    ensures Contains(s, p) <==> exists i :: OccursAt(s, p, i)
  {
    if Contains(s, p) {
      assert OccursAt(s, p, IndexOf(s, p).value);
    }
  }

  lemma OccursContains(s: string, p: string, i: int)
    requires OccursAt(s, p, i)
    ensures Contains(s, p)
  {
    ContainsIff(s, p);
  }

  /** A string that contains `p` keeps containing it when text is added around it. */
  lemma ContainsInside(a: string, b: string, c: string, p: string)
    requires Contains(b, p)
    ensures Contains(a + b + c, p)
  {
    var j := IndexOf(b, p).value;
    assert (a + b + c)[|a| + j..|a| + j + |p|] == b[j..j + |p|];
    OccursContains(a + b + c, p, |a| + j);
  }

  /** A text contains whatever is written in its middle. */
  lemma ContainsMiddle(a: string, g: string, b: string)
    ensures Contains(a + g + b, g)
  {
    assert g[0..|g|] == g;
    OccursContains(g, g, 0);
    ContainsInside(a, g, b, g);
  }

  /** A text contains whatever its end contains. */
  lemma ContainsEnd(a: string, b: string, g: string)
    requires Contains(b, g)
    ensures Contains(a + b, g)
  {
    ContainsInside(a, b, [], g);
    assert a + b + [] == a + b;
  }

  /** A text contains whatever its start contains. */
  lemma ContainsStart(a: string, b: string, g: string)
    requires Contains(a, g)
    ensures Contains(a + b, g)
  {
    ContainsInside([], a, b, g);
    assert [] + a + b == a + b;
  }

  lemma SliceOfSlice(s: string, x: int, y: int, i: int, j: int)
    requires 0 <= x <= y <= |s| && 0 <= i <= j <= y - x
    ensures s[x..y][i..j] == s[x + i..x + j]
  {
    var u := s[x..y][i..j];
    var v := s[x + i..x + j];
    forall k | 0 <= k < j - i
      ensures u[k] == v[k]
    {
      assert u[k] == s[x..y][i + k];
    }
  }

  lemma NoOccSlice(s: string, q: string, x: int, y: int)
    requires NoOcc(s, q) && 0 <= x <= y <= |s|
    ensures NoOcc(s[x..y], q)
  {
    var t := s[x..y];
    forall i | 0 <= i <= |t|
      ensures !OccursAt(t, q, i)
    {
      if i + |q| <= |t| {
        SliceOfSlice(s, x, y, i, i + |q|);
        assert !OccursAt(s, q, x + i);
      }
    }
  }

  /** `a` and `b` disagree somewhere in the length they share. */
  predicate Mismatch(a: string, b: string) {
    exists d :: 0 <= d < |a| && d < |b| && a[d] != b[d]
  }

  /** Inserting the non-empty text `r` between two pieces of text creates no new occurrence of
      `q`: no occurrence of `q` can start inside `r`, and none that starts before `r` can run
      into it. */
  predicate Disjoint(q: string, r: string) {
    && r != []
    && (forall m :: 0 <= m < |r| ==> Mismatch(r[m..], q))
    && (forall m :: 0 < m < |q| ==> Mismatch(q[m..], r))
  }

  /** Joining texts free of `q` around a text `r` disjoint from `q` gives a text free of `q`. */
  lemma NoOccJoin(a: string, r: string, b: string, q: string)
    requires NoOcc(a, q) && NoOcc(b, q) && Disjoint(q, r)
    ensures NoOcc(a + r + b, q)
  {
    var w := a + r + b;
    forall i | 0 <= i <= |w|
      ensures !OccursAt(w, q, i)
    {
      if i + |q| > |w| {
      } else if i + |q| <= |a| {
        assert w[i..i + |q|] == a[i..i + |q|];
        assert !OccursAt(a, q, i);
      } else if i < |a| {
        var m := |a| - i;
        assert Mismatch(q[m..], r);
        var d :| 0 <= d < |q[m..]| && d < |r| && q[m..][d] != r[d];
        assert w[i + m + d] == r[d];
        assert w[i..i + |q|][m + d] != q[m + d];
      } else if i < |a| + |r| {
        var m := i - |a|;
        assert Mismatch(r[m..], q);
        var d :| 0 <= d < |r[m..]| && d < |q| && r[m..][d] != q[d];
        assert w[i + d] == r[m + d];
        assert w[i..i + |q|][d] != q[d];
      } else {
        var k := i - |a| - |r|;
        assert w[i..i + |q|] == b[k..k + |q|];
        assert !OccursAt(b, q, k);
      }
    }
  }

  /** `s.replace(/p/g, r)` for a literal, non-empty pattern `p` and a replacement without `$`
      patterns: a left-to-right scan that replaces each non-overlapping occurrence. */
  function ReplaceAll(s: string, p: string, r: string): string
    requires p != []
    decreases |s|
  {
    if |s| < |p| then s
    else if s[..|p|] == p then r + ReplaceAll(s[|p|..], p, r)
    else [s[0]] + ReplaceAll(s[1..], p, r)
  }

  /** Global replacement leaves a text without occurrences unchanged. */
  lemma {:induction false} ReplaceAllNoOcc(s: string, p: string, r: string)
    requires p != [] && NoOcc(s, p)
    ensures ReplaceAll(s, p, r) == s
    decreases |s|
  {
    if |s| >= |p| {
      assert !OccursAt(s, p, 0);
      NoOccSlice(s, p, 1, |s|);
      assert s[1..|s|] == s[1..];
      ReplaceAllNoOcc(s[1..], p, r);
      ReplaceAllStep(s, p, r);
      assert [s[0]] + s[1..] == s;
    }
  }

  /** Global replacement keeps the text before the leftmost occurrence, replaces that
      occurrence, and continues after it. */
  lemma ReplaceAllAtFirst(s: string, p: string, r: string, j: nat)
    requires p != [] && IndexOf(s, p) == Some(j)
    ensures ReplaceAll(s, p, r) == s[..j] + r + ReplaceAll(s[j + |p|..], p, r)
  {
    ReplaceAllLeftmost(s, p, r, j);
  }

  lemma {:induction false} ReplaceAllLeftmost(s: string, p: string, r: string, j: nat)
    requires p != [] && OccursAt(s, p, j) && forall i :: 0 <= i < j ==> !OccursAt(s, p, i)
    ensures ReplaceAll(s, p, r) == s[..j] + r + ReplaceAll(s[j + |p|..], p, r)
    decreases j
  {
    if j == 0 {
      ReplaceAllAtStart(s, p, r);
    } else {
      assert !OccursAt(s, p, 0) && j + |p| <= |s|;
      LeftmostInTail(s, p, j);
      ReplaceAllLeftmost(s[1..], p, r, j - 1);
      ReplaceAllLater(s, p, r, j);
    }
  }

  /** A leftmost occurrence past the start is the leftmost one of the tail, one place
      earlier. */
  lemma LeftmostInTail(s: string, p: string, j: nat)
    requires 0 < j && OccursAt(s, p, j) && forall i :: 0 <= i < j ==> !OccursAt(s, p, i)
    ensures OccursAt(s[1..], p, j - 1) && forall i :: 0 <= i < j - 1 ==> !OccursAt(s[1..], p, i)
  {
    OccursAtTail(s, p, j);
    forall i | 0 <= i < j - 1
      ensures !OccursAt(s[1..], p, i)
    {
      OccursAtTail(s, p, i + 1);
    }
  }

  lemma ReplaceAllAtStart(s: string, p: string, r: string)
    requires p != [] && OccursAt(s, p, 0)
    ensures ReplaceAll(s, p, r) == s[..0] + r + ReplaceAll(s[|p|..], p, r)
  {
    assert s[..|p|] == p;
    assert s[..0] + r == r;
  }

  /** The step of `ReplaceAllAtFirst` when the leftmost occurrence is not at the start. */
  lemma ReplaceAllLater(s: string, p: string, r: string, j: nat)
    requires p != [] && 0 < j && j + |p| <= |s| && !OccursAt(s, p, 0)
    requires ReplaceAll(s[1..], p, r) == s[1..][..j - 1] + r + ReplaceAll(s[1..][j - 1 + |p|..], p, r)
    ensures ReplaceAll(s, p, r) == s[..j] + r + ReplaceAll(s[j + |p|..], p, r)
  {
    var t := s[1..];
    var rest := ReplaceAll(s[j + |p|..], p, r);
    ReplaceAllStep(s, p, r);
    assert t[j - 1 + |p|..] == s[j + |p|..];
    assert [s[0]] + t[..j - 1] == s[..j];
    ConcatAssoc([s[0]], t[..j - 1], r, rest);
  }

  lemma ConcatAssoc(a: string, b: string, c: string, d: string)
    ensures a + (b + c + d) == a + b + c + d
  {
  }

  lemma ReplaceAllStep(s: string, p: string, r: string)
    requires p != [] && s != [] && !OccursAt(s, p, 0)
    ensures ReplaceAll(s, p, r) == [s[0]] + ReplaceAll(s[1..], p, r)
  {
    if |s| >= |p| {
      assert s[..|p|] != p;
    } else {
      ReplaceAllShort(s[1..], p, r);
    }
  }

  lemma ReplaceAllShort(s: string, p: string, r: string)
    requires p != [] && |s| < |p|
    ensures ReplaceAll(s, p, r) == s
  {
  }

  /** The first place `p` occurs is where `indexOf` finds it. */
  lemma IndexOfFirst(s: string, p: string, k: nat)
    requires OccursAt(s, p, k) && forall i :: 0 <= i < k ==> !OccursAt(s, p, i)
    ensures IndexOf(s, p) == Some(k)
  {
  }

  lemma IndexOfStep(s: string, p: string)
    requires IndexOf(s, p).Some? && IndexOf(s, p).value > 0
    ensures s != [] && IndexOf(s[1..], p) == Some(IndexOf(s, p).value - 1)
  {
  }

  /** When `p` is disjoint from `r`, global replacement leaves no occurrence of `p`. */
  lemma {:induction false} ReplaceAllRemoves(s: string, p: string, r: string)
    requires p != [] && Disjoint(p, r)
    ensures NoOcc(ReplaceAll(s, p, r), p)
    decreases |s|
  {
    match IndexOf(s, p)
    case None =>
      ReplaceAllNoOcc(s, p, r);
    case Some(j) =>
      ReplaceAllAtFirst(s, p, r, j);
      var t := s[j + |p|..];
      ReplaceAllRemoves(t, p, r);
      NoOccBefore(s, p, j);
      NoOccJoin(s[..j], r, ReplaceAll(t, p, r), p);
  }

  /** The text before the leftmost occurrence holds none. */
  lemma NoOccBefore(s: string, p: string, j: nat)
    requires p != [] && j <= |s| && forall i :: 0 <= i < j ==> !OccursAt(s, p, i)
    ensures NoOcc(s[..j], p)
  {
    forall i | 0 <= i <= j
      ensures !OccursAt(s[..j], p, i)
    {
      if i + |p| <= j {
        assert !OccursAt(s, p, i);
        assert s[..j][i..i + |p|] == s[i..i + |p|];
      }
    }
  }

  /** Global replacement with a text disjoint from `q` cannot create an occurrence of `q`. */
  lemma {:induction false} ReplaceAllKeepsAbsent(s: string, p: string, r: string, q: string)
    requires p != [] && NoOcc(s, q) && Disjoint(q, r)
    ensures NoOcc(ReplaceAll(s, p, r), q)
    decreases |s|
  {
    match IndexOf(s, p)
    case None =>
      ReplaceAllNoOcc(s, p, r);
    case Some(j) =>
      ReplaceAllAtFirst(s, p, r, j);
      var t := s[j + |p|..];
      NoOccSlice(s, q, j + |p|, |s|);
      assert s[j + |p|..|s|] == t;
      ReplaceAllKeepsAbsent(t, p, r, q);
      NoOccSlice(s, q, 0, j);
      assert s[0..j] == s[..j];
      NoOccJoin(s[..j], r, ReplaceAll(t, p, r), q);
  }

  /** Global replacement with a text disjoint from the pattern is idempotent. */
  lemma ReplaceAllIdempotent(s: string, p: string, r: string)
    requires p != [] && Disjoint(p, r)
    ensures ReplaceAll(ReplaceAll(s, p, r), p, r) == ReplaceAll(s, p, r)
  {
    ReplaceAllRemoves(s, p, r);
    ReplaceAllNoOcc(ReplaceAll(s, p, r), p, r);
  }

  /** Global replacement passes over a prefix `x` in which no occurrence starts. */
  lemma {:induction false} ReplaceAllSkip(x: string, rest: string, p: string, r: string)
    requires p != []
    requires forall i :: 0 <= i < |x| ==> !OccursAt(x + rest, p, i)
    ensures ReplaceAll(x + rest, p, r) == x + ReplaceAll(rest, p, r)
    decreases |x|
  {
    if x != [] {
      var w := x + rest;
      var w1 := x[1..] + rest;
      assert w[1..] == w1;
      forall i | 0 <= i < |x[1..]|
        ensures !OccursAt(w1, p, i)
      {
        OccursAtTail(w, p, i + 1);
      }
      ReplaceAllSkip(x[1..], rest, p, r);
      ReplaceAllStep(w, p, r);
      calc {
        ReplaceAll(w, p, r);
        [w[0]] + ReplaceAll(w1, p, r);
        [x[0]] + (x[1..] + ReplaceAll(rest, p, r));
        { assert [x[0]] + x[1..] == x; }
        x + ReplaceAll(rest, p, r);
      }
    } else {
      assert x + rest == rest;
    }
  }

  /** `s.replace(/p/, r)`: replaces the leftmost occurrence only. */
  function ReplaceFirst(s: string, p: string, r: string): (out: string)
    ensures IndexOf(s, p).None? ==> out == s
    ensures IndexOf(s, p).Some? ==>
      var j := IndexOf(s, p).value; out == s[..j] + r + s[j + |p|..]
  {
    match IndexOf(s, p)
    case None => s
    case Some(j) => s[..j] + r + s[j + |p|..]
  }

  /** Replacing the first `p` by `p + q` inserts `q` right after that occurrence. */
  lemma ReplaceFirstAppends(s: string, p: string, q: string, i: nat)
    requires IndexOf(s, p) == Some(i)
    ensures ReplaceFirst(s, p, p + q) == s[..i + |p|] + q + s[i + |p|..]
  {
    assert OccursAt(s, p, i);
    var a, b := s[..i], s[i + |p|..];
    assert s[..i + |p|] == a + s[i..i + |p|] == a + p;
    assert a + (p + q) + b == (a + p) + q + b;
  }

  /** Replacing the first occurrence with a text disjoint from `q` cannot create `q`. */
  lemma ReplaceFirstKeepsAbsent(s: string, p: string, r: string, q: string)
    requires NoOcc(s, q) && Disjoint(q, r)
    ensures NoOcc(ReplaceFirst(s, p, r), q)
  {
    match IndexOf(s, p)
    case None =>
    case Some(j) =>
      NoOccSlice(s, q, 0, j);
      NoOccSlice(s, q, j + |p|, |s|);
      assert s[0..j] == s[..j] && s[j + |p|..|s|] == s[j + |p|..];
      NoOccJoin(s[..j], r, s[j + |p|..], q);
  }

  /** An occurrence of `g` lies wholly before or wholly after the region `s[a..e]` when
      neither end character of the region is in `g` and `g` holds a character `c` the region
      lacks. */
  lemma OutsideRegion(s: string, g: string, k: int, a: int, e: int, c: char)
    requires OccursAt(s, g, k) && 0 <= a < e <= |s|
    requires s[a] !in g && s[e - 1] !in g && c in g && c !in s[a..e]
    ensures k + |g| <= a || e <= k
  {
    forall q | k <= q < k + |g|
      ensures s[q] in g
    {
      assert s[q] == s[k..k + |g|][q - k];
    }
    forall q | a <= q < e
      ensures s[q] != c
    {
      assert s[q] == s[a..e][q - a];
    }
    var ic :| 0 <= ic < |g| && g[ic] == c;
    assert s[k + ic] == s[k..k + |g|][ic];
  }

  /** Replacing a region that no occurrence of `g` can overlap keeps `g`. */
  lemma RegionKeepsContains(s: string, a: int, e: int, t: string, g: string, c: char)
    requires 0 <= a < e <= |s| && Contains(s, g)
    requires s[a] !in g && s[e - 1] !in g && c in g && c !in s[a..e]
    ensures Contains(s[..a] + t + s[e..], g)
  {
    var k := IndexOf(s, g).value;
    OutsideRegion(s, g, k, a, e, c);
    var w := s[..a] + t + s[e..];
    if k + |g| <= a {
      assert w[k..k + |g|] == s[k..k + |g|];
      OccursContains(w, g, k);
    } else {
      var k' := k - e + a + |t|;
      assert w[k'..k' + |g|] == s[k..k + |g|];
      OccursContains(w, g, k');
    }
  }

  /** Global replacement of a pattern that no occurrence of `g` can overlap keeps `g`. */
  lemma ReplaceAllKeepsContains(s: string, p: string, r: string, g: string, c: char)
    requires p != [] && Contains(s, g)
    requires p[0] !in g && p[|p| - 1] !in g && c in g && c !in p
    ensures Contains(ReplaceAll(s, p, r), g)
  {
    ReplaceAllKeepsOcc(s, p, r, g, c, IndexOf(s, g).value);
  }

  lemma {:induction false} ReplaceAllKeepsOcc(s: string, p: string, r: string, g: string, c: char, k: nat)
    requires p != [] && OccursAt(s, g, k)
    requires p[0] !in g && p[|p| - 1] !in g && c in g && c !in p
    ensures Contains(ReplaceAll(s, p, r), g)
    decreases |s|
  {
    var o := IndexOf(s, p);
    if o.None? {
      ReplaceAllNoOcc(s, p, r);
      OccursContains(s, g, k);
    } else {
      var j := o.value;
      ReplaceAllAtFirst(s, p, r, j);
      OccurrenceApart(s, p, g, c, k, j);
      var t := s[j + |p|..];
      if k + |g| <= j {
        PrefixKeeps(s, j, r, ReplaceAll(t, p, r), g, k);
      } else {
        OccursAfter(s, g, k, j + |p|);
        ReplaceAllKeepsOcc(t, p, r, g, c, k - j - |p|);
        ContainsEnd(s[..j] + r, ReplaceAll(t, p, r), g);
      }
    }
  }

  /** An occurrence of `g` and one of `p` that it cannot overlap lie apart. */
  lemma OccurrenceApart(s: string, p: string, g: string, c: char, k: nat, j: nat)
    requires p != [] && OccursAt(s, g, k) && OccursAt(s, p, j)
    requires p[0] !in g && p[|p| - 1] !in g && c in g && c !in p
    ensures k + |g| <= j || j + |p| <= k
  {
    assert s[j..j + |p|] == p;
    OutsideRegion(s, g, k, j, j + |p|, c);
  }

  /** An occurrence past a point is one of the suffix from that point. */
  lemma OccursAfter(s: string, g: string, k: nat, e: nat)
    requires OccursAt(s, g, k) && e <= k
    ensures OccursAt(s[e..], g, k - e)
  {
    assert s[e..][k - e..k - e + |g|] == s[k..k + |g|];
  }

  lemma PrefixKeeps(s: string, j: nat, u: string, v: string, g: string, k: nat)
    requires OccursAt(s, g, k) && k + |g| <= j <= |s|
    ensures Contains(s[..j] + u + v, g)
  {
    var x := s[..j] + u + v;
    assert x[k..k + |g|] == s[k..k + |g|];
    OccursContains(x, g, k);
  }

  /** No occurrence of `q` can start inside `w` (one may start there and run past its end):
      the first half of `Disjoint`. */
  predicate NoStart(w: string, q: string) {
    forall m :: 0 <= m < |w| ==> Mismatch(w[m..], q)
  }

  /** A piece whose only possible start of `q` is its first character, and which does not
      match `q` there, lets no occurrence of `q` start inside it. */
  lemma ChunkNoStart(w: string, q: string)
    requires q != [] && forall i :: 1 <= i < |w| ==> w[i] != q[0]
    requires w != [] && w[0] == q[0] ==> Mismatch(w, q)
    ensures NoStart(w, q)
  {
    forall m | 0 <= m < |w|
      ensures Mismatch(w[m..], q)
    {
      if m > 0 || w[0] != q[0] {
        assert w[m..][0] != q[0];
      }
    }
  }

  lemma NoStartConcat(a: string, b: string, q: string)
    requires NoStart(a, q) && NoStart(b, q)
    ensures NoStart(a + b, q)
  {
    var w := a + b;
    forall m | 0 <= m < |w|
      ensures Mismatch(w[m..], q)
    {
      if m < |a| {
        assert Mismatch(a[m..], q);
        var d :| 0 <= d < |a[m..]| && d < |q| && a[m..][d] != q[d];
        assert w[m..][d] == a[m..][d];
      } else {
        assert w[m..] == b[m - |a|..];
      }
    }
  }

  /** `s.split(c)` for a one-character separator: never empty, no piece contains `c`. */
  function Split(s: string, c: char): (r: seq<string>)
    ensures |r| >= 1
    ensures forall k :: 0 <= k < |r| ==> c !in r[k]
  {
    if s == [] then [""]
    else if s[0] == c then [""] + Split(s[1..], c)
    else
      var t := Split(s[1..], c);
      [[s[0]] + t[0]] + t[1..]
  }

  /** The first piece of a split is the text before the first separator (all of it when
      there is none). */
  lemma {:induction false} SplitFirst(s: string, c: char)
    ensures var f := Split(s, c)[0];
      c !in f && StartsWith(s, f) && (|f| == |s| || s[|f|] == c)
  {
    if s != [] && s[0] != c {
      SplitFirst(s[1..], c);
      var f := Split(s, c)[0];
      var g := Split(s[1..], c)[0];
      assert f == [s[0]] + g;
      assert s[..|f|] == [s[0]] + s[1..][..|g|];
    }
  }

  /** `pieces.join(c)`. */
  function Join(pieces: seq<string>, c: char): string
    requires |pieces| >= 1
  {
    if |pieces| == 1 then pieces[0] else pieces[0] + [c] + Join(pieces[1..], c)
  }

  /** Joining the pieces of a split gives back the original text. */
  lemma {:induction false} JoinSplit(s: string, c: char)
    ensures Join(Split(s, c), c) == s
  {
    if s != [] {
      JoinSplit(s[1..], c);
      var t := Split(s[1..], c);
      if s[0] != c {
        var r := Split(s, c);
        assert r[1..] == t[1..];
        if |t| > 1 {
          assert Join(r, c) == r[0] + [c] + Join(r[1..], c);
          assert Join(t, c) == t[0] + [c] + Join(t[1..], c);
        }
      }
    }
  }

  /** Splitting joined pieces that do not contain the separator gives back the pieces. */
  lemma {:induction false} SplitJoin(pieces: seq<string>, c: char)
    requires |pieces| >= 1
    requires forall k :: 0 <= k < |pieces| ==> c !in pieces[k]
    ensures Split(Join(pieces, c), c) == pieces
    decreases pieces, |pieces[0]|
  {
    var p0 := pieces[0];
    if |pieces| == 1 {
      SplitPiece(p0, c, []);
    } else {
      SplitJoin(pieces[1..], c);
      SplitPiece(p0, c, Join(pieces[1..], c));
      assert pieces == [p0] + pieces[1..];
    }
  }

  /** Splitting a separator-free piece followed by a separator and more text. */
  lemma {:induction false} SplitPiece(p: string, c: char, rest: string)
    requires c !in p
    ensures rest == [] ==> Split(p, c) == [p]
    ensures Split(p + [c] + rest, c) == [p] + Split(rest, c)
    decreases |p|
  {
    if p == [] {
      assert [c] + rest == p + [c] + rest;
      assert ([c] + rest)[1..] == rest;
    } else {
      SplitPiece(p[1..], c, rest);
      assert (p + [c] + rest)[1..] == p[1..] + [c] + rest;
      assert [p[0]] + p[1..] == p;
      if rest == [] {
        assert p[1..] == [] ==> Split(p[1..], c) == [""];
      }
    }
  }

  /** JavaScript's `a || b` on strings: `a` unless it is empty (falsy), then `b`. The result
      is one of the two, and empty only when both are. */
  function Or(a: string, b: string): (r: string)
    ensures r == a || r == b
    ensures a != "" ==> r == a
    ensures r == "" <==> a == "" && b == ""
  {
    if a != "" then a else b
  }
}
