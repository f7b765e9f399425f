/**
 * The few regular expressions the page-patching scripts use, each as the matcher the
 * JavaScript engine runs for it, and `String.prototype.match` (leftmost match) and global
 * `replace` over them.
 *
 * - `<title>.*?<\/title>`: `.` is any character but a line terminator, and the lazy `*?` stops
 *   at the first `</title>`.
 * - `<title>([^<]+)<\/title>`: the group is the run of characters up to the next `<`.
 * - `<body[^>]*>`: up to the first `>` after `<body`.
 * - literal pieces separated by `\s*`: the greedy `\s*` is matched by skipping all white
 *   space, which is exact because every piece used here starts with a character that is not
 *   white space.
 */
module JsRegex {
  import opened Wrappers
  import opened JsString

  datatype Regex =
    | TitleLazy
    | TitleText
    | BodyOpen
    | Spaced(pieces: seq<string>)

  /** The end of the white space starting at `k`. */
  function SkipSpace(s: string, k: nat): (e: nat)
    requires k <= |s|
    ensures k <= e <= |s|
    decreases |s| - k
  {
    if k < |s| && IsSpace(s[k]) then SkipSpace(s, k + 1) else k
  }

  /** What `SkipSpace` skips is white space, and it stops at the end or at a character that is
      not. */
  lemma {:induction false} SkipSpaceSkips(s: string, k: nat)
    requires k <= |s|
    ensures forall i :: k <= i < SkipSpace(s, k) ==> IsSpace(s[i])
    ensures SkipSpace(s, k) == |s| || !IsSpace(s[SkipSpace(s, k)])
    decreases |s| - k
  {
    if k < |s| && IsSpace(s[k]) {
      SkipSpaceSkips(s, k + 1);
    }
  }

  /** `\s*p1\s*p2...` from `j`: the end of the match, if any. */
  function MatchPieces(s: string, j: nat, pieces: seq<string>): (r: Option<nat>)
    requires j <= |s|
    ensures r.Some? ==> j <= r.value <= |s|
    decreases |pieces|
  {
    if pieces == [] then Some(j)
    else
      var k := SkipSpace(s, j);
      if OccursAt(s, pieces[0], k) then MatchPieces(s, k + |pieces[0]|, pieces[1..]) else None
  }

  /** The lazy `.*?<\/title>` from `k`: where the closing tag starts, if it is reached before a
      line terminator or the end. */
  function TitleClose(s: string, k: nat): (r: Option<nat>)
    requires k <= |s|
    ensures r.Some? ==> k <= r.value && OccursAt(s, "</title>", r.value)
    decreases |s| - k
  {
    if OccursAt(s, "</title>", k) then Some(k)
    else if k == |s| || IsLineTerminator(s[k]) then None
    else TitleClose(s, k + 1)
  }

  /** The lazy match stays on one line: no line terminator lies between `k` and the closing
      tag it finds. */
  lemma {:induction false} TitleCloseSameLine(s: string, k: nat)
    requires k <= |s| && TitleClose(s, k).Some?
    ensures forall i :: k <= i < TitleClose(s, k).value ==> !IsLineTerminator(s[i])
    decreases |s| - k
  {
    if !OccursAt(s, "</title>", k) {
      TitleCloseSameLine(s, k + 1);
    }
  }

  /** The first index at or after `k` holding `c`, or `|s|`. */
  function NextChar(s: string, k: nat, c: char): (e: nat)
    requires k <= |s|
    ensures k <= e <= |s| && (e < |s| ==> s[e] == c)
    ensures forall i :: k <= i < e ==> s[i] != c
    decreases |s| - k
  {
    if k == |s| || s[k] == c then k else NextChar(s, k + 1, c)
  }

  /** Every piece of a `\s*`-separated pattern is non-empty and starts with a character that is
      not white space. */
  predicate WellFormed(p: Regex) {
    p.Spaced? ==> SolidPieces(p.pieces)
  }

  /** Every piece is non-empty and starts with a character that is not white space. */
  predicate SolidPieces(pieces: seq<string>) {
    forall m :: 0 <= m < |pieces| ==> pieces[m] != [] && !IsSpace(pieces[m][0])
  }

  /** The end of a match of `p` starting at `i`, if there is one. */
  function MatchAt(p: Regex, s: string, i: nat): (r: Option<nat>)
    requires i <= |s|
    ensures r.Some? ==> i < r.value <= |s|
    ensures r.Some? && p.TitleText? ==> i + 7 < r.value - 8
  {
    match p
    case TitleLazy =>
      if OccursAt(s, "<title>", i) then
        match TitleClose(s, i + 7)
        case Some(k) => Some(k + 8)
        case None => None
      else None
    case TitleText =>
      if OccursAt(s, "<title>", i) then
        var k := NextChar(s, i + 7, '<');
        if k > i + 7 && OccursAt(s, "</title>", k) then Some(k + 8) else None
      else None
    case BodyOpen =>
      if OccursAt(s, "<body", i) then
        var k := NextChar(s, i + 5, '>');
        if k < |s| then Some(k + 1) else None
      else None
    case Spaced(pieces) =>
      if pieces != [] && pieces[0] != [] && OccursAt(s, pieces[0], i) then
        MatchPieces(s, i + |pieces[0]|, pieces[1..])
      else None
  }

  /** The leftmost match starting at or after `i`: its start and end. */
  function FirstFrom(p: Regex, s: string, i: nat): (r: Option<(nat, nat)>)
    requires i <= |s|
    ensures r.Some? ==> i <= r.value.0 < r.value.1 <= |s| && MatchAt(p, s, r.value.0) == Some(r.value.1)
    ensures r.Some? ==> forall j :: i <= j < r.value.0 ==> MatchAt(p, s, j).None?
    ensures r.None? ==> forall j :: i <= j <= |s| ==> MatchAt(p, s, j).None?
    decreases |s| - i
  {
    match MatchAt(p, s, i)
    case Some(e) => Some((i, e))
    case None => if i == |s| then None else FirstFrom(p, s, i + 1)
  }

  /** `s.match(p)` without the global flag: the leftmost match. */
  function Match(p: Regex, s: string): (r: Option<(nat, nat)>)
    ensures r.Some? ==> r.value.0 < r.value.1 <= |s| && MatchAt(p, s, r.value.0) == Some(r.value.1)
    ensures r.Some? ==> forall j :: 0 <= j < r.value.0 ==> MatchAt(p, s, j).None?
    ensures r.None? ==> forall j :: 0 <= j <= |s| ==> MatchAt(p, s, j).None?
  {
    FirstFrom(p, s, 0)
  }

  /** `s.replace(p, r)` with the global flag, from index `i` on: every leftmost,
      non-overlapping match is replaced by `r` (which has no `$` patterns). */
  function ReplaceFrom(p: Regex, s: string, i: nat, r: string): string
    requires i <= |s|
    decreases |s| - i
  {
    match FirstFrom(p, s, i)
    case None => s[i..]
    case Some((a, e)) => s[i..a] + r + ReplaceFrom(p, s, e, r)
  }

  function ReplaceMatches(p: Regex, s: string, r: string): string {
    ReplaceFrom(p, s, 0, r)
  }

  /** A text without a match is left as it is by global replacement. */
  lemma {:induction false} ReplaceFromNone(p: Regex, s: string, i: nat, r: string)
    requires i <= |s| && FirstFrom(p, s, i).None?
    ensures ReplaceFrom(p, s, i, r) == s[i..]
  {
  }

  /** A match is decided by the text it covers: the same text elsewhere matches the same way. */
  lemma Transfer(p: Regex, s: string, i: nat, t: string, j: nat, n: nat)
    requires i + n <= |s| && j + n <= |t| && s[i..i + n] == t[j..j + n]
    requires MatchAt(p, s, i) == Some(i + n)
    requires WellFormed(p)
    ensures MatchAt(p, t, j) == Some(j + n)
  {
    match p
    case TitleLazy => TransferTitleLazy(s, i, t, j, n);
    case TitleText => TransferTitleText(s, i, t, j, n);
    case BodyOpen => TransferBodyOpen(s, i, t, j, n);
    case Spaced(pieces) => TransferSpaced(pieces, s, i, t, j, n);
  }

  lemma TransferTitleLazy(s: string, i: nat, t: string, j: nat, n: nat)
    requires i + n <= |s| && j + n <= |t| && s[i..i + n] == t[j..j + n]
    requires MatchAt(TitleLazy, s, i) == Some(i + n)
    ensures MatchAt(TitleLazy, t, j) == Some(j + n)
  {
    assert OccursAt(s, "<title>", i) && TitleClose(s, i + 7).Some?;
    var k := TitleClose(s, i + 7).value;
    assert k + 8 == i + n;
    WindowOccurs(s, i, t, j, n, "<title>", 0);
    TitleCloseTransfer(s, i, t, j, n, 7);
    assert TitleClose(t, j + 7).value + 8 == j + n;
  }

  lemma TransferTitleText(s: string, i: nat, t: string, j: nat, n: nat)
    requires i + n <= |s| && j + n <= |t| && s[i..i + n] == t[j..j + n]
    requires MatchAt(TitleText, s, i) == Some(i + n)
    ensures MatchAt(TitleText, t, j) == Some(j + n)
  {
    WindowOccurs(s, i, t, j, n, "<title>", 0);
    var k := NextChar(s, i + 7, '<');
    NextCharTransfer(s, i, t, j, n, 7, '<');
    WindowOccurs(s, i, t, j, n, "</title>", k - i);
  }

  lemma TransferBodyOpen(s: string, i: nat, t: string, j: nat, n: nat)
    requires i + n <= |s| && j + n <= |t| && s[i..i + n] == t[j..j + n]
    requires MatchAt(BodyOpen, s, i) == Some(i + n)
    ensures MatchAt(BodyOpen, t, j) == Some(j + n)
  {
    WindowOccurs(s, i, t, j, n, "<body", 0);
    NextCharTransfer(s, i, t, j, n, 5, '>');
  }

  lemma TransferSpaced(pieces: seq<string>, s: string, i: nat, t: string, j: nat, n: nat)
    requires i + n <= |s| && j + n <= |t| && s[i..i + n] == t[j..j + n]
    requires MatchAt(Spaced(pieces), s, i) == Some(i + n)
    requires WellFormed(Spaced(pieces))
    ensures MatchAt(Spaced(pieces), t, j) == Some(j + n)
  {
    WindowOccurs(s, i, t, j, n, pieces[0], 0);
    PiecesTransfer(s, i, t, j, n, |pieces[0]|, pieces[1..]);
  }

  /** An occurrence inside a window is an occurrence inside every copy of the window. */
  lemma WindowOccurs(s: string, i: nat, t: string, j: nat, n: nat, q: string, d: nat)
    requires i + n <= |s| && j + n <= |t| && s[i..i + n] == t[j..j + n]
    requires d + |q| <= n
    ensures OccursAt(s, q, i + d) <==> OccursAt(t, q, j + d)
  {
    SliceOfSlice(s, i, i + n, d, d + |q|);
    SliceOfSlice(t, j, j + n, d, d + |q|);
  }

  /** A character inside a window is the same in every copy of the window. */
  lemma WindowChar(s: string, i: nat, t: string, j: nat, n: nat, d: nat)
    requires i + n <= |s| && j + n <= |t| && s[i..i + n] == t[j..j + n]
    requires d < n
    ensures s[i + d] == t[j + d]
  {
    assert s[i + d] == s[i..i + n][d];
    assert t[j + d] == t[j..j + n][d];
  }

  lemma {:induction false} TitleCloseTransfer(s: string, i: nat, t: string, j: nat, n: nat, d: nat)
    requires i + n <= |s| && j + n <= |t| && s[i..i + n] == t[j..j + n]
    requires d <= n && TitleClose(s, i + d).Some? && TitleClose(s, i + d).value + 8 == i + n
    ensures TitleClose(t, j + d).Some? && TitleClose(t, j + d).value + 8 == j + n
    decreases n - d
  {
    WindowOccurs(s, i, t, j, n, "</title>", d);
    if !OccursAt(s, "</title>", i + d) {
      WindowChar(s, i, t, j, n, d);
      TitleCloseTransfer(s, i, t, j, n, d + 1);
    }
  }

  lemma {:induction false} NextCharTransfer(s: string, i: nat, t: string, j: nat, n: nat, d: nat, c: char)
    requires i + n <= |s| && j + n <= |t| && s[i..i + n] == t[j..j + n]
    requires d <= n && NextChar(s, i + d, c) < i + n
    ensures NextChar(t, j + d, c) == NextChar(s, i + d, c) - i + j
    decreases n - d
  {
    WindowChar(s, i, t, j, n, d);
    if s[i + d] != c {
      NextCharTransfer(s, i, t, j, n, d + 1, c);
    }
  }

  lemma {:induction false} SkipSpaceTransfer(s: string, i: nat, t: string, j: nat, n: nat, d: nat)
    requires i + n <= |s| && j + n <= |t| && s[i..i + n] == t[j..j + n]
    requires d <= n && SkipSpace(s, i + d) < i + n
    ensures SkipSpace(t, j + d) == SkipSpace(s, i + d) - i + j
    decreases n - d
  {
    WindowChar(s, i, t, j, n, d);
    if IsSpace(s[i + d]) {
      SkipSpaceTransfer(s, i, t, j, n, d + 1);
    }
  }

  lemma {:induction false} PiecesTransfer(s: string, i: nat, t: string, j: nat, n: nat, d: nat, pieces: seq<string>)
    requires i + n <= |s| && j + n <= |t| && s[i..i + n] == t[j..j + n]
    requires d <= n && MatchPieces(s, i + d, pieces) == Some(i + n)
    requires SolidPieces(pieces)
    ensures MatchPieces(t, j + d, pieces) == Some(j + n)
    decreases |pieces|
  {
    if pieces != [] {
      var d' := PiecesHead(s, i, t, j, n, d, pieces);
      PiecesStep(t, j + d, pieces);
      PiecesTransfer(s, i, t, j, n, d', pieces[1..]);
      assert MatchPieces(t, j + d, pieces) == MatchPieces(t, j + d', pieces[1..]);
    }
  }

  /** The first piece of a match inside the window is matched at the same place in the copy;
      `d'` is where the rest of the match starts. */
  lemma PiecesHead(s: string, i: nat, t: string, j: nat, n: nat, d: nat, pieces: seq<string>) returns (d': nat)
    requires i + n <= |s| && j + n <= |t| && s[i..i + n] == t[j..j + n]
    requires d <= n && MatchPieces(s, i + d, pieces) == Some(i + n)
    requires SolidPieces(pieces) && pieces != []
    ensures d' <= n && MatchPieces(s, i + d', pieces[1..]) == Some(i + n) && SolidPieces(pieces[1..])
    ensures OccursAt(t, pieces[0], SkipSpace(t, j + d)) && SkipSpace(t, j + d) + |pieces[0]| == j + d'
  {
    var p := pieces[0];
    var e := SkipSpace(s, i + d);
    PiecesFirst(s, i + d, pieces, i + n);
    d' := e - i + |p|;
    SolidTail(pieces);
    SkipSpaceTransfer(s, i, t, j, n, d);
    WindowOccurs(s, i, t, j, n, p, e - i);
    var f := SkipSpace(t, j + d);
    assert f == j + (e - i) && i + d' == e + |p|;
  }

  /** A match of the pieces starts with the first piece after the white space. */
  lemma PiecesFirst(s: string, j: nat, pieces: seq<string>, b: nat)
    requires j <= |s| && pieces != [] && pieces[0] != [] && MatchPieces(s, j, pieces) == Some(b)
    ensures var e := SkipSpace(s, j);
      && j <= e < e + |pieces[0]| <= b
      && OccursAt(s, pieces[0], e) && MatchPieces(s, e + |pieces[0]|, pieces[1..]) == Some(b)
  {
  }

  /** The first piece after the white space, then the rest, is a match of the pieces. */
  lemma PiecesStep(s: string, j: nat, pieces: seq<string>)
    requires j <= |s| && pieces != [] && OccursAt(s, pieces[0], SkipSpace(s, j))
    ensures MatchPieces(s, j, pieces) == MatchPieces(s, SkipSpace(s, j) + |pieces[0]|, pieces[1..])
  {
  }

  lemma SolidTail(pieces: seq<string>)
    requires SolidPieces(pieces) && pieces != []
    ensures SolidPieces(pieces[1..])
  {
    forall m | 0 <= m < |pieces[1..]|
      ensures pieces[1..][m] != [] && !IsSpace(pieces[1..][m][0])
    {
      assert pieces[1..][m] == pieces[m + 1];
    }
  }

  /** `s.indexOf(m[0])` for the leftmost match `m` of `p` is where that match starts: an
      earlier copy of the matched text would have been an earlier match. */
  lemma IndexOfMatch(p: Regex, s: string)
    requires WellFormed(p) && Match(p, s).Some?
    ensures var (a, e) := Match(p, s).value; IndexOf(s, s[a..e]) == Some(a)
  {
    var (a, e) := Match(p, s).value;
    var m := s[a..e];
    assert OccursAt(s, m, a);
    forall v | 0 <= v < a
      ensures !OccursAt(s, m, v)
    {
      if OccursAt(s, m, v) {
        Transfer(p, s, a, s, v, e - a);
      }
    }
  }

  /** A character that is neither white space nor in any piece occurs nowhere in a match of
      the pieces. */
  lemma {:induction false} PiecesAvoid(s: string, j: nat, pieces: seq<string>, c: char)
    requires j <= |s| && MatchPieces(s, j, pieces).Some? && !IsSpace(c)
    requires forall m :: 0 <= m < |pieces| ==> c !in pieces[m]
    ensures forall q :: j <= q < MatchPieces(s, j, pieces).value ==> s[q] != c
    decreases |pieces|
  {
    if pieces != [] {
      var k := SkipSpace(s, j);
      SkipSpaceSkips(s, j);
      var p := pieces[0];
      forall q | k <= q < k + |p|
        ensures s[q] != c
      {
        assert s[q] == s[k..k + |p|][q - k];
      }
      PiecesAvoid(s, k + |p|, pieces[1..], c);
    }
  }

  /** A match of the pieces ends with the last piece. */
  lemma {:induction false} PiecesLast(s: string, j: nat, pieces: seq<string>)
    requires j <= |s| && MatchPieces(s, j, pieces).Some? && pieces != []
    ensures var e := MatchPieces(s, j, pieces).value; var p := pieces[|pieces| - 1];
      |p| <= e && s[e - |p|..e] == p
    decreases |pieces|
  {
    if |pieces| > 1 {
      var k := SkipSpace(s, j);
      PiecesLast(s, k + |pieces[0]|, pieces[1..]);
    }
  }
}
