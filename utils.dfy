/**
 * public/utils.js: HTML escaping for text inserted into markup, and turning the paths the
 * API returns into absolute URLs.
 */
module PublicUtils {
  import opened JsString

  /** `API_BASE`: the local API server when the page is served from localhost, otherwise the
      page's own origin (""). */
  function ApiBase(hostname: string): string {
    if hostname == "localhost" || hostname == "127.0.0.1" then "http://127.0.0.1:3001" else ""
  }

  predicate Special(c: char) {
    c == '&' || c == '<' || c == '>' || c == '"'
  }

  /** The replacement of one character by `/[&<>"]/g`. */
  function EscChar(c: char): (r: string)
    ensures !Special(c) ==> r == [c]
    ensures Special(c) ==> |r| >= 4 && r[0] == '&' && r[|r| - 1] == ';'
  {
    if c == '&' then "&amp;"
    else if c == '<' then "&lt;"
    else if c == '>' then "&gt;"
    else if c == '"' then "&quot;"
    else [c]
  }

  /** `esc(s)` for a string (a missing value is ""): every character in turn, escaped. */
  function Esc(s: string): (r: string)
    ensures |r| >= |s|
    ensures s == "" ==> r == ""
  {
    if s == [] then [] else EscChar(s[0]) + Esc(s[1..])
  }

  /** The escaped text holds no raw '<', '>' or '"'. */
  lemma {:induction false} EscSafe(s: string)
    ensures forall i :: 0 <= i < |Esc(s)| ==> Esc(s)[i] != '<' && Esc(s)[i] != '>' && Esc(s)[i] != '"'
  {
    if s != [] {
      EscSafe(s[1..]);
      var e := EscChar(s[0]);
      assert forall i :: 0 <= i < |e| ==> e[i] != '<' && e[i] != '>' && e[i] != '"';
    }
  }

  /** Text without the four special characters, the single quote included, is left as it is. */
  lemma {:induction false} EscPlain(s: string)
    requires forall i :: 0 <= i < |s| ==> !Special(s[i])
    ensures Esc(s) == s
  {
    if s != [] {
      EscPlain(s[1..]);
      assert [s[0]] + s[1..] == s;
    }
  }

  /** Decoding of the four entities `esc` writes, the inverse of `esc`. */
  function Unescape(t: string): string
    decreases |t|
  {
    if t == [] then []
    else if t[0] != '&' then [t[0]] + Unescape(t[1..])
    else if StartsWith(t, "&amp;") then "&" + Unescape(t[5..])
    else if StartsWith(t, "&lt;") then "<" + Unescape(t[4..])
    else if StartsWith(t, "&gt;") then ">" + Unescape(t[4..])
    else if StartsWith(t, "&quot;") then "\"" + Unescape(t[6..])
    else [t[0]] + Unescape(t[1..])
  }

  /** Escaping loses nothing: decoding gives the original text back. */
  lemma {:induction false} UnescapeEsc(s: string)
    ensures Unescape(Esc(s)) == s
  {
    if s != [] {
      UnescapeEsc(s[1..]);
      UnescapeChar(s[0], Esc(s[1..]));
      assert [s[0]] + s[1..] == s;
    }
  }

  lemma UnescapeChar(c: char, rest: string)
    ensures Unescape(EscChar(c) + rest) == [c] + Unescape(rest)
  {
    var t := EscChar(c) + rest;
    if c == '&' {
      assert t[..5] == "&amp;" && t[5..] == rest;
    } else if c == '<' {
      assert !StartsWith(t, "&amp;") by { assert t[1] == 'l'; }
      assert t[..4] == "&lt;" && t[4..] == rest;
    } else if c == '>' {
      assert !StartsWith(t, "&amp;") && !StartsWith(t, "&lt;") by { assert t[1] == 'g'; }
      assert t[..4] == "&gt;" && t[4..] == rest;
    } else if c == '"' {
      assert !StartsWith(t, "&amp;") && !StartsWith(t, "&lt;") && !StartsWith(t, "&gt;") by { assert t[1] == 'q'; }
      assert t[..6] == "&quot;" && t[6..] == rest;
    } else {
      assert t[0] == c && t[1..] == rest;
    }
  }

  /** `/^https?:\/\//i`. */
  predicate HasScheme(u: string) {
    StartsWith(Lower(u), "http://") || StartsWith(Lower(u), "https://")
  }

  /** `toAbs(u)`: "" for a missing value, an http(s) URL in any letter case as it is, and
      otherwise the path under `API_BASE`, with a '/' added when the path has none. */
  function ToAbs(u: string, apiBase: string): (r: string)
    ensures u == "" ==> r == ""
    ensures u != "" && HasScheme(u) ==> r == u
    ensures u != "" && !HasScheme(u) ==>
      r == apiBase + (if StartsWith(u, "/") then u else "/" + u)
  {
    if u == "" then ""
    else if HasScheme(u) then u
    else if StartsWith(u, "/") then apiBase + u
    else apiBase + "/" + u
  }

  /** Resolving a resolved URL changes nothing, whichever `API_BASE` the page has. */
  lemma ToAbsIdempotent(u: string, hostname: string)
    ensures var b := ApiBase(hostname);
      ToAbs(ToAbs(u, b), b) == ToAbs(u, b)
  {
    var b := ApiBase(hostname);
    var r := ToAbs(u, b);
    if u != "" && !HasScheme(u) {
      var path := if StartsWith(u, "/") then u else "/" + u;
      if b == "" {
        assert r == path && StartsWith(path, "/");
      } else {
        assert r[..7] == "http://";
        assert Lower(r)[..7] == Lower(r[..7]);
        assert HasScheme(r);
      }
    }
  }
}
