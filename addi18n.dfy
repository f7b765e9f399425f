/**
 * scripts/add-i18n-to-pages.js: `addI18nToPage`, which prepares a page for the translation
 * script by linking its stylesheet, tagging the navigation labels and the title with
 * translation keys, and loading its script. The file system is an input: the page's content,
 * and the content written back.
 */
module AddI18nToPages {
  import opened Wrappers
  import opened JsString
  import opened JsRegex
  import opened JsArray
  import opened PageFiles

  /** `pages`: the pages of public/ the script updates, in order. */
  const PAGES: seq<string> := [
    "life-tips.html", "enrollment-steps.html", "hospital.html", "share.html", "fun.html",
    "profile.html", "publish.html", "messages.html"
  ]

  /** The guard of step 1, and the link it is inserted after (the pattern
      `/<link rel="stylesheet" href="mobile-optimization\.css">/` is a literal). */
  const CSS_GUARD: string := "i18n.css"
  const MOBILE_CSS_LINK: string := "<link rel=\"stylesheet\" href=\"mobile-optimization.css\">"

  /** What follows the mobile link after step 1. */
  const I18N_CSS_LINK: string := "\n  \n  <!-- 多语言支持CSS -->\n  <link rel=\"stylesheet\" href=\"" + CSS_GUARD + "\">"

  /** `navTranslations` in its insertion order: each label and its key. */
  const NAV_TRANSLATIONS: seq<(string, string)> := [
    ("主页", "nav.home"), ("生活小贴士", "nav.life"), ("学习指导", "nav.study"),
    ("入学步骤", "nav.enrollment"), ("分享", "nav.share"), ("娱乐", "nav.fun"),
    ("医院", "nav.hospital"), ("个人", "nav.profile"), ("生活", "nav.life"),
    ("学习", "nav.study"), ("入学", "nav.enrollment")
  ]

  /** The guard of step 3, the pattern `/<\/script>\s*<\/body>\s*<\/html>/`, and its
      replacement. */
  const SCRIPT_GUARD: string := "i18n.js"
  const PAGE_END: Regex := Spaced(["</script>", "</body>", "</html>"])
  const PAGE_END_REPLACEMENT: string :=
    "</script>\n  \n  " + "<!-- 多语言支持JavaScript -->\n  " + "<script src=\"" + SCRIPT_GUARD + "\">" +
    "</script>\n" + "</body>\n" + "</html>"

  /** The title keywords of step 4 in the order they are tried, each with its key. */
  const TITLE_KEYWORDS: seq<(string, string)> := [
    ("学习指导", "page.title.study"), ("生活小贴士", "page.title.life"),
    ("入学步骤", "page.title.enrollment"), ("医院", "page.title.hospital"),
    ("分享", "page.title.share"), ("娱乐", "page.title.fun"), ("个人", "page.title.profile"),
    ("发布", "page.title.publish"), ("消息", "page.title.messages")
  ]

  /** The exact navigation label `<span>X</span>` and its tagged form. */
  function SpanPattern(text: string): string {
    "<span>" + text + "</span>"
  }

  function TaggedSpan(text: string, key: string): string {
    "<span data-i18n=\"" + key + "\">" + text + "</span>"
  }

  /** Step 1: the i18n stylesheet after the first mobile stylesheet link, unless the page
      already mentions 'i18n.css'. */
  function LinkStylesheet(s: string): string {
    if Contains(s, CSS_GUARD) then s else ReplaceFirst(s, MOBILE_CSS_LINK, MOBILE_CSS_LINK + I18N_CSS_LINK)
  }

  /** One entry of step 2: the desktop and then the mobile replacement, both global. */
  function TagLabel(s: string, text: string, key: string): string {
    var p := SpanPattern(text);
    var r := TaggedSpan(text, key);
    ReplaceAll(ReplaceAll(s, p, r), p, r)
  }

  /** Step 2 over `entries`, in order. */
  function TagLabels(s: string, entries: seq<(string, string)>): string
    decreases |entries|
  {
    if entries == [] then s
    else TagLabels(TagLabel(s, entries[0].0, entries[0].1), entries[1..])
  }

  /** Step 3: the i18n script in place of the first `</script></body></html>` (white space
      allowed between them), unless the page already mentions 'i18n.js'. */
  function LinkScript(s: string): string {
    if Contains(s, SCRIPT_GUARD) then s
    else
      match Match(PAGE_END, s)
      case None => s
      case Some((a, e)) => s[..a] + PAGE_END_REPLACEMENT + s[e..]
  }

  /** The chain of `includes` tests of step 4 over `keywords`: the key of the first keyword
      the title contains. */
  function FirstKey(title: string, keywords: seq<(string, string)>): Option<string>
    decreases |keywords|
  {
    if keywords == [] then None
    else if Contains(title, keywords[0].0) then Some(keywords[0].1)
    else FirstKey(title, keywords[1..])
  }

  /** The key step 4 chooses for a title. */
  function TitleKey(title: string): Option<string> {
    FirstKey(title, TITLE_KEYWORDS)
  }

  /** The tagged title that replaces `<title>T</title>`, and its opening tag. */
  function TaggedTitle(title: string, key: string): string {
    TitleHead(key) + title + "</title>"
  }

  function TitleHead(key: string): string {
    "<title data-i18n=\"" + key + "\">"
  }

  /** Step 4: the first `<title>T</title>` (T without '<') gets the key of its keyword; the
      replacement's `$1` is T. */
  function TagTitle(s: string): string {
    match Match(TitleText, s)
    case None => s
    case Some((a, e)) => TitleAt(s, a, e)
  }

  /** The page with the title `s[a..e]` tagged with the key of its text, if it has one. */
  function TitleAt(s: string, a: nat, e: nat): string
    requires a + 7 <= e - 8 && e <= |s|
  {
    var title := s[a + 7..e - 8];
    match TitleKey(title)
    case None => s
    case Some(key) => s[..a] + TaggedTitle(title, key) + s[e..]
  }

  // Step 1.

  /** The i18n stylesheet goes right after the first mobile stylesheet link, only when the
      page does not mention 'i18n.css'; afterwards the page mentions it exactly when it did or
      had the mobile link. */
  lemma LinkStylesheetSpec(s: string)
    ensures Contains(s, CSS_GUARD) ==> LinkStylesheet(s) == s
    ensures !Contains(s, CSS_GUARD) && !Contains(s, MOBILE_CSS_LINK) ==> LinkStylesheet(s) == s
    ensures !Contains(s, CSS_GUARD) && Contains(s, MOBILE_CSS_LINK) ==>
      var j := IndexOf(s, MOBILE_CSS_LINK).value + |MOBILE_CSS_LINK|;
      LinkStylesheet(s) == s[..j] + I18N_CSS_LINK + s[j..]
    ensures Contains(LinkStylesheet(s), CSS_GUARD) <==> Contains(s, CSS_GUARD) || Contains(s, MOBILE_CSS_LINK)
  {
    if !Contains(s, CSS_GUARD) && Contains(s, MOBILE_CSS_LINK) {
      LinkStylesheetInserts(s);
    }
  }

  lemma LinkStylesheetInserts(s: string)
    requires !Contains(s, CSS_GUARD) && Contains(s, MOBILE_CSS_LINK)
    ensures var j := IndexOf(s, MOBILE_CSS_LINK).value + |MOBILE_CSS_LINK|;
      LinkStylesheet(s) == s[..j] + I18N_CSS_LINK + s[j..]
    ensures Contains(LinkStylesheet(s), CSS_GUARD)
  {
    var i := IndexOf(s, MOBILE_CSS_LINK).value;
    var j := i + |MOBILE_CSS_LINK|;
    ReplaceFirstAppends(s, MOBILE_CSS_LINK, I18N_CSS_LINK, i);
    CssLinkHasGuard();
    ContainsInside(s[..j], I18N_CSS_LINK, s[j..], CSS_GUARD);
  }

  lemma CssLinkHasGuard()
    ensures Contains(I18N_CSS_LINK, CSS_GUARD)
  {
    ContainsMiddle("\n  \n  <!-- 多语言支持CSS -->\n  <link rel=\"stylesheet\" href=\"", CSS_GUARD, "\">");
  }

  lemma LinkStylesheetIdempotent(s: string)
    ensures LinkStylesheet(LinkStylesheet(s)) == LinkStylesheet(s)
  {
    LinkStylesheetSpec(s);
    LinkStylesheetSpec(LinkStylesheet(s));
  }

  // Step 2.

  /** Every label and key of a table contains no '<', and every label no '1' (a character of
      both guards 'i18n.css' and 'i18n.js'). */
  predicate PlainEntries(entries: seq<(string, string)>) {
    forall k :: 0 <= k < |entries| ==> '<' !in entries[k].0 && '<' !in entries[k].1 && '1' !in entries[k].0
  }

  lemma NavTranslationsPlain()
    ensures PlainEntries(NAV_TRANSLATIONS)
  {
  }

  /** No exact label of the table is left in `s`. */
  predicate NoPlainLabel(s: string, entries: seq<(string, string)>) {
    forall k :: 0 <= k < |entries| ==> NoOcc(s, SpanPattern(entries[k].0))
  }

  lemma MismatchAt(a: string, b: string, d: nat)
    requires d < |a| && d < |b| && a[d] != b[d]
    ensures Mismatch(a, b)
  {
  }

  /** Inside an exact label, '<' is only at the start and at the closing tag. */
  lemma SpanBrackets(x: string)
    requires '<' !in x
    ensures var q := SpanPattern(x); |q| == |x| + 13 && q[0] == '<' && q[5] == '>' && q[1] == 's'
    ensures var q := SpanPattern(x); forall i :: 0 < i < |q| && i != |q| - 7 ==> q[i] != '<'
    ensures var q := SpanPattern(x); q[|q| - 7..] == "</span>"
  {
    var q := SpanPattern(x);
    forall i | 0 < i < |q| && i != |q| - 7
      ensures q[i] != '<'
    {
      if 6 <= i < 6 + |x| {
        assert q[i] == x[i - 6];
      }
    }
  }

  /** A text starting with '<' that differs from "</span>" in their common length does not
      contain an exact label's end followed by more of the label: the second half of
      `Disjoint`. */
  lemma SpanDisjointFrom(x: string, r: string)
    requires '<' !in x && r != [] && r[0] == '<' && Mismatch("</span>", r)
    requires NoStart(r, SpanPattern(x))
    ensures Disjoint(SpanPattern(x), r)
  {
    var q := SpanPattern(x);
    SpanBrackets(x);
    forall m | 0 < m < |q|
      ensures Mismatch(q[m..], r)
    {
      if m == |q| - 7 {
        assert q[m..] == "</span>";
      } else {
        MismatchAt(q[m..], r, 0);
      }
    }
  }

  /** A tagged label creates no exact label: replacing one label's exact form by its tagged
      form cannot make (another) exact label appear. */
  lemma SpanDisjoint(x: string, key: string, y: string)
    requires '<' !in x && '<' !in key && '<' !in y
    ensures Disjoint(SpanPattern(x), TaggedSpan(y, key))
  {
    var q := SpanPattern(x);
    SpanBrackets(x);
    var w1 := "<span data-i18n=\"" + key + "\">" + y;
    var w2 := "</span>";
    assert TaggedSpan(y, key) == w1 + w2;
    forall i | 1 <= i < |w1|
      ensures w1[i] != '<'
    {
      if 17 <= i < 17 + |key| {
        assert w1[i] == key[i - 17];
      } else if 19 + |key| <= i {
        assert w1[i] == y[i - 19 - |key|];
      }
    }
    MismatchAt(w1, q, 5);
    ChunkNoStart(w1, q);
    MismatchAt(w2, q, 1);
    ChunkNoStart(w2, q);
    NoStartConcat(w1, w2, q);
    MismatchAt("</span>", w1 + w2, 1);
    SpanDisjointFrom(x, w1 + w2);
  }

  /** Tagging labels never brings back an exact label that was absent. */
  lemma {:induction false} TagLabelsKeepsAbsent(s: string, entries: seq<(string, string)>, x: string)
    requires PlainEntries(entries) && '<' !in x && NoOcc(s, SpanPattern(x))
    ensures NoOcc(TagLabels(s, entries), SpanPattern(x))
    decreases |entries|
  {
    if entries != [] {
      var (text, key) := entries[0];
      SpanDisjoint(x, key, text);
      var p, r := SpanPattern(text), TaggedSpan(text, key);
      ReplaceAllKeepsAbsent(s, p, r, SpanPattern(x));
      ReplaceAllKeepsAbsent(ReplaceAll(s, p, r), p, r, SpanPattern(x));
      TagLabelsKeepsAbsent(TagLabel(s, text, key), entries[1..], x);
    }
  }

  /** After step 2 no exact `<span>X</span>` of a mapped label is left, and each entry's
      second (mobile) replacement finds nothing left to replace. */
  lemma {:induction false} TagLabelsRemoves(s: string, entries: seq<(string, string)>)
    requires PlainEntries(entries)
    ensures NoPlainLabel(TagLabels(s, entries), entries)
    ensures entries != [] ==>
      var p := SpanPattern(entries[0].0);
      NoOcc(ReplaceAll(s, p, TaggedSpan(entries[0].0, entries[0].1)), p)
    decreases |entries|
  {
    if entries != [] {
      var (text, key) := entries[0];
      var p, r := SpanPattern(text), TaggedSpan(text, key);
      SpanDisjoint(text, key, text);
      ReplaceAllRemoves(s, p, r);
      ReplaceAllNoOcc(ReplaceAll(s, p, r), p, r);
      var s1 := TagLabel(s, text, key);
      TagLabelsRemoves(s1, entries[1..]);
      TagLabelsKeepsAbsent(s1, entries[1..], text);
      var out := TagLabels(s, entries);
      forall k | 0 <= k < |entries|
        ensures NoOcc(out, SpanPattern(entries[k].0))
      {
        if k > 0 {
          assert entries[k] == entries[1..][k - 1];
        }
      }
    }
  }

  /** Step 2 leaves a page without exact labels unchanged. */
  lemma {:induction false} TagLabelsNoop(s: string, entries: seq<(string, string)>)
    requires NoPlainLabel(s, entries)
    ensures TagLabels(s, entries) == s
    decreases |entries|
  {
    if entries != [] {
      var (text, key) := entries[0];
      var p, r := SpanPattern(text), TaggedSpan(text, key);
      assert NoOcc(s, p);
      ReplaceAllNoOcc(s, p, r);
      assert TagLabel(s, text, key) == s;
      assert NoPlainLabel(s, entries[1..]) by {
        forall k | 0 <= k < |entries[1..]|
          ensures NoOcc(s, SpanPattern(entries[1..][k].0))
        {
          assert entries[1..][k] == entries[k + 1];
        }
      }
      TagLabelsNoop(s, entries[1..]);
    }
  }

  /** A second step 2 changes nothing. */
  lemma TagLabelsIdempotent(s: string)
    ensures TagLabels(TagLabels(s, NAV_TRANSLATIONS), NAV_TRANSLATIONS) == TagLabels(s, NAV_TRANSLATIONS)
  {
    NavTranslationsPlain();
    TagLabelsRemoves(s, NAV_TRANSLATIONS);
    TagLabelsNoop(TagLabels(s, NAV_TRANSLATIONS), NAV_TRANSLATIONS);
  }

  /** Tagging labels keeps the guards: no exact label can overlap 'i18n.css' or 'i18n.js'. */
  lemma {:induction false} TagLabelsKeepsGuard(s: string, entries: seq<(string, string)>, g: string)
    requires PlainEntries(entries) && Contains(s, g) && '<' !in g && '>' !in g && '1' in g
    ensures Contains(TagLabels(s, entries), g)
    decreases |entries|
  {
    if entries != [] {
      var (text, key) := entries[0];
      var p, r := SpanPattern(text), TaggedSpan(text, key);
      SpanBrackets(text);
      assert '1' !in p;
      ReplaceAllKeepsContains(s, p, r, g, '1');
      ReplaceAllKeepsContains(ReplaceAll(s, p, r), p, r, g, '1');
      TagLabelsKeepsGuard(TagLabel(s, text, key), entries[1..], g);
    }
  }

  // Step 3.

  /** The replacement of step 3 holds its guard 'i18n.js'. */
  lemma ReplacementHasScriptGuard()
    ensures Contains(PAGE_END_REPLACEMENT, SCRIPT_GUARD)
  {
    var a := "</script>\n  \n  " + "<!-- 多语言支持JavaScript -->\n  " + "<script src=\"";
    ContainsMiddle(a, SCRIPT_GUARD, "\">");
    var b := a + SCRIPT_GUARD + "\">";
    ContainsStart(b, "</script>\n", SCRIPT_GUARD);
    ContainsStart(b + "</script>\n", "</body>\n", SCRIPT_GUARD);
    ContainsStart(b + "</script>\n" + "</body>\n", "</html>", SCRIPT_GUARD);
  }

  /** The i18n script takes the place of the first `</script></body></html>` (white space
      allowed between the tags), only when the page does not mention 'i18n.js'; afterwards the
      page mentions it exactly when it did or had such an ending. */
  lemma LinkScriptSpec(s: string)
    ensures Contains(s, SCRIPT_GUARD) ==> LinkScript(s) == s
    ensures !Contains(s, SCRIPT_GUARD) && Match(PAGE_END, s).None? ==> LinkScript(s) == s
    ensures !Contains(s, SCRIPT_GUARD) && Match(PAGE_END, s).Some? ==>
      var (a, e) := Match(PAGE_END, s).value;
      && LinkScript(s) == s[..a] + PAGE_END_REPLACEMENT + s[e..]
      && StartsWith(s[a..e], "</script>") && s[a..e][|s[a..e]| - 7..] == "</html>"
    ensures Contains(LinkScript(s), SCRIPT_GUARD) <==> Contains(s, SCRIPT_GUARD) || Match(PAGE_END, s).Some?
  {
    if !Contains(s, SCRIPT_GUARD) && Match(PAGE_END, s).Some? {
      var (a, e) := Match(PAGE_END, s).value;
      PageEndEnds(s, a, e);
      ReplacementHasScriptGuard();
      ContainsInside(s[..a], PAGE_END_REPLACEMENT, s[e..], SCRIPT_GUARD);
    }
  }

  /** A match of the page ending starts with `</script>`, ends with `</html>`, and has no
      '1' in it. */
  lemma PageEndEnds(s: string, a: nat, e: nat)
    requires a <= |s| && MatchAt(PAGE_END, s, a) == Some(e)
    ensures a + 9 <= e && s[a..a + 9] == "</script>" && s[e - 7..e] == "</html>"
    ensures StartsWith(s[a..e], "</script>") && s[a..e][|s[a..e]| - 7..] == "</html>"
    ensures s[a] == '<' && s[e - 1] == '>' && '1' !in s[a..e]
  {
    var pieces := ["</body>", "</html>"];
    assert OccursAt(s, "</script>", a);
    assert MatchPieces(s, a + 9, pieces) == Some(e);
    PiecesLast(s, a + 9, pieces);
    PiecesAvoid(s, a + 9, pieces, '1');
    assert s[a..e][..9] == s[a..a + 9];
    assert s[a..e][|s[a..e]| - 7..] == s[e - 7..e];
    assert s[a] == s[a..a + 9][0];
    assert s[e - 1] == s[e - 7..e][6];
    forall q | a <= q < e
      ensures s[q] != '1'
    {
      if q < a + 9 {
        assert s[q] == s[a..a + 9][q - a];
      }
    }
    forall i | 0 <= i < e - a
      ensures s[a..e][i] != '1'
    {
      assert s[a..e][i] == s[a + i];
    }
  }

  /** A second step 3 changes nothing. */
  lemma LinkScriptIdempotent(s: string)
    ensures LinkScript(LinkScript(s)) == LinkScript(s)
  {
    LinkScriptSpec(s);
    LinkScriptSpec(LinkScript(s));
  }

  /** Step 3 keeps 'i18n.css': a page ending holds no '1'. */
  lemma LinkScriptKeepsGuard(s: string, g: string)
    requires Contains(s, g) && '<' !in g && '>' !in g && '1' in g
    ensures Contains(LinkScript(s), g)
  {
    if !Contains(s, SCRIPT_GUARD) && Match(PAGE_END, s).Some? {
      var (a, e) := Match(PAGE_END, s).value;
      PageEndEnds(s, a, e);
      RegionKeepsContains(s, a, e, PAGE_END_REPLACEMENT, g, '1');
    }
  }

  /** Step 3 brings back no exact label: the script it adds holds none, and none can run into
      it. */
  lemma LinkScriptKeepsAbsent(s: string, x: string)
    requires '<' !in x && NoOcc(s, SpanPattern(x))
    ensures NoOcc(LinkScript(s), SpanPattern(x))
  {
    if !Contains(s, SCRIPT_GUARD) && Match(PAGE_END, s).Some? {
      var (a, e) := Match(PAGE_END, s).value;
      var q := SpanPattern(x);
      ReplacementDisjoint(x);
      NoOccSlice(s, q, 0, a);
      NoOccSlice(s, q, e, |s|);
      assert s[0..a] == s[..a] && s[e..|s|] == s[e..];
      NoOccJoin(s[..a], PAGE_END_REPLACEMENT, s[e..], q);
    }
  }

  lemma ReplacementDisjoint(x: string)
    requires '<' !in x
    ensures Disjoint(SpanPattern(x), PAGE_END_REPLACEMENT)
  {
    var q := SpanPattern(x);
    SpanBrackets(x);
    assert q[2] == 'p';
    ReplacementNoStart(q);
    MismatchAt("</span>", PAGE_END_REPLACEMENT, 3);
    SpanDisjointFrom(x, PAGE_END_REPLACEMENT);
  }

  /** No text starting `<sp` can start inside the script step 3 adds. */
  lemma ReplacementNoStart(q: string)
    requires |q| > 2 && q[0] == '<' && q[1] == 's' && q[2] == 'p'
    ensures NoStart(PAGE_END_REPLACEMENT, q)
  {
    var h := "</script>\n  \n  " + "<!-- 多语言支持JavaScript -->\n  " + "<script src=\"";
    var t := SCRIPT_GUARD + "\">" + "</script>\n" + "</body>\n" + "</html>";
    ReplacementHeadNoStart(q);
    ReplacementTailNoStart(q);
    NoStartConcat(h, t, q);
    assert h + t == PAGE_END_REPLACEMENT;
  }

  lemma ReplacementHeadNoStart(q: string)
    requires |q| > 2 && q[0] == '<' && q[1] == 's' && q[2] == 'p'
    ensures NoStart("</script>\n  \n  " + "<!-- 多语言支持JavaScript -->\n  " + "<script src=\"", q)
  {
    var c1 := "</script>\n  \n  ";
    var c2 := "<!-- 多语言支持JavaScript -->\n  ";
    var c3 := "<script src=\"";
    MismatchAt(c1, q, 1);
    ChunkNoStart(c1, q);
    MismatchAt(c2, q, 1);
    ChunkNoStart(c2, q);
    MismatchAt(c3, q, 2);
    ChunkNoStart(c3, q);
    NoStartConcat(c1, c2, q);
    NoStartConcat(c1 + c2, c3, q);
  }

  lemma ReplacementTailNoStart(q: string)
    requires |q| > 2 && q[0] == '<' && q[1] == 's' && q[2] == 'p'
    ensures NoStart(SCRIPT_GUARD + "\">" + "</script>\n" + "</body>\n" + "</html>", q)
  {
    var c4 := "\">";
    var c5 := "</script>\n";
    var c6 := "</body>\n";
    var c7 := "</html>";
    ChunkNoStart(SCRIPT_GUARD, q);
    ChunkNoStart(c4, q);
    MismatchAt(c5, q, 1);
    ChunkNoStart(c5, q);
    MismatchAt(c6, q, 1);
    ChunkNoStart(c6, q);
    MismatchAt(c7, q, 1);
    ChunkNoStart(c7, q);
    NoStartConcat(SCRIPT_GUARD, c4, q);
    NoStartConcat(SCRIPT_GUARD + c4, c5, q);
    NoStartConcat(SCRIPT_GUARD + c4 + c5, c6, q);
    NoStartConcat(SCRIPT_GUARD + c4 + c5 + c6, c7, q);
  }

  // Step 4.

  /** The key of the first keyword, in order, that the title contains. */
  function FirstKeywordKey(title: string, keywords: seq<(string, string)>): Option<string> {
    match FindIndex(keywords, (kw: (string, string)) => Contains(title, kw.0))
    case Some(i) => Some(keywords[i].1)
    case None => None
  }

  /** The chain of tests picks the key of the first listed keyword the title contains, and
      none when it contains no keyword. */
  lemma {:induction false} FirstKeyIsFirst(title: string, keywords: seq<(string, string)>)
    ensures FirstKey(title, keywords) == FirstKeywordKey(title, keywords)
    ensures FirstKey(title, keywords).None? <==>
      forall k :: 0 <= k < |keywords| ==> !Contains(title, keywords[k].0)
    decreases |keywords|
  {
    if keywords != [] && !Contains(title, keywords[0].0) {
      var rest := keywords[1..];
      FirstKeyIsFirst(title, rest);
      var f := (kw: (string, string)) => Contains(title, kw.0);
      assert FindIndex(keywords, f) == match FindIndex(rest, f) case None => None case Some(k) => Some(k + 1);
      forall k | 0 < k < |keywords|
        ensures keywords[k] == rest[k - 1]
      {
      }
    }
  }

  /** The title keywords in step 4's order, and no key of them contains '<'. */
  lemma TitleKeyFirst(title: string)
    ensures TitleKey(title) == FirstKeywordKey(title, TITLE_KEYWORDS)
    ensures TitleKey(title).None? <==>
      forall k :: 0 <= k < |TITLE_KEYWORDS| ==> !Contains(title, TITLE_KEYWORDS[k].0)
  {
    FirstKeyIsFirst(title, TITLE_KEYWORDS);
  }

  /** A key chosen from a table is one of the table's keys. */
  lemma {:induction false} FirstKeyIn(title: string, keywords: seq<(string, string)>)
    ensures FirstKey(title, keywords).Some? ==>
      exists k :: 0 <= k < |keywords| && FirstKey(title, keywords).value == keywords[k].1
    decreases |keywords|
  {
    if keywords != [] && !Contains(title, keywords[0].0) {
      FirstKeyIn(title, keywords[1..]);
      if FirstKey(title, keywords).Some? {
        var k :| 0 <= k < |keywords[1..]| && FirstKey(title, keywords[1..]).value == keywords[1..][k].1;
        assert keywords[1..][k] == keywords[k + 1];
      }
    } else if keywords != [] {
      assert FirstKey(title, keywords).value == keywords[0].1;
    }
  }

  lemma TitleKeyPlain(title: string)
    ensures TitleKey(title).Some? ==> '<' !in TitleKey(title).value
  {
    FirstKeyIn(title, TITLE_KEYWORDS);
    TitleKeysPlain();
  }

  lemma TitleKeysPlain()
    ensures forall k :: 0 <= k < |TITLE_KEYWORDS| ==> '<' !in TITLE_KEYWORDS[k].1
  {
  }

  /** The title text of step 4's first match: between `<title>` and `</title>`, non-empty and
      without '<'. */
  lemma TitleMatchParts(s: string, a: nat, e: nat)
    requires a <= |s| && MatchAt(TitleText, s, a) == Some(e)
    ensures a + 7 < e - 8 && s[a..a + 7] == "<title>" && s[e - 8..e] == "</title>"
    ensures '<' !in s[a + 7..e - 8]
    ensures s[a + 7..] == s[a + 7..e - 8] + "</title>" + s[e..]
  {
    assert OccursAt(s, "<title>", a);
    var k := NextChar(s, a + 7, '<');
    assert k == e - 8;
    var sl := s[a + 7..k];
    forall i | 0 <= i < |sl|
      ensures sl[i] != '<'
    {
      assert sl[i] == s[a + 7 + i];
    }
    assert s[a + 7..] == s[a + 7..k] + s[k..e] + s[e..];
  }

  /** Without a plain title, or with a title holding no keyword, step 4 changes nothing. */
  lemma TagTitleNoMatch(s: string)
    requires Match(TitleText, s).None?
    ensures TagTitle(s) == s
  {
  }

  lemma TagTitleNoKey(s: string, a: nat, e: nat)
    requires Match(TitleText, s) == Some((a, e)) && TitleKey(s[a + 7..e - 8]).None?
    ensures TagTitle(s) == s
  {
    TitleMatchParts(s, a, e);
    TitleAtNoKey(s, a, e);
  }

  lemma TitleAtNoKey(s: string, a: nat, e: nat)
    requires a + 7 <= e - 8 && e <= |s| && TitleKey(s[a + 7..e - 8]).None?
    ensures TitleAt(s, a, e) == s
  {
  }

  lemma TitleAtKey(s: string, a: nat, e: nat, key: string)
    requires a + 7 <= e - 8 && e <= |s| && TitleKey(s[a + 7..e - 8]) == Some(key)
    ensures TitleAt(s, a, e) == s[..a] + TaggedTitle(s[a + 7..e - 8], key) + s[e..]
  {
  }

  lemma TagTitleBody(s: string, a: nat, e: nat, key: string)
    requires Match(TitleText, s) == Some((a, e)) && TitleKey(s[a + 7..e - 8]) == Some(key)
    ensures TagTitle(s) == s[..a] + TaggedTitle(s[a + 7..e - 8], key) + s[e..]
  {
    TitleMatchParts(s, a, e);
    TitleAtKey(s, a, e, key);
  }

  /** Step 4 with a key only rewrites the opening tag of the first plain title: everything
      from the title text on is kept as it is. */
  lemma TagTitleRetitles(s: string, a: nat, e: nat, key: string)
    requires Match(TitleText, s) == Some((a, e)) && TitleKey(s[a + 7..e - 8]) == Some(key)
    ensures TagTitle(s) == s[..a] + TitleHead(key) + s[a + 7..]
  {
    TagTitleBody(s, a, e, key);
    TitleMatchParts(s, a, e);
    Regroup(s[..a], TitleHead(key), s[a + 7..e - 8], "</title>", s[e..]);
  }

  lemma Regroup(x: string, h: string, m: string, c: string, y: string)
    ensures x + (h + m + c) + y == x + h + (m + c + y)
  {
  }

  /** Step 4 keeps the guards: the opening tag it rewrites holds no '1'. */
  lemma TagTitleKeepsGuard(s: string, g: string)
    requires Contains(s, g) && '<' !in g && '>' !in g && '1' in g
    ensures Contains(TagTitle(s), g)
  {
    var m := Match(TitleText, s);
    if m.None? {
      TagTitleNoMatch(s);
    } else {
      var (a, e) := m.value;
      var k := TitleKey(s[a + 7..e - 8]);
      if k.None? {
        TagTitleNoKey(s, a, e);
      } else {
        RetitleKeepsGuard(s, a, e, k.value, g);
      }
    }
  }

  lemma RetitleKeepsGuard(s: string, a: nat, e: nat, key: string, g: string)
    requires Match(TitleText, s) == Some((a, e)) && TitleKey(s[a + 7..e - 8]) == Some(key)
    requires Contains(s, g) && '<' !in g && '>' !in g && '1' in g
    ensures Contains(TagTitle(s), g)
  {
    TagTitleRetitles(s, a, e, key);
    TitleMatchParts(s, a, e);
    var h := s[a..a + 7];
    assert h == "<title>" && '1' !in h;
    assert s[a] == h[0] && s[a + 6] == h[6];
    RegionKeepsContains(s, a, a + 7, TitleHead(key), g, '1');
  }

  /** Step 4 brings back no exact label. */
  lemma TagTitleKeepsAbsent(s: string, x: string)
    requires '<' !in x && NoOcc(s, SpanPattern(x))
    ensures NoOcc(TagTitle(s), SpanPattern(x))
  {
    var m := Match(TitleText, s);
    if m.None? {
      TagTitleNoMatch(s);
    } else {
      var (a, e) := m.value;
      var title := s[a + 7..e - 8];
      var k := TitleKey(title);
      if k.None? {
        TagTitleNoKey(s, a, e);
      } else {
        var key := k.value;
        TagTitleRetitles(s, a, e, key);
        TitleKeyPlain(title);
        var q := SpanPattern(x);
        TitleHeadDisjoint(x, key);
        NoOccSlice(s, q, 0, a);
        NoOccSlice(s, q, a + 7, |s|);
        assert s[0..a] == s[..a] && s[a + 7..|s|] == s[a + 7..];
        NoOccJoin(s[..a], TitleHead(key), s[a + 7..], q);
      }
    }
  }

  lemma TitleHeadDisjoint(x: string, key: string)
    requires '<' !in x && '<' !in key
    ensures Disjoint(SpanPattern(x), TitleHead(key))
  {
    var q := SpanPattern(x);
    var h := TitleHead(key);
    SpanBrackets(x);
    TitleHeadPlain(key);
    MismatchAt(h, q, 1);
    ChunkNoStart(h, q);
    MismatchAt("</span>", h, 1);
    SpanDisjointFrom(x, h);
  }

  /** The opening tag step 4 writes has '<' only in front, and is not `<title>`. */
  lemma TitleHeadPlain(key: string)
    requires '<' !in key
    ensures var h := TitleHead(key); |h| > 7 && h[0] == '<' && h[1] == 't' && h[6] == ' '
    ensures var h := TitleHead(key); forall i :: 1 <= i < |h| ==> h[i] != '<'
  {
    var h := TitleHead(key);
    forall i | 1 <= i < |h|
      ensures h[i] != '<'
    {
      if 18 <= i < 18 + |key| {
        assert h[i] == key[i - 18];
      }
    }
  }

  /** Inside `<title>` and `</title>`, '<' is only the first character. */
  lemma TagsPlain()
    ensures forall q :: 1 <= q < 7 ==> "<title>"[q] != '<'
    ensures forall q :: 1 <= q < 8 ==> "</title>"[q] != '<'
  {
  }

  /** No plain title starts where the text differs from `<title>`. */
  lemma NoTitleAt(t: string, j: nat, d: nat, c: char)
    requires j <= |t| && d < 7 && c == "<title>"[d] && (j + d < |t| ==> t[j + d] != c)
    ensures MatchAt(TitleText, t, j).None?
  {
    if j + 7 <= |t| {
      assert t[j..j + 7][d] == t[j + d];
    }
  }

  /** A plain title that starts before a '<' not followed by '/' ends before it. */
  lemma TitleEndsBefore(t: string, j: nat, f: nat, a: nat)
    requires j < a < |t| - 1 && t[a] == '<' && t[a + 1] != '/'
    requires MatchAt(TitleText, t, j) == Some(f)
    ensures f <= a
  {
    TagsPlain();
    assert t[j..j + 7] == "<title>";
    forall q | j + 1 <= q < j + 7
      ensures t[q] != '<'
    {
      assert t[q] == t[j..j + 7][q - j];
    }
    var k := NextChar(t, j + 7, '<');
    assert t[k..k + 8] == "</title>";
    assert t[k + 1] == t[k..k + 8][1];
    forall q | k + 1 <= q < k + 8
      ensures t[q] != '<'
    {
      assert t[q] == t[k..k + 8][q - k];
    }
  }

  /** A text that agrees with `s` up to a '<' not followed by '/' has no plain title
      starting before it that `s` lacks. */
  lemma NoTitleInPrefix(t: string, s: string, a: nat, j: nat)
    requires j < a < |t| - 1 && a <= |s| && t[..a] == s[..a] && t[a] == '<' && t[a + 1] != '/'
    requires MatchAt(TitleText, s, j).None?
    ensures MatchAt(TitleText, t, j).None?
  {
    var m := MatchAt(TitleText, t, j);
    if m.Some? {
      var f := m.value;
      TitleEndsBefore(t, j, f, a);
      assert t[j..f] == t[..a][j..f] == s[..a][j..f] == s[j..f];
      Transfer(TitleText, t, j, s, j, f - j);
      assert false;
    }
  }

  /** A text whose suffix from `j` is the suffix of `s` from `i` matches there as `s` does. */
  lemma NoTitleInSuffix(t: string, j: nat, s: string, i: nat)
    requires j <= |t| && i <= |s| && t[j..] == s[i..]
    requires MatchAt(TitleText, s, i).None?
    ensures MatchAt(TitleText, t, j).None?
  {
    var m := MatchAt(TitleText, t, j);
    if m.Some? {
      var f := m.value;
      assert t[j..f] == t[j..][..f - j] == s[i..][..f - j] == s[i..i + (f - j)];
      Transfer(TitleText, t, j, s, i, f - j);
      assert false;
    }
  }

  /** No plain title starts in the tagged text before the tag step 4 rewrote. */
  lemma NoTitleBefore(s: string, a: nat, e: nat, key: string, j: nat)
    requires Match(TitleText, s) == Some((a, e)) && TitleKey(s[a + 7..e - 8]) == Some(key)
    requires j < a
    ensures MatchAt(TitleText, s[..a] + TitleHead(key) + s[a + 7..], j).None?
  {
    var h := TitleHead(key);
    var r := s[..a] + h + s[a + 7..];
    TitleKeyPlain(s[a + 7..e - 8]);
    TitleHeadPlain(key);
    assert r[..a] == s[..a];
    assert r[a] == h[0] && r[a + 1] == h[1];
    NoTitleInPrefix(r, s, a, j);
  }

  /** No plain title starts inside the rewritten tag. */
  lemma NoTitleInHead(s: string, a: nat, e: nat, key: string, j: nat)
    requires Match(TitleText, s) == Some((a, e)) && TitleKey(s[a + 7..e - 8]) == Some(key)
    requires a <= j < a + |TitleHead(key)|
    ensures MatchAt(TitleText, s[..a] + TitleHead(key) + s[a + 7..], j).None?
  {
    var h := TitleHead(key);
    var r := s[..a] + h + s[a + 7..];
    TitleKeyPlain(s[a + 7..e - 8]);
    TitleHeadPlain(key);
    assert r[a..a + |h|] == h;
    NoTitleInTag(r, a, h, j);
  }

  lemma NoTitleInTag(r: string, a: nat, h: string, j: nat)
    requires a + |h| <= |r| && r[a..a + |h|] == h && |h| > 7 && h[6] == ' '
    requires forall i :: 1 <= i < |h| ==> h[i] != '<'
    requires a <= j < a + |h|
    ensures MatchAt(TitleText, r, j).None?
  {
    if j == a {
      assert r[a + 6] == h[6];
      NoTitleAt(r, j, 6, '>');
    } else {
      assert r[j] == h[j - a];
      NoTitleAt(r, j, 0, '<');
    }
  }

  /** No plain title starts in the first match's text or closing tag. */
  lemma NoTitleInside(s: string, a: nat, e: nat, i: nat)
    requires a <= |s| && MatchAt(TitleText, s, a) == Some(e)
    requires a + 7 <= i < e
    ensures MatchAt(TitleText, s, i).None?
  {
    TitleMatchParts(s, a, e);
    TagsPlain();
    var title := s[a + 7..e - 8];
    if i < e - 8 {
      assert s[i] == title[i - a - 7];
      NoTitleAt(s, i, 0, '<');
    } else if i == e - 8 {
      assert s[i + 1] == s[e - 8..e][1];
      NoTitleAt(s, i, 1, 't');
    } else {
      assert s[i] == s[e - 8..e][i - e + 8];
      NoTitleAt(s, i, 0, '<');
    }
  }

  /** No plain title starts after the rewritten tag, when the page has only one. */
  lemma NoTitleAfter(s: string, a: nat, e: nat, key: string, j: nat)
    requires Match(TitleText, s) == Some((a, e)) && TitleKey(s[a + 7..e - 8]) == Some(key)
    requires FirstFrom(TitleText, s, e).None?
    requires a + |TitleHead(key)| <= j <= |s[..a] + TitleHead(key) + s[a + 7..]|
    ensures MatchAt(TitleText, s[..a] + TitleHead(key) + s[a + 7..], j).None?
  {
    var x := s[..a] + TitleHead(key);
    var r := x + s[a + 7..];
    var i := j - |TitleHead(key)| + 7;
    DropJoin(x, s[a + 7..], j);
    DropDrop(s, a + 7, j - |x|);
    if i < e {
      NoTitleInside(s, a, e, i);
    }
    NoTitleInSuffix(r, j, s, i);
  }

  lemma DropJoin(x: string, y: string, j: nat)
    requires |x| <= j <= |x| + |y|
    ensures (x + y)[j..] == y[j - |x|..]
  {
  }

  lemma DropDrop(s: string, a: nat, k: nat)
    requires a + k <= |s|
    ensures s[a..][k..] == s[a + k..]
  {
  }

  /** On a page with a single plain title, step 4 leaves no plain title behind. */
  lemma TagTitleLeavesNoPlainTitle(s: string, a: nat, e: nat, key: string)
    requires Match(TitleText, s) == Some((a, e)) && TitleKey(s[a + 7..e - 8]) == Some(key)
    requires FirstFrom(TitleText, s, e).None?
    ensures Match(TitleText, TagTitle(s)).None?
  {
    TagTitleRetitles(s, a, e, key);
    var r := s[..a] + TitleHead(key) + s[a + 7..];
    forall j | 0 <= j <= |r|
      ensures MatchAt(TitleText, r, j).None?
    {
      if j < a {
        NoTitleBefore(s, a, e, key, j);
      } else if j < a + |TitleHead(key)| {
        NoTitleInHead(s, a, e, key, j);
      } else {
        NoTitleAfter(s, a, e, key, j);
      }
    }
  }

  /** Step 4 is idempotent on a page with at most one plain `<title>`: a second run finds
      nothing left to tag. */
  lemma TagTitleIdempotent(s: string)
    requires Match(TitleText, s).Some? ==> FirstFrom(TitleText, s, Match(TitleText, s).value.1).None?
    ensures TagTitle(TagTitle(s)) == TagTitle(s)
  {
    var m := Match(TitleText, s);
    if m.None? {
      TagTitleNoMatch(s);
    } else {
      var (a, e) := m.value;
      var k := TitleKey(s[a + 7..e - 8]);
      if k.None? {
        TagTitleNoKey(s, a, e);
      } else {
        TagTitleLeavesNoPlainTitle(s, a, e, k.value);
        TagTitleNoMatch(TagTitle(s));
      }
    }
  }

  /** The page after steps 1 and 2, and after steps 1-3, where step 4 looks for the title. */
  function Labelled(s: string): string {
    TagLabels(LinkStylesheet(s), NAV_TRANSLATIONS)
  }

  function Linked(s: string): string {
    LinkScript(Labelled(s))
  }

  /** The content `addI18nToPage` writes back. */
  function AddI18n(s: string): string {
    TagTitle(Linked(s))
  }

  /** A page with at most one `<title>T</title>` with T free of '<'. */
  predicate AtMostOnePlainTitle(s: string) {
    Match(TitleText, s).Some? ==> FirstFrom(TitleText, s, Match(TitleText, s).value.1).None?
  }

  /** Steps 2-4 keep a guard name found after step 1. */
  lemma LaterStepsKeepGuard(s1: string, entries: seq<(string, string)>, g: string)
    requires PlainEntries(entries) && Contains(s1, g) && '<' !in g && '>' !in g && '1' in g
    ensures Contains(TagTitle(LinkScript(TagLabels(s1, entries))), g)
  {
    var s2 := TagLabels(s1, entries);
    TagLabelsKeepsGuard(s1, entries, g);
    LinkScriptKeepsGuard(s2, g);
    TagTitleKeepsGuard(LinkScript(s2), g);
  }

  lemma LaterStepsKeepStylesheet(s1: string)
    requires Contains(s1, CSS_GUARD)
    ensures Contains(TagTitle(LinkScript(TagLabels(s1, NAV_TRANSLATIONS))), CSS_GUARD)
  {
    NavTranslationsPlain();
    LaterStepsKeepGuard(s1, NAV_TRANSLATIONS, CSS_GUARD);
  }

  lemma LinkStylesheetLinks(s: string)
    requires Contains(s, CSS_GUARD) || Contains(s, MOBILE_CSS_LINK)
    ensures Contains(LinkStylesheet(s), CSS_GUARD)
  {
    LinkStylesheetSpec(s);
  }

  lemma TagTitleKeepsScript(s3: string)
    requires Contains(s3, SCRIPT_GUARD)
    ensures Contains(TagTitle(s3), SCRIPT_GUARD)
  {
    TagTitleKeepsGuard(s3, SCRIPT_GUARD);
  }

  /** The first run leaves the stylesheet's name in the page when the page had it or had the
      mobile stylesheet link to put it after. */
  lemma FirstRunLinksStylesheet(s: string)
    requires Contains(s, CSS_GUARD) || Contains(s, MOBILE_CSS_LINK)
    ensures Contains(AddI18n(s), CSS_GUARD)
  {
    LinkStylesheetLinks(s);
    LaterStepsKeepStylesheet(LinkStylesheet(s));
  }

  /** The first run leaves the script's name in the page when the page had it after step 2,
      or had a closing `</script></body></html>` to put it in. */
  lemma FirstRunLinksScript(s: string)
    requires Contains(Labelled(s), SCRIPT_GUARD) || Match(PAGE_END, Labelled(s)).Some?
    ensures Contains(AddI18n(s), SCRIPT_GUARD)
  {
    LinkScriptLinks(Labelled(s));
    TagTitleKeepsScript(Linked(s));
  }

  lemma LinkScriptLinks(s: string)
    requires Contains(s, SCRIPT_GUARD) || Match(PAGE_END, s).Some?
    ensures Contains(LinkScript(s), SCRIPT_GUARD)
  {
    LinkScriptSpec(s);
  }

  /** Running `addI18nToPage` on a page it has already updated changes nothing, once the first
      run has left both names in the page and the page had a single plain title. */
  lemma SecondRunUnchanged(s: string)
    requires Contains(AddI18n(s), CSS_GUARD) && Contains(AddI18n(s), SCRIPT_GUARD)
    requires AtMostOnePlainTitle(Linked(s))
    ensures AddI18n(AddI18n(s)) == AddI18n(s)
  {
    var s1 := LinkStylesheet(s);
    var s2 := TagLabels(s1, NAV_TRANSLATIONS);
    var s3 := LinkScript(s2);
    var s4 := TagTitle(s3);
    assert s4 == AddI18n(s);
    LinkStylesheetSpec(s4);
    NavTranslationsPlain();
    TagLabelsRemoves(s1, NAV_TRANSLATIONS);
    forall k | 0 <= k < |NAV_TRANSLATIONS|
      ensures NoOcc(s4, SpanPattern(NAV_TRANSLATIONS[k].0))
    {
      var x := NAV_TRANSLATIONS[k].0;
      LinkScriptKeepsAbsent(s2, x);
      TagTitleKeepsAbsent(s3, x);
    }
    TagLabelsNoop(s4, NAV_TRANSLATIONS);
    LinkScriptSpec(s4);
    TagTitleIdempotent(s3);
  }

  /** Two entries of step 2 after `i` of them: the rest of the table still to be applied. */
  lemma TagLabelsStep(s: string, entries: seq<(string, string)>, i: nat)
    requires i < |entries|
    ensures TagLabels(s, entries[i..]) == TagLabels(TagLabel(s, entries[i].0, entries[i].1), entries[i + 1..])
  {
    assert entries[i..][0] == entries[i] && entries[i..][1..] == entries[i + 1..];
  }

  /** Step 1 on the content. */
  method ApplyStylesheet(content: string) returns (content': string)
    ensures content' == LinkStylesheet(content)
  {
    content' := content;
    if !Contains(content', CSS_GUARD) {
      content' := ReplaceFirst(content', MOBILE_CSS_LINK, MOBILE_CSS_LINK + I18N_CSS_LINK);
    }
  }

  /** Step 2 on the content: both replacements of each entry, in the order of the table. */
  method ApplyLabels(content: string) returns (content': string)
    ensures content' == TagLabels(content, NAV_TRANSLATIONS)
  {
    content' := content;
    var i := 0;
    while i < |NAV_TRANSLATIONS|
      invariant 0 <= i <= |NAV_TRANSLATIONS|
      invariant TagLabels(content', NAV_TRANSLATIONS[i..]) == TagLabels(content, NAV_TRANSLATIONS)
    {
      var (chinese, key) := NAV_TRANSLATIONS[i];
      TagLabelsStep(content', NAV_TRANSLATIONS, i);
      content' := ReplaceAll(content', SpanPattern(chinese), TaggedSpan(chinese, key));
      content' := ReplaceAll(content', SpanPattern(chinese), TaggedSpan(chinese, key));
      i := i + 1;
    }
  }

  /** Step 3 on the content. */
  method ApplyScript(content: string) returns (content': string)
    ensures content' == LinkScript(content)
  {
    content' := content;
    if !Contains(content', SCRIPT_GUARD) {
      match Match(PAGE_END, content')
      case Some((a, e)) => {
        content' := content'[..a] + PAGE_END_REPLACEMENT + content'[e..];
      }
      case None => {}
    }
  }

  /** Step 4 on the content. */
  method ApplyTitle(content: string) returns (content': string)
    ensures content' == TagTitle(content)
  {
    content' := content;
    match Match(TitleText, content)
    case Some((a, e)) => {
      var title := content[a + 7..e - 8];
      match TitleKey(title)
      case Some(key) => {
        content' := content[..a] + TaggedTitle(title, key) + content[e..];
        TagTitleBody(content, a, e, key);
      }
      case None => {
        TagTitleNoKey(content, a, e);
      }
    }
    case None => {
      TagTitleNoMatch(content);
    }
  }

  /** `addI18nToPage` on the content read from the file: the content it writes back. */
  method AddI18nToPage(original: string) returns (content: string)
    ensures content == AddI18n(original)
  {
    content := ApplyStylesheet(original);
    content := ApplyLabels(content);
    content := ApplyScript(content);
    content := ApplyTitle(content);
  }

  /** What updating one page writes: the updated content when the file exists, can be read
      and can be written back; nothing when it is missing or an error is caught. */
  function PageWrite(page: PageFile): (r: Option<string>)
    ensures r.Some? <==> page.Present? && page.writable
    ensures r.Some? ==> r.value == AddI18n(page.content)
  {
    match page
    case Present(content, true) => Some(AddI18n(content))
    case _ => None
  }

  /** The file part of `addI18nToPage`: a failed read or write is caught and logged, and the
      page is then left as it was. */
  method AddI18nToFile(page: PageFile) returns (written: Option<string>)
    ensures written == PageWrite(page)
  {
    if page.Missing? || page.Unreadable? {
      return None;
    }
    var content := AddI18nToPage(page.content);
    if page.writable {
      written := Some(content);
    } else {
      written := None;
    }
  }

  /** The pages written by the loop over `names`, in order, each with its new content. */
  function Writes(names: seq<string>, disk: map<string, PageFile>): seq<(string, string)>
    decreases |names|
  {
    if names == [] then []
    else
      var name := names[|names| - 1];
      var w := if name in disk then PageWrite(disk[name]) else None;
      Writes(names[..|names| - 1], disk) + (if w.Some? then [(name, w.value)] else [])
  }

  /** A page is written, with the updated content, exactly when it is listed, exists, can be
      read and can be written. */
  lemma {:induction false} WritesSpec(names: seq<string>, disk: map<string, PageFile>, name: string, c: string)
    ensures (name, c) in Writes(names, disk) <==>
      && name in names && name in disk && disk[name].Present? && disk[name].writable
      && c == AddI18n(disk[name].content)
    decreases |names|
  {
    if names != [] {
      var init := names[..|names| - 1];
      var last := names[|names| - 1];
      WritesSpec(init, disk, name, c);
      assert names == init + [last];
      assert name in names <==> name in init || name == last;
    }
  }

  /** One more name of the loop adds that page's write, if any. */
  lemma WritesStep(names: seq<string>, i: nat, disk: map<string, PageFile>)
    requires i < |names|
    ensures var w := if names[i] in disk then PageWrite(disk[names[i]]) else None;
      Writes(names[..i + 1], disk) == Writes(names[..i], disk) + (if w.Some? then [(names[i], w.value)] else [])
  {
    assert names[..i + 1][..i] == names[..i];
  }

  /** The main loop: every page of `pages` that exists is updated. */
  method AddI18nToAllPages(disk: map<string, PageFile>) returns (written: seq<(string, string)>)
    ensures written == Writes(PAGES, disk)
  {
    written := [];
    var i := 0;
    while i < |PAGES|
      invariant 0 <= i <= |PAGES|
      invariant written == Writes(PAGES[..i], disk)
    {
      var name := PAGES[i];
      WritesStep(PAGES, i, disk);
      if name in disk {
        var w := AddI18nToFile(disk[name]);
        if w.Some? {
          written := written + [(name, w.value)];
        }
      }
      i := i + 1;
    }
    assert PAGES[..|PAGES|] == PAGES;
  }
}
