/**
 * optimize-all-pages.js: the five content steps of `optimizePage`, which patch a page of the
 * site for mobile use, and the tally of `main` over the pages it patches.
 *
 * Each of steps 1-4 inserts a template at an anchor (a regular-expression match) unless the
 * page already holds that step's guard text; step 5 rewrites the chat button's position. The
 * file system is an input: a page is missing, unreadable, or present with its content and
 * whether writing it back succeeds.
 */
module OptimizeAllPages {
  import opened Wrappers
  import opened JsString
  import opened JsRegex
  import opened JsArray
  import opened PageFiles

  /** `pagesToOptimize`. */
  const PAGES_TO_OPTIMIZE: seq<string> := [
    "enrollment-steps.html", "share.html", "fun.html", "hospital.html", "profile.html",
    "post.html", "publish.html", "messages.html", "register.html", "admin-login.html",
    "admin-profile.html", "admin-publish.html", "admin-posts.html", "admin-all.html"
  ]

  /** `mobileCSSTemplate`. */
  const MOBILE_CSS_TEMPLATE: string :=
    "  <!-- 移动端优化CSS -->\n  <link rel=\"stylesheet\" href=\"" + CSS_GUARD + "\">\n  \n"

  /** `mobileNavTemplate`, written as the text around its first mention of the step 2 guard. */
  const MOBILE_NAV_TEMPLATE: string := NAV_A + NAV_GUARD + NAV_B

  /** `mobileBottomNavTemplate`, written as the text around its first mention of the step 4
      guard. */
  const MOBILE_BOTTOM_NAV_TEMPLATE: string := BOT_A + BOTTOM_NAV_GUARD + BOT_B

  /** `mobileResponsiveCSSTemplate`, written as the text around its marker comment (the step 3
      guard) and around the 'mobile-nav' of its first `var(--mobile-nav-height)`. */
  const MOBILE_RESPONSIVE_CSS_TEMPLATE: string := RESP_A + RESPONSIVE_GUARD + RESP_TAIL
  const RESP_TAIL: string := RESP_B + BOTTOM_NAV_GUARD + RESP_C

  const NAV_A: string := @"  <!-- 汉堡菜单按钮 -->
  <div class=""hamburger"" id=""hamburger"">
    <span></span>
    <span></span>
    <span></span>
  </div>

  <!-- 移动端侧边栏 -->
  <div class="""
  const NAV_B: string := @""" id=""mobileSidebar"">
    <a class=""account-info"" href=""profile.html"">
      <img src=""https://raw.githubusercontent.com/WH-An/hwlx-app/2df4e97b395bebb7977074fbb31741f3c35da9a0/assets-task_01k3v2vy06fra8er06x602xnpe-1756476933_img_1.webp"" alt=""头像"" class=""avatar"">
      <span class=""username"">我的账号</span>
    </a>
    <ul class=""nav-list"">
      <li><a href=""main page.html""><span class=""nav-icon"">🏠</span><span>主页</span></a></li>
      <li><a href=""life-tips.html""><span class=""nav-icon"">💡</span><span>生活小贴士</span></a></li>
      <li><a href=""study-guide.html""><span class=""nav-icon"">📚</span><span>学习指导</span></a></li>
      <li><a href=""enrollment-steps.html""><span class=""nav-icon"">📝</span><span>入学步骤</span></a></li>
      <li><a href=""share.html""><span class=""nav-icon"">🔗</span><span>分享</span></a></li>
      <li><a href=""fun.html""><span class=""nav-icon"">🎉</span><span>娱乐</span></a></li>
      <li><a href=""hospital.html""><span class=""nav-icon"">🏥</span><span>医院</span></a></li>
    </ul>
  </div>

  <!-- 移动端侧边栏遮罩 -->
  <div class=""mobile-sidebar-overlay"" id=""mobileSidebarOverlay""></div>

"
  const BOT_A: string := @"  <!-- 移动端底部导航 -->
  <nav class="""
  const BOT_B: string := @""">
    <ul class=""mobile-nav-list"">
      <li class=""mobile-nav-item"">
        <a href=""main page.html"" class=""mobile-nav-link"">
          <span class=""mobile-nav-icon"">🏠</span>
          <span>主页</span>
        </a>
      </li>
      <li class=""mobile-nav-item"">
        <a href=""life-tips.html"" class=""mobile-nav-link"">
          <span class=""mobile-nav-icon"">💡</span>
          <span>生活</span>
        </a>
      </li>
      <li class=""mobile-nav-item"">
        <a href=""study-guide.html"" class=""mobile-nav-link"">
          <span class=""mobile-nav-icon"">📚</span>
          <span>学习</span>
        </a>
      </li>
      <li class=""mobile-nav-item"">
        <a href=""enrollment-steps.html"" class=""mobile-nav-link"">
          <span class=""mobile-nav-icon"">📝</span>
          <span>入学</span>
        </a>
      </li>
      <li class=""mobile-nav-item"">
        <a href=""share.html"" class=""mobile-nav-link"">
          <span class=""mobile-nav-icon"">🔗</span>
          <span>分享</span>
        </a>
      </li>
    </ul>
  </nav>

  <!-- 移动端优化JavaScript -->
  <script src=""mobile-utils.js""></script>
"
  const RESP_A: string := @"

    /* "
  const RESP_B: string := @" */
    @media (max-width: 960px) {
      .container {
        grid-template-columns: 1fr;
        grid-template-rows: auto 1fr;
        padding: 16px;
        padding-bottom: calc(var(--"
  const RESP_C: string := @"-height) + 20px);
      }
      
      .sidebar {
        display: none;
      }
      
      .panel {
        padding: 16px;
        border-radius: 16px;
      }
      
      .search-box {
        flex-direction: column;
        gap: 12px;
      }
      
      .search-box input {
        padding: 14px 16px;
        font-size: 16px;
      }
      
      .search-box button {
        padding: 14px 16px;
        font-size: 16px;
      }
      
      .panel-title {
        font-size: 20px;
      }
    }

    @media (max-width: 480px) {
      .container {
        padding: 12px;
        padding-bottom: calc(var(--mobile-nav-height) + 16px);
      }
      
      .panel {
        padding: 12px;
        border-radius: 12px;
      }
      
      .search-box input {
        padding: 16px;
        font-size: 16px;
      }
      
      .search-box button {
        padding: 16px;
        font-size: 16px;
      }
      
      .panel-title {
        font-size: 18px;
      }
      
      .card {
        border-radius: 12px;
        margin-bottom: 12px;
      }
      
      .card-text {
        padding: 12px;
        font-size: 14px;
      }
    }
"

  /** The guard text of each step: the step does nothing when the page already contains it. */
  const CSS_GUARD: string := "mobile-optimization.css"
  const NAV_GUARD: string := "mobile-sidebar"
  const RESPONSIVE_GUARD: string := "移动端响应式优化"
  const BOTTOM_NAV_GUARD: string := "mobile-nav"
  const CHAT_FAB_GUARD: string := "#chatFab"

  /** `/<\/script>\s*<\/body>/`. */
  const SCRIPT_BODY: Regex := Spaced(["</script>", "</body>"])

  /** `/#chatFab\s*\{\s*position:\s*fixed;\s*left:\s*16px;\s*bottom:\s*16px;/g` and its
      replacement. */
  const CHAT_FAB: Regex :=
    Spaced(["#chatFab", "{", "position:", "fixed;", "left:", "16px;", "bottom:", "16px;"])
  const CHAT_FAB_REPLACEMENT: string :=
    "#chatFab { position: fixed; left: 16px; bottom: calc(var(--mobile-nav-height) + 16px);"

  /** The same for the rule inside `@media (max-width: 480px)`. */
  const CHAT_FAB_SMALL: Regex :=
    Spaced(["@media", "(max-width:", "480px)", "{", "#chatFab", "{", "left:", "12px;", "bottom:", "12px;"])
  const CHAT_FAB_SMALL_REPLACEMENT: string :=
    "@media (max-width: 480px) { #chatFab { left: 12px; bottom: calc(var(--mobile-nav-height) + 12px);"

  /** `s.slice(0, pos) + t + s.slice(pos)`. */
  function InsertAt(s: string, pos: nat, t: string): string
    requires pos <= |s|
  {
    s[..pos] + t + s[pos..]
  }

  /** Step 1: after the first `<title>...</title>` (found again with `indexOf` of the matched
      text), a newline and the CSS link. */
  function AddMobileCss(s: string): (string, bool) {
    if Contains(s, CSS_GUARD) then (s, false)
    else
      match Match(TitleLazy, s)
      case None => (s, false)
      case Some((a, e)) =>
        var m := s[a..e];
        assert OccursAt(s, m, a);
        var pos := IndexOf(s, m).value + |m|;
        (InsertAt(s, pos, "\n" + MOBILE_CSS_TEMPLATE), true)
  }

  /** Step 2: after the first `<body...>` tag, a newline and the navigation. */
  function AddMobileNav(s: string): (string, bool) {
    if Contains(s, NAV_GUARD) then (s, false)
    else
      match Match(BodyOpen, s)
      case None => (s, false)
      case Some((a, e)) =>
        var m := s[a..e];
        assert OccursAt(s, m, a);
        var pos := IndexOf(s, m).value + |m|;
        (InsertAt(s, pos, "\n" + MOBILE_NAV_TEMPLATE), true)
  }

  /** Step 3: right before the first `</style>`, the responsive CSS. The pattern is a literal,
      so its match is the first occurrence of that text. */
  function AddResponsiveCss(s: string): (string, bool) {
    if Contains(s, RESPONSIVE_GUARD) then (s, false)
    else
      match IndexOf(s, "</style>")
      case None => (s, false)
      case Some(pos) => (InsertAt(s, pos, MOBILE_RESPONSIVE_CSS_TEMPLATE), true)
  }

  /** Step 4: right before the first `</script>` followed by `</body>`, a newline and the
      bottom navigation. */
  function AddBottomNav(s: string): (string, bool) {
    if Contains(s, BOTTOM_NAV_GUARD) then (s, false)
    else
      match Match(SCRIPT_BODY, s)
      case None => (s, false)
      case Some((a, e)) =>
        var m := s[a..e];
        assert OccursAt(s, m, a);
        var pos := IndexOf(s, m).value;
        (InsertAt(s, pos, "\n" + MOBILE_BOTTOM_NAV_TEMPLATE), true)
  }

  /** Step 5: when the page mentions `#chatFab`, both rules are rewritten globally and the page
      counts as modified, whether or not either pattern matched. */
  function UpdateChatFab(s: string): (r: (string, bool))
    ensures r.1 <==> Contains(s, CHAT_FAB_GUARD)
    ensures !r.1 ==> r.0 == s
  {
    if Contains(s, CHAT_FAB_GUARD) then
      (ReplaceMatches(CHAT_FAB_SMALL, ReplaceMatches(CHAT_FAB, s, CHAT_FAB_REPLACEMENT), CHAT_FAB_SMALL_REPLACEMENT), true)
    else (s, false)
  }

  /** Steps 1-4 in order: the content and whether any of them inserted something. */
  function InsertTemplates(s: string): (string, bool) {
    var (s1, m1) := AddMobileCss(s);
    var (s2, m2) := AddMobileNav(s1);
    var (s3, m3) := AddResponsiveCss(s2);
    var (s4, m4) := AddBottomNav(s3);
    (s4, m1 || m2 || m3 || m4)
  }

  /** The five steps: the new content and the `modified` flag. */
  function OptimizeContent(s: string): (r: (string, bool))
    ensures r.1 <==> InsertTemplates(s).1 || Contains(InsertTemplates(s).0, CHAT_FAB_GUARD)
    ensures !r.1 ==> r.0 == s
  {
    var (s4, m4) := InsertTemplates(s);
    var (s5, m5) := UpdateChatFab(s4);
    (s5, m4 || m5)
  }

  /** Every inserted template contains its own step's guard, and the responsive CSS (through
      `var(--mobile-nav-height)`) also contains the guard of step 4. */
  lemma TemplatesContainGuards()
    ensures Contains(MOBILE_CSS_TEMPLATE, CSS_GUARD)
    ensures Contains(MOBILE_NAV_TEMPLATE, NAV_GUARD)
    ensures Contains(MOBILE_RESPONSIVE_CSS_TEMPLATE, RESPONSIVE_GUARD)
    ensures Contains(MOBILE_RESPONSIVE_CSS_TEMPLATE, BOTTOM_NAV_GUARD)
    ensures Contains(MOBILE_BOTTOM_NAV_TEMPLATE, BOTTOM_NAV_GUARD)
  {
    ContainsMiddle("  <!-- 移动端优化CSS -->\n  <link rel=\"stylesheet\" href=\"", CSS_GUARD, "\">\n  \n");
    ContainsMiddle(NAV_A, NAV_GUARD, NAV_B);
    ContainsMiddle(BOT_A, BOTTOM_NAV_GUARD, BOT_B);
    ContainsMiddle(RESP_A, RESPONSIVE_GUARD, RESP_TAIL);
    ContainsMiddle(RESP_B, BOTTOM_NAV_GUARD, RESP_C);
    ContainsEnd(RESP_A + RESPONSIVE_GUARD, RESP_TAIL, BOTTOM_NAV_GUARD);
  }

  /** No guard holds an angle bracket, so no guard can straddle an insertion point next to a
      tag. */
  lemma GuardsWithoutBrackets()
    ensures '<' !in CSS_GUARD && '>' !in CSS_GUARD
    ensures '<' !in NAV_GUARD && '>' !in NAV_GUARD
    ensures '<' !in RESPONSIVE_GUARD && '>' !in RESPONSIVE_GUARD
    ensures '<' !in BOTTOM_NAV_GUARD && '>' !in BOTTOM_NAV_GUARD
  {
  }

  /** Inserting text next to a tag bracket keeps every guard-like text (one without that
      bracket) that the page already contains. */
  lemma InsertKeepsContains(s: string, pos: nat, t: string, g: string)
    requires pos <= |s| && Contains(s, g)
    requires (0 < pos && s[pos - 1] == '>' && '>' !in g) || (pos < |s| && s[pos] == '<' && '<' !in g)
    ensures Contains(InsertAt(s, pos, t), g)
  {
    var r := InsertAt(s, pos, t);
    var j := IndexOf(s, g).value;
    assert OccursAt(s, g, j);
    forall q | j <= q < j + |g|
      ensures s[q] in g
    {
      assert s[q] == s[j..j + |g|][q - j];
    }
    if j + |g| <= pos {
      assert r[j..j + |g|] == s[j..j + |g|];
      OccursContains(r, g, j);
    } else {
      assert pos <= j;
      assert r[j + |t|..j + |t| + |g|] == s[j..j + |g|];
      OccursContains(r, g, j + |t|);
    }
  }

  /** Inserting a text that contains `g` gives a text that contains `g`. */
  lemma InsertContains(s: string, pos: nat, t: string, g: string)
    requires pos <= |s| && Contains(t, g)
    ensures Contains(InsertAt(s, pos, t), g)
  {
    ContainsInside(s[..pos], t, s[pos..], g);
  }

  /** Where step 1 inserts: `indexOf` finds the leftmost title match itself, so the insertion
      point is the end of that match, which closes a tag. */
  lemma TitleMatchEnd(s: string)
    requires Match(TitleLazy, s).Some?
    ensures var (a, e) := Match(TitleLazy, s).value; IndexOf(s, s[a..e]) == Some(a) && s[e - 1] == '>'
  {
    var (a, e) := Match(TitleLazy, s).value;
    IndexOfMatch(TitleLazy, s);
    var k := TitleClose(s, a + 7).value;
    assert s[k..k + 8] == "</title>" && e == k + 8;
    assert s[e - 1] == s[k..k + 8][7];
  }

  /** Where step 2 inserts: the end of the leftmost `<body...>` match. */
  lemma BodyMatchEnd(s: string)
    requires Match(BodyOpen, s).Some?
    ensures var (a, e) := Match(BodyOpen, s).value; IndexOf(s, s[a..e]) == Some(a) && s[e - 1] == '>'
  {
    IndexOfMatch(BodyOpen, s);
  }

  /** Where step 4 inserts: the start of the leftmost `</script>\s*</body>` match. */
  lemma ScriptBodyMatchStart(s: string)
    requires Match(SCRIPT_BODY, s).Some?
    ensures var (a, e) := Match(SCRIPT_BODY, s).value; IndexOf(s, s[a..e]) == Some(a) && s[a] == '<'
  {
    var (a, e) := Match(SCRIPT_BODY, s).value;
    IndexOfMatch(SCRIPT_BODY, s);
    assert s[a..a + 9] == "</script>";
    assert s[a] == s[a..a + 9][0];
  }

  /** Step 1 adds the CSS link right after the first `<title>...</title>`, and does so exactly
      when the page has no 'mobile-optimization.css' yet and has a title. */
  lemma AddMobileCssSpec(s: string)
    ensures AddMobileCss(s).1 <==> !Contains(s, CSS_GUARD) && Match(TitleLazy, s).Some?
    ensures !AddMobileCss(s).1 ==> AddMobileCss(s).0 == s
    ensures AddMobileCss(s).1 ==>
      AddMobileCss(s).0 == InsertAt(s, Match(TitleLazy, s).value.1, "\n" + MOBILE_CSS_TEMPLATE)
  {
    if Match(TitleLazy, s).Some? && !Contains(s, CSS_GUARD) {
      var (a, e) := Match(TitleLazy, s).value;
      TitleMatchEnd(s);
      assert IndexOf(s, s[a..e]).value + |s[a..e]| == e;
      assert AddMobileCss(s) == (InsertAt(s, e, "\n" + MOBILE_CSS_TEMPLATE), true);
    }
  }

  /** Step 2 adds the navigation right after the first `<body...>` tag, exactly when the page
      has no 'mobile-sidebar' yet and has a body tag. */
  lemma AddMobileNavSpec(s: string)
    ensures AddMobileNav(s).1 <==> !Contains(s, NAV_GUARD) && Match(BodyOpen, s).Some?
    ensures !AddMobileNav(s).1 ==> AddMobileNav(s).0 == s
    ensures AddMobileNav(s).1 ==>
      AddMobileNav(s).0 == InsertAt(s, Match(BodyOpen, s).value.1, "\n" + MOBILE_NAV_TEMPLATE)
  {
    if Match(BodyOpen, s).Some? && !Contains(s, NAV_GUARD) {
      var (a, e) := Match(BodyOpen, s).value;
      BodyMatchEnd(s);
      assert IndexOf(s, s[a..e]).value + |s[a..e]| == e;
      assert AddMobileNav(s) == (InsertAt(s, e, "\n" + MOBILE_NAV_TEMPLATE), true);
    }
  }

  /** Step 4 adds the bottom navigation right before the first `</script>` that is followed,
      after white space only, by `</body>`, exactly when the page has no 'mobile-nav' yet. */
  lemma AddBottomNavSpec(s: string)
    ensures AddBottomNav(s).1 <==> !Contains(s, BOTTOM_NAV_GUARD) && Match(SCRIPT_BODY, s).Some?
    ensures !AddBottomNav(s).1 ==> AddBottomNav(s).0 == s
    ensures AddBottomNav(s).1 ==>
      AddBottomNav(s).0 == InsertAt(s, Match(SCRIPT_BODY, s).value.0, "\n" + MOBILE_BOTTOM_NAV_TEMPLATE)
  {
    if Match(SCRIPT_BODY, s).Some? {
      ScriptBodyMatchStart(s);
    }
  }

  /** Step 3 adds the responsive CSS right before the first `</style>`, exactly when the page
      has no marker comment yet and has a closing style tag. */
  lemma AddResponsiveCssSpec(s: string)
    ensures AddResponsiveCss(s).1 <==> !Contains(s, RESPONSIVE_GUARD) && Contains(s, "</style>")
    ensures !AddResponsiveCss(s).1 ==> AddResponsiveCss(s).0 == s
    ensures AddResponsiveCss(s).1 ==>
      var pos := IndexOf(s, "</style>").value;
      && AddResponsiveCss(s).0 == InsertAt(s, pos, MOBILE_RESPONSIVE_CSS_TEMPLATE)
      && forall q :: 0 <= q < pos ==> !OccursAt(s, "</style>", q)
  {
  }

  /** None of steps 1-4 loses a guard the page already has: each inserts next to a tag
      bracket, which no guard contains. */
  lemma AddMobileCssKeeps(s: string, g: string)
    requires Contains(s, g) && '<' !in g && '>' !in g
    ensures Contains(AddMobileCss(s).0, g)
  {
    AddMobileCssSpec(s);
    if AddMobileCss(s).1 {
      TitleMatchEnd(s);
      InsertKeepsContains(s, Match(TitleLazy, s).value.1, "\n" + MOBILE_CSS_TEMPLATE, g);
    }
  }

  lemma AddMobileNavKeeps(s: string, g: string)
    requires Contains(s, g) && '<' !in g && '>' !in g
    ensures Contains(AddMobileNav(s).0, g)
  {
    AddMobileNavSpec(s);
    if AddMobileNav(s).1 {
      BodyMatchEnd(s);
      InsertKeepsContains(s, Match(BodyOpen, s).value.1, "\n" + MOBILE_NAV_TEMPLATE, g);
    }
  }

  lemma AddResponsiveCssKeeps(s: string, g: string)
    requires Contains(s, g) && '<' !in g && '>' !in g
    ensures Contains(AddResponsiveCss(s).0, g)
  {
    AddResponsiveCssSpec(s);
    if AddResponsiveCss(s).1 {
      var pos := IndexOf(s, "</style>").value;
      StyleCloseBracket(s, pos);
      InsertKeepsContains(s, pos, MOBILE_RESPONSIVE_CSS_TEMPLATE, g);
    }
  }

  /** Where step 3 inserts, a tag starts. */
  lemma StyleCloseBracket(s: string, pos: nat)
    requires IndexOf(s, "</style>") == Some(pos)
    ensures pos < |s| && s[pos] == '<'
  {
    assert s[pos] == s[pos..pos + 8][0];
  }

  lemma AddBottomNavKeeps(s: string, g: string)
    requires Contains(s, g) && '<' !in g && '>' !in g
    ensures Contains(AddBottomNav(s).0, g)
  {
    AddBottomNavSpec(s);
    if AddBottomNav(s).1 {
      ScriptBodyMatchStart(s);
      InsertKeepsContains(s, Match(SCRIPT_BODY, s).value.0, "\n" + MOBILE_BOTTOM_NAV_TEMPLATE, g);
    }
  }

  /** A step that finds its guard or its anchor leaves its guard in the page. */
  lemma StepsEstablishGuard(s: string)
    ensures Contains(s, CSS_GUARD) || Match(TitleLazy, s).Some? ==> Contains(AddMobileCss(s).0, CSS_GUARD)
    ensures Contains(s, NAV_GUARD) || Match(BodyOpen, s).Some? ==> Contains(AddMobileNav(s).0, NAV_GUARD)
    ensures Contains(s, RESPONSIVE_GUARD) || Contains(s, "</style>") ==>
      Contains(AddResponsiveCss(s).0, RESPONSIVE_GUARD)
    ensures Contains(s, BOTTOM_NAV_GUARD) || Match(SCRIPT_BODY, s).Some? ==>
      Contains(AddBottomNav(s).0, BOTTOM_NAV_GUARD)
  {
    TemplatesContainGuards();
    AddMobileCssSpec(s);
    AddMobileNavSpec(s);
    AddBottomNavSpec(s);
    AddResponsiveCssSpec(s);
    if AddMobileCss(s).1 {
      ContainsEnd("\n", MOBILE_CSS_TEMPLATE, CSS_GUARD);
      InsertContains(s, Match(TitleLazy, s).value.1, "\n" + MOBILE_CSS_TEMPLATE, CSS_GUARD);
    }
    if AddMobileNav(s).1 {
      ContainsEnd("\n", MOBILE_NAV_TEMPLATE, NAV_GUARD);
      InsertContains(s, Match(BodyOpen, s).value.1, "\n" + MOBILE_NAV_TEMPLATE, NAV_GUARD);
    }
    if AddResponsiveCss(s).1 {
      var pos := IndexOf(s, "</style>").value;
      InsertContains(s, pos, MOBILE_RESPONSIVE_CSS_TEMPLATE, RESPONSIVE_GUARD);
    }
    if AddBottomNav(s).1 {
      ContainsEnd("\n", MOBILE_BOTTOM_NAV_TEMPLATE, BOTTOM_NAV_GUARD);
      InsertContains(s, Match(SCRIPT_BODY, s).value.0, "\n" + MOBILE_BOTTOM_NAV_TEMPLATE, BOTTOM_NAV_GUARD);
    }
  }

  /** When step 3 inserts the responsive CSS, the 'mobile-nav' of its
      `var(--mobile-nav-height)` satisfies step 4's guard: the bottom navigation is not
      inserted in that run. */
  lemma ResponsiveCssSuppressesBottomNav(s: string)
    requires AddResponsiveCss(s).1
    ensures Contains(AddResponsiveCss(s).0, BOTTOM_NAV_GUARD)
    ensures AddBottomNav(AddResponsiveCss(s).0) == (AddResponsiveCss(s).0, false)
  {
    AddResponsiveCssSpec(s);
    TemplatesContainGuards();
    InsertContains(s, IndexOf(s, "</style>").value, MOBILE_RESPONSIVE_CSS_TEMPLATE, BOTTOM_NAV_GUARD);
  }

  /** In one pass each of steps 1-4 found its guard or its anchor at the moment it ran. */
  predicate Anchored(s: string) {
    var s1 := AddMobileCss(s).0;
    var s2 := AddMobileNav(s1).0;
    var s3 := AddResponsiveCss(s2).0;
    && (Contains(s, CSS_GUARD) || Match(TitleLazy, s).Some?)
    && (Contains(s1, NAV_GUARD) || Match(BodyOpen, s1).Some?)
    && (Contains(s2, RESPONSIVE_GUARD) || Contains(s2, "</style>"))
    && (Contains(s3, BOTTOM_NAV_GUARD) || Match(SCRIPT_BODY, s3).Some?)
  }

  /** Every guard that is in the page, or that a step of the pass inserts, is still in the page
      after steps 1-4. */
  lemma InsertTemplatesGuards(s: string)
    requires Anchored(s)
    ensures var r := InsertTemplates(s).0;
      Contains(r, CSS_GUARD) && Contains(r, NAV_GUARD) && Contains(r, RESPONSIVE_GUARD) && Contains(r, BOTTOM_NAV_GUARD)
  {
    GuardsWithoutBrackets();
    var s1 := AddMobileCss(s).0;
    var s2 := AddMobileNav(s1).0;
    var s3 := AddResponsiveCss(s2).0;
    var s4 := AddBottomNav(s3).0;
    StepsEstablishGuard(s);
    StepsEstablishGuard(s1);
    StepsEstablishGuard(s2);
    StepsEstablishGuard(s3);
    AddMobileNavKeeps(s1, CSS_GUARD);
    AddResponsiveCssKeeps(s2, CSS_GUARD);
    AddResponsiveCssKeeps(s2, NAV_GUARD);
    AddBottomNavKeeps(s3, CSS_GUARD);
    AddBottomNavKeeps(s3, NAV_GUARD);
    AddBottomNavKeeps(s3, RESPONSIVE_GUARD);
  }

  /** A second pass of steps 1-4 over a page where each step found its guard or its anchor
      inserts nothing and leaves the page as it is. */
  lemma SecondPassInsertsNothing(s: string)
    requires Anchored(s)
    ensures InsertTemplates(InsertTemplates(s).0) == (InsertTemplates(s).0, false)
  {
    InsertTemplatesGuards(s);
  }

  /** When steps 1-4 insert nothing and neither chat-button rule is in the page, the page is
      still reported as modified, and written back unchanged, as soon as it mentions
      `#chatFab`. */
  lemma ChatFabRewritesUnchanged(s: string)
    requires !InsertTemplates(s).1 && Contains(s, CHAT_FAB_GUARD)
    requires Match(CHAT_FAB, s).None? && Match(CHAT_FAB_SMALL, s).None?
    ensures OptimizeContent(s) == (s, true)
  {
    assert InsertTemplates(s).0 == s;
    ReplaceFromNone(CHAT_FAB, s, 0, CHAT_FAB_REPLACEMENT);
    assert s[0..] == s;
    ReplaceFromNone(CHAT_FAB_SMALL, s, 0, CHAT_FAB_SMALL_REPLACEMENT);
  }

  /** What `optimizePage` returns, and the content it writes, if any. */
  function PageOutcome(page: PageFile): (r: (bool, Option<string>))
    ensures r.0 <==> page.Present? && page.writable && OptimizeContent(page.content).1
    ensures r.1.Some? <==> r.0
    ensures r.0 ==> r.1 == Some(OptimizeContent(page.content).0)
  {
    match page
    case Missing => (false, None)
    case Unreadable => (false, None)
    case Present(content, writable) =>
      var (c, modified) := OptimizeContent(content);
      if modified && writable then (true, Some(c)) else (false, None)
  }

  /** Step 1 of `optimizePage` on the variable `content`. */
  method ApplyMobileCss(content: string) returns (content': string, inserted: bool)
    ensures (content', inserted) == AddMobileCss(content)
  {
    content', inserted := content, false;
    if !Contains(content, CSS_GUARD) {
      var titleMatch := Match(TitleLazy, content);
      if titleMatch.Some? {
        var m := content[titleMatch.value.0..titleMatch.value.1];
        assert OccursAt(content, m, titleMatch.value.0);
        var insertPos := IndexOf(content, m).value + |m|;
        content', inserted := InsertAt(content, insertPos, "\n" + MOBILE_CSS_TEMPLATE), true;
      }
    }
  }

  /** Step 2. */
  method ApplyMobileNav(content: string) returns (content': string, inserted: bool)
    ensures (content', inserted) == AddMobileNav(content)
  {
    content', inserted := content, false;
    if !Contains(content, NAV_GUARD) {
      var bodyMatch := Match(BodyOpen, content);
      if bodyMatch.Some? {
        var m := content[bodyMatch.value.0..bodyMatch.value.1];
        assert OccursAt(content, m, bodyMatch.value.0);
        var insertPos := IndexOf(content, m).value + |m|;
        content', inserted := InsertAt(content, insertPos, "\n" + MOBILE_NAV_TEMPLATE), true;
      }
    }
  }

  /** Step 3. */
  method ApplyResponsiveCss(content: string) returns (content': string, inserted: bool)
    ensures (content', inserted) == AddResponsiveCss(content)
  {
    content', inserted := content, false;
    if !Contains(content, RESPONSIVE_GUARD) {
      var styleMatch := IndexOf(content, "</style>");
      if styleMatch.Some? {
        var insertPos := styleMatch.value;
        content', inserted := InsertAt(content, insertPos, MOBILE_RESPONSIVE_CSS_TEMPLATE), true;
      }
    }
  }

  /** Step 4. */
  method ApplyBottomNav(content: string) returns (content': string, inserted: bool)
    ensures (content', inserted) == AddBottomNav(content)
  {
    content', inserted := content, false;
    if !Contains(content, BOTTOM_NAV_GUARD) {
      var scriptMatch := Match(SCRIPT_BODY, content);
      if scriptMatch.Some? {
        var m := content[scriptMatch.value.0..scriptMatch.value.1];
        assert OccursAt(content, m, scriptMatch.value.0);
        var insertPos := IndexOf(content, m).value;
        content', inserted := InsertAt(content, insertPos, "\n" + MOBILE_BOTTOM_NAV_TEMPLATE), true;
      }
    }
  }

  /** `optimizePage` on one page: the five steps reassign `content` in turn and set `modified`
      when one of them applies; the file is written only when `modified`, and a failed write
      counts as a failure. */
  method OptimizePage(page: PageFile) returns (ok: bool, written: Option<string>)
    ensures (ok, written) == PageOutcome(page)
  {
    if page.Missing? || page.Unreadable? {
      return false, None;
    }
    var content := page.content;
    var modified := false;
    var inserted: bool;
    content, inserted := ApplyMobileCss(content);
    modified := modified || inserted;
    content, inserted := ApplyMobileNav(content);
    modified := modified || inserted;
    content, inserted := ApplyResponsiveCss(content);
    modified := modified || inserted;
    content, inserted := ApplyBottomNav(content);
    modified := modified || inserted;
    if Contains(content, CHAT_FAB_GUARD) {
      content := ReplaceMatches(CHAT_FAB, content, CHAT_FAB_REPLACEMENT);
      content := ReplaceMatches(CHAT_FAB_SMALL, content, CHAT_FAB_SMALL_REPLACEMENT);
      modified := true;
    }
    if modified && page.writable {
      ok, written := true, Some(content);
    } else {
      ok, written := false, None;
    }
  }

  /** Whether `optimizePage` succeeds on the named page of `disk`; a name missing from `disk`
      is a missing file. */
  predicate Optimized(disk: map<string, PageFile>, name: string) {
    PageOutcome(if name in disk then disk[name] else Missing).0
  }

  /** The loop of `main` over a list of page names: every page is optimized in turn (each
      success writes its page, as `OptimizePage` states) and the successes are counted. */
  method OptimizeEach(names: seq<string>, disk: map<string, PageFile>) returns (successCount: nat)
    ensures successCount == |Filter(names, name => Optimized(disk, name))|
  {
    ghost var f := name => Optimized(disk, name);
    successCount := 0;
    var i := 0;
    while i < |names|
      invariant i <= |names|
      invariant successCount == |Filter(names[..i], f)|
    {
      var name := names[i];
      var page := if name in disk then disk[name] else Missing;
      var ok, content := OptimizePage(page);
      assert ok == f(name);
      assert names[..i + 1] == names[..i] + [name];
      FilterConcat(names[..i], [name], f);
      if ok {
        successCount := successCount + 1;
      }
      i := i + 1;
    }
    assert names[..i] == names;
  }

  /** `main`: optimizes every page of `pagesToOptimize` and counts the successes;
      `allOptimized` is its final 'every page succeeded' test. */
  method OptimizeAll(disk: map<string, PageFile>) returns (successCount: nat, allOptimized: bool)
    ensures successCount == |Filter(PAGES_TO_OPTIMIZE, name => Optimized(disk, name))|
    ensures successCount <= |PAGES_TO_OPTIMIZE|
    ensures allOptimized <==> forall k :: 0 <= k < |PAGES_TO_OPTIMIZE| ==> Optimized(disk, PAGES_TO_OPTIMIZE[k])
  {
    successCount := OptimizeEach(PAGES_TO_OPTIMIZE, disk);
    FilterKeepsAll(PAGES_TO_OPTIMIZE, name => Optimized(disk, name));
    allOptimized := successCount == |PAGES_TO_OPTIMIZE|;
  }
}
