/**
 * scripts/generate-optimized-pages.js: each configuration's page is the shared template with
 * its five `{{...}}` placeholders replaced, and `main` counts the pages generated. The
 * template file and the output directory are inputs: the template's content (`None` when it
 * cannot be read) and the output names that can be written.
 */
module GenerateOptimizedPages {
  import opened Wrappers
  import opened JsString
  import opened JsArray

  /** One entry of `PAGE_CONFIGS`. */
  datatype PageConfig = PageConfig(
    title: string, description: string, category: string, keywords: string, url: string,
    originalFile: string)

  const PAGE_CONFIGS: seq<PageConfig> := [
    PageConfig("生活小贴士", "海外留学生活指南，实用的生活小贴士和技巧", "life",
      "海外留学,生活小贴士,留学生活,实用技巧", "life-tips-optimized.html", "life-tips.html"),
    PageConfig("学习指导", "专业的学习建议和指导，提高学术成绩", "study",
      "海外留学,学习指导,学术成绩,学习方法", "study-guide-optimized.html", "study-guide.html"),
    PageConfig("入学步骤", "详细的入学流程指导，顺利完成入学手续", "enroll",
      "海外留学,入学步骤,入学流程,入学指导", "enrollment-steps-optimized.html", "enrollment-steps.html"),
    PageConfig("医院信息", "查找附近的医院和诊所，获取医疗服务信息", "life",
      "海外留学,医院信息,医疗服务,诊所", "hospital-optimized.html", "hospital.html"),
    PageConfig("分享经验", "分享你的留学经历，帮助其他同学", "share",
      "海外留学,分享经验,留学经历,经验分享", "share-optimized.html", "share.html"),
    PageConfig("娱乐", "轻松愉快的娱乐内容，丰富留学生活", "fun",
      "海外留学,娱乐,轻松,留学生活", "fun-optimized.html", "fun.html")
  ]

  /** The placeholders; each pattern `/\{\{NAME\}\}/g` is a literal. */
  const PAGE_TITLE: string := "{{PAGE_TITLE}}"
  const PAGE_DESCRIPTION: string := "{{PAGE_DESCRIPTION}}"
  const PAGE_CATEGORY: string := "{{PAGE_CATEGORY}}"
  const PAGE_KEYWORDS: string := "{{PAGE_KEYWORDS}}"
  const PAGE_URL: string := "{{PAGE_URL}}"

  const PLACEHOLDERS: seq<string> := [PAGE_TITLE, PAGE_DESCRIPTION, PAGE_CATEGORY, PAGE_KEYWORDS, PAGE_URL]

  /** `replaceTemplateVariables(template, config)`: the five global replacements, in the order
      title, description, category, keywords, url. */
  function ReplaceTemplateVariables(template: string, c: PageConfig): string {
    var s1 := ReplaceAll(template, PAGE_TITLE, c.title);
    var s2 := ReplaceAll(s1, PAGE_DESCRIPTION, c.description);
    var s3 := ReplaceAll(s2, PAGE_CATEGORY, c.category);
    var s4 := ReplaceAll(s3, PAGE_KEYWORDS, c.keywords);
    ReplaceAll(s4, PAGE_URL, c.url)
  }

  /** A template without placeholders is returned as it is. */
  lemma NoPlaceholderUnchanged(template: string, c: PageConfig)
    requires forall k :: 0 <= k < |PLACEHOLDERS| ==> NoOcc(template, PLACEHOLDERS[k])
    ensures ReplaceTemplateVariables(template, c) == template
  {
    assert NoOcc(template, PLACEHOLDERS[0]) && NoOcc(template, PLACEHOLDERS[1]);
    assert NoOcc(template, PLACEHOLDERS[2]) && NoOcc(template, PLACEHOLDERS[3]);
    assert NoOcc(template, PLACEHOLDERS[4]);
    ReplaceAllNoOcc(template, PAGE_TITLE, c.title);
    ReplaceAllNoOcc(template, PAGE_DESCRIPTION, c.description);
    ReplaceAllNoOcc(template, PAGE_CATEGORY, c.category);
    ReplaceAllNoOcc(template, PAGE_KEYWORDS, c.keywords);
    ReplaceAllNoOcc(template, PAGE_URL, c.url);
  }

  /** The characters placeholders are made of. */
  predicate PlaceholderChar(ch: char) {
    ch == '{' || ch == '}' || ch == '_' || 'A' <= ch <= 'Z'
  }

  /** A value that cannot form a placeholder, inside it or with the text around it: non-empty,
      without '{', and not starting with a placeholder character. */
  predicate PlainValue(v: string) {
    v != [] && !PlaceholderChar(v[0]) && forall i :: 0 <= i < |v| ==> v[i] != '{'
  }

  predicate PlainConfig(c: PageConfig) {
    PlainValue(c.title) && PlainValue(c.description) && PlainValue(c.category)
    && PlainValue(c.keywords) && PlainValue(c.url)
  }

  /** Every configuration of the script has plain values. */
  lemma ConfigsPlain()
    ensures forall k :: 0 <= k < |PAGE_CONFIGS| ==> PlainConfig(PAGE_CONFIGS[k])
  {
    ConfigPlain0();
    ConfigPlain1();
    ConfigPlain2();
    ConfigPlain3();
    ConfigPlain4();
    ConfigPlain5();
  }

  lemma ConfigPlain0()
    ensures PlainConfig(PAGE_CONFIGS[0])
  {
  }

  lemma ConfigPlain1()
    ensures PlainConfig(PAGE_CONFIGS[1])
  {
  }

  lemma ConfigPlain2()
    ensures PlainConfig(PAGE_CONFIGS[2])
  {
  }

  lemma ConfigPlain3()
    ensures PlainConfig(PAGE_CONFIGS[3])
  {
  }

  lemma ConfigPlain4()
    ensures PlainConfig(PAGE_CONFIGS[4])
  {
  }

  lemma ConfigPlain5()
    ensures PlainConfig(PAGE_CONFIGS[5])
  {
  }

  lemma PlaceholdersShape()
    ensures forall k :: 0 <= k < |PLACEHOLDERS| ==>
      var q := PLACEHOLDERS[k]; |q| > 2 && q[0] == '{' && forall i :: 0 <= i < |q| ==> PlaceholderChar(q[i])
  {
  }

  /** A plain value is disjoint from every placeholder: putting it between two texts creates
      no placeholder. */
  lemma PlainDisjoint(q: string, v: string)
    requires q in PLACEHOLDERS && PlainValue(v)
    ensures Disjoint(q, v)
  {
    PlaceholdersShape();
    ChunkNoStart(v, q);
    forall m | 0 < m < |q|
      ensures Mismatch(q[m..], v)
    {
      assert q[m..][0] == q[m];
    }
  }

  /** A replacement by a plain value removes its placeholder. */
  lemma ReplaceRemoves(s: string, p: string, v: string)
    requires p in PLACEHOLDERS && PlainValue(v)
    ensures NoOcc(ReplaceAll(s, p, v), p)
  {
    PlainDisjoint(p, v);
    ReplaceAllRemoves(s, p, v);
  }

  /** A replacement by a plain value brings back no placeholder already gone. */
  lemma ReplaceKeepsAbsent(s: string, p: string, v: string, q: string)
    requires p in PLACEHOLDERS && q in PLACEHOLDERS && PlainValue(v) && NoOcc(s, q)
    ensures NoOcc(ReplaceAll(s, p, v), q)
  {
    PlainDisjoint(q, v);
    ReplaceAllKeepsAbsent(s, p, v, q);
  }

  /** With plain values, no placeholder is left in the generated page: each replacement
      removes its own placeholder and brings back none of the earlier ones. */
  lemma AllPlaceholdersReplaced(template: string, c: PageConfig)
    requires PlainConfig(c)
    ensures forall k :: 0 <= k < |PLACEHOLDERS| ==> NoOcc(ReplaceTemplateVariables(template, c), PLACEHOLDERS[k])
  {
    var s1 := ReplaceAll(template, PAGE_TITLE, c.title);
    ReplaceRemoves(template, PAGE_TITLE, c.title);
    var s2 := ReplaceAll(s1, PAGE_DESCRIPTION, c.description);
    ReplaceKeepsAbsent(s1, PAGE_DESCRIPTION, c.description, PAGE_TITLE);
    ReplaceRemoves(s1, PAGE_DESCRIPTION, c.description);
    var s3 := ReplaceAll(s2, PAGE_CATEGORY, c.category);
    ReplaceKeepsAbsent(s2, PAGE_CATEGORY, c.category, PAGE_TITLE);
    ReplaceKeepsAbsent(s2, PAGE_CATEGORY, c.category, PAGE_DESCRIPTION);
    ReplaceRemoves(s2, PAGE_CATEGORY, c.category);
    var s4 := ReplaceAll(s3, PAGE_KEYWORDS, c.keywords);
    ReplaceKeepsAbsent(s3, PAGE_KEYWORDS, c.keywords, PAGE_TITLE);
    ReplaceKeepsAbsent(s3, PAGE_KEYWORDS, c.keywords, PAGE_DESCRIPTION);
    ReplaceKeepsAbsent(s3, PAGE_KEYWORDS, c.keywords, PAGE_CATEGORY);
    ReplaceRemoves(s3, PAGE_KEYWORDS, c.keywords);
    ReplaceKeepsAbsent(s4, PAGE_URL, c.url, PAGE_TITLE);
    ReplaceKeepsAbsent(s4, PAGE_URL, c.url, PAGE_DESCRIPTION);
    ReplaceKeepsAbsent(s4, PAGE_URL, c.url, PAGE_CATEGORY);
    ReplaceKeepsAbsent(s4, PAGE_URL, c.url, PAGE_KEYWORDS);
    ReplaceRemoves(s4, PAGE_URL, c.url);
  }

  /** The order matters: a later placeholder inside an earlier value is replaced as well, and
      an earlier placeholder inside a later value is left in the page. */
  lemma ReplacementOrder(c: PageConfig)
    requires PlainValue(c.description) && PlainValue(c.category) && PlainValue(c.keywords)
    requires PlainValue(c.url) && PlainValue(c.title)
    ensures ReplaceTemplateVariables(PAGE_TITLE, c.(title := PAGE_URL)) == c.url
    ensures ReplaceTemplateVariables(PAGE_URL, c.(url := PAGE_TITLE)) == PAGE_TITLE
  {
    var c1 := c.(title := PAGE_URL);
    ReplaceWhole(PAGE_TITLE, PAGE_URL);
    ShortUnchanged(PAGE_URL, PAGE_DESCRIPTION, c1.description);
    ShortUnchanged(PAGE_URL, PAGE_CATEGORY, c1.category);
    ShortUnchanged(PAGE_URL, PAGE_KEYWORDS, c1.keywords);
    ReplaceWhole(PAGE_URL, c1.url);
    var c2 := c.(url := PAGE_TITLE);
    ShortUnchanged(PAGE_URL, PAGE_TITLE, c2.title);
    ShortUnchanged(PAGE_URL, PAGE_DESCRIPTION, c2.description);
    ShortUnchanged(PAGE_URL, PAGE_CATEGORY, c2.category);
    ShortUnchanged(PAGE_URL, PAGE_KEYWORDS, c2.keywords);
    ReplaceWhole(PAGE_URL, PAGE_TITLE);
  }

  /** A text that is exactly the pattern becomes the replacement. */
  lemma ReplaceWhole(p: string, r: string)
    requires p != []
    ensures ReplaceAll(p, p, r) == r
  {
    assert p[..|p|] == p && p[|p|..] == [];
  }

  /** A text shorter than the pattern, or as long and different, is left as it is. */
  lemma ShortUnchanged(s: string, p: string, r: string)
    requires p != [] && (|s| < |p| || (|s| == |p| && s != p))
    ensures ReplaceAll(s, p, r) == s
  {
    if |s| == |p| {
      assert s[..|p|] == s;
      ReplaceAllShort(s[1..], p, r);
      assert [s[0]] + s[1..] == s;
    }
  }

  /** Where `generateOptimizedPage` can write, and the template it reads (`None` when reading
      it throws). */
  predicate Generated(template: Option<string>, writable: set<string>, c: PageConfig) {
    template.Some? && c.url in writable
  }

  /** `generateOptimizedPage(config)`: `true` and the page written when the template is read
      and the output written, `false` when an error is caught. */
  method GenerateOptimizedPage(template: Option<string>, writable: set<string>, c: PageConfig)
    returns (ok: bool, written: Option<string>)
    ensures ok <==> Generated(template, writable, c)
    ensures ok ==> written == Some(ReplaceTemplateVariables(template.value, c))
    ensures !ok ==> written.None?
  {
    if template.None? {
      return false, None;
    }
    var content := ReplaceTemplateVariables(template.value, c);
    if c.url in writable {
      ok, written := true, Some(content);
    } else {
      ok, written := false, None;
    }
  }

  /** The `forEach` of `main` over `configs`: the number of pages generated. */
  method GenerateEach(configs: seq<PageConfig>, template: Option<string>, writable: set<string>)
    returns (successCount: nat)
    ensures successCount == |Filter(configs, c => Generated(template, writable, c))|
  {
    ghost var f := c => Generated(template, writable, c);
    successCount := 0;
    var i := 0;
    while i < |configs|
      invariant 0 <= i <= |configs|
      invariant successCount == |Filter(configs[..i], f)|
    {
      var ok, _ := GenerateOptimizedPage(template, writable, configs[i]);
      FilterConcat(configs[..i], [configs[i]], f);
      assert configs[..i + 1] == configs[..i] + [configs[i]];
      if ok {
        successCount := successCount + 1;
      }
      i := i + 1;
    }
    assert configs[..i] == configs;
  }

  /** `main`'s tally: the pages generated, the total, the failures reported, and whether all
      succeeded. */
  method GenerateAll(template: Option<string>, writable: set<string>)
    returns (successCount: nat, totalCount: nat, failures: int, allGenerated: bool)
    ensures totalCount == |PAGE_CONFIGS| == 6
    ensures successCount == |Filter(PAGE_CONFIGS, c => Generated(template, writable, c))|
    ensures failures == totalCount - successCount && 0 <= failures
    ensures allGenerated <==> forall k :: 0 <= k < |PAGE_CONFIGS| ==> Generated(template, writable, PAGE_CONFIGS[k])
    ensures template.None? ==> successCount == 0
  {
    ghost var f := c => Generated(template, writable, c);
    totalCount := |PAGE_CONFIGS|;
    successCount := GenerateEach(PAGE_CONFIGS, template, writable);
    FilterKeepsAll(PAGE_CONFIGS, f);
    failures := totalCount - successCount;
    allGenerated := successCount == totalCount;
    if template.None? {
      NoneGenerated(PAGE_CONFIGS, f);
    }
  }

  /** A filter that keeps nothing. */
  lemma {:induction false} NoneGenerated(s: seq<PageConfig>, f: PageConfig -> bool)
    requires forall c :: !f(c)
    ensures |Filter(s, f)| == 0
  {
    if s != [] {
      NoneGenerated(s[1..], f);
    }
  }
}
