/**
 * The translation tables of public/i18n.js and its `I18nManager`: lookup with fallback,
 * language switching with persistence, and the page-title key of the current page. The
 * browser's `localStorage` is a map field of the manager.
 */
module I18n {
  import opened Wrappers
  import opened JsString

  /** 通用 (public/i18n.js:5-22) */
  const ZhCommon: map<string, string> := map[
    "site.title" := "海外留学",
    "site.subtitle" := "留学生活指南",
    "nav.home" := "首页",
    "nav.study" := "学习指导",
    "nav.life" := "生活小贴士",
    "nav.enrollment" := "入学步骤",
    "nav.hospital" := "医院信息",
    "nav.share" := "分享生活",
    "nav.fun" := "娱乐休闲",
    "nav.login" := "登录",
    "nav.register" := "注册",
    "nav.profile" := "个人中心",
    "nav.messages" := "消息",
    "nav.logout" := "退出登录",
    "nav.admin" := "后台管理",
    "nav.language" := "语言",
    "nav.language.zh" := "中文",
    "nav.language.en" := "English"
  ]

  /** 主页内容 (public/i18n.js:25-33) */
  const ZhMain: map<string, string> := map[
    "main.welcome" := "欢迎来到海外留学",
    "main.description" := "为海外留学生提供全方位的生活指导和学习资源",
    "main.features.title" := "主要功能",
    "main.features.study" := "学习指导",
    "main.features.life" := "生活小贴士",
    "main.features.enrollment" := "入学步骤",
    "main.features.hospital" := "医院信息",
    "main.features.share" := "分享生活",
    "main.features.fun" := "娱乐休闲"
  ]

  /** 按钮和操作 (public/i18n.js:36-47) */
  const ZhButtons: map<string, string> := map[
    "btn.login" := "登录",
    "btn.register" := "注册",
    "btn.submit" := "提交",
    "btn.cancel" := "取消",
    "btn.save" := "保存",
    "btn.edit" := "编辑",
    "btn.delete" := "删除",
    "btn.back" := "返回",
    "btn.next" := "下一步",
    "btn.previous" := "上一步",
    "btn.confirm" := "确认",
    "btn.close" := "关闭"
  ]

  /** 表单 (public/i18n.js:50-59) */
  const ZhForms: map<string, string> := map[
    "form.email" := "邮箱",
    "form.password" := "密码",
    "form.nickname" := "昵称",
    "form.confirm_password" := "确认密码",
    "form.area" := "地区",
    "form.degree" := "学位",
    "form.verification_code" := "验证码",
    "form.send_code" := "发送验证码",
    "form.required" := "必填项",
    "form.optional" := "可选"
  ]

  /** 消息 (public/i18n.js:62-70) */
  const ZhMessages: map<string, string> := map[
    "msg.login_success" := "登录成功",
    "msg.register_success" := "注册成功",
    "msg.logout_success" := "退出成功",
    "msg.login_required" := "请先登录",
    "msg.permission_denied" := "权限不足",
    "msg.operation_success" := "操作成功",
    "msg.operation_failed" := "操作失败",
    "msg.network_error" := "网络错误",
    "msg.loading" := "加载中..."
  ]

  /** 页面标题 (public/i18n.js:73-85) */
  const ZhTitles: map<string, string> := map[
    "page.title.main" := "海外留学 · 主页面",
    "page.title.login" := "海外留学 · 登录",
    "page.title.register" := "海外留学 · 注册",
    "page.title.profile" := "海外留学 · 个人中心",
    "page.title.study" := "海外留学 · 学习指导",
    "page.title.life" := "海外留学 · 生活小贴士",
    "page.title.enrollment" := "海外留学 · 入学步骤",
    "page.title.hospital" := "海外留学 · 医院信息",
    "page.title.share" := "海外留学 · 分享生活",
    "page.title.fun" := "海外留学 · 娱乐休闲",
    "page.title.messages" := "海外留学 · 消息",
    "page.title.publish" := "海外留学 · 发布内容",
    "page.title.admin" := "海外留学 · 后台管理"
  ]

  /** Common (public/i18n.js:90-107) */
  const EnCommon: map<string, string> := map[
    "site.title" := "Overseas Study",
    "site.subtitle" := "Study Abroad Guide",
    "nav.home" := "Home",
    "nav.study" := "Study Guide",
    "nav.life" := "Life Tips",
    "nav.enrollment" := "Enrollment Steps",
    "nav.hospital" := "Hospital Info",
    "nav.share" := "Share Life",
    "nav.fun" := "Entertainment",
    "nav.login" := "Login",
    "nav.register" := "Register",
    "nav.profile" := "Profile",
    "nav.messages" := "Messages",
    "nav.logout" := "Logout",
    "nav.admin" := "Admin Panel",
    "nav.language" := "Language",
    "nav.language.zh" := "中文",
    "nav.language.en" := "English"
  ]

  /** Main page content (public/i18n.js:110-118) */
  const EnMain: map<string, string> := map[
    "main.welcome" := "Welcome to Overseas Study",
    "main.description" := "Comprehensive life guidance and learning resources for international students",
    "main.features.title" := "Main Features",
    "main.features.study" := "Study Guide",
    "main.features.life" := "Life Tips",
    "main.features.enrollment" := "Enrollment Steps",
    "main.features.hospital" := "Hospital Info",
    "main.features.share" := "Share Life",
    "main.features.fun" := "Entertainment"
  ]

  /** Buttons and actions (public/i18n.js:121-132) */
  const EnButtons: map<string, string> := map[
    "btn.login" := "Login",
    "btn.register" := "Register",
    "btn.submit" := "Submit",
    "btn.cancel" := "Cancel",
    "btn.save" := "Save",
    "btn.edit" := "Edit",
    "btn.delete" := "Delete",
    "btn.back" := "Back",
    "btn.next" := "Next",
    "btn.previous" := "Previous",
    "btn.confirm" := "Confirm",
    "btn.close" := "Close"
  ]

  /** Forms (public/i18n.js:135-144) */
  const EnForms: map<string, string> := map[
    "form.email" := "Email",
    "form.password" := "Password",
    "form.nickname" := "Nickname",
    "form.confirm_password" := "Confirm Password",
    "form.area" := "Area",
    "form.degree" := "Degree",
    "form.verification_code" := "Verification Code",
    "form.send_code" := "Send Code",
    "form.required" := "Required",
    "form.optional" := "Optional"
  ]

  /** Messages (public/i18n.js:147-155) */
  const EnMessages: map<string, string> := map[
    "msg.login_success" := "Login successful",
    "msg.register_success" := "Registration successful",
    "msg.logout_success" := "Logout successful",
    "msg.login_required" := "Please login first",
    "msg.permission_denied" := "Permission denied",
    "msg.operation_success" := "Operation successful",
    "msg.operation_failed" := "Operation failed",
    "msg.network_error" := "Network error",
    "msg.loading" := "Loading..."
  ]

  /** Page titles (public/i18n.js:158-170) */
  const EnTitles: map<string, string> := map[
    "page.title.main" := "Overseas Study · Home",
    "page.title.login" := "Overseas Study · Login",
    "page.title.register" := "Overseas Study · Register",
    "page.title.profile" := "Overseas Study · Profile",
    "page.title.study" := "Overseas Study · Study Guide",
    "page.title.life" := "Overseas Study · Life Tips",
    "page.title.enrollment" := "Overseas Study · Enrollment Steps",
    "page.title.hospital" := "Overseas Study · Hospital Info",
    "page.title.share" := "Overseas Study · Share Life",
    "page.title.fun" := "Overseas Study · Entertainment",
    "page.title.messages" := "Overseas Study · Messages",
    "page.title.publish" := "Overseas Study · Publish",
    "page.title.admin" := "Overseas Study · Admin Panel"
  ]

  /** The `zh` table: the union of its sections. */
  const Zh: map<string, string> := ZhCommon + ZhMain + ZhButtons + ZhForms + ZhMessages + ZhTitles

  /** The `en` table. */
  const En: map<string, string> := EnCommon + EnMain + EnButtons + EnForms + EnMessages + EnTitles

  lemma SameKeysCommon()
    ensures ZhCommon.Keys == EnCommon.Keys
  {
  }

  lemma SameKeysMain()
    ensures ZhMain.Keys == EnMain.Keys
  {
  }

  lemma SameKeysButtons()
    ensures ZhButtons.Keys == EnButtons.Keys
  {
  }

  lemma SameKeysForms()
    ensures ZhForms.Keys == EnForms.Keys
  {
  }

  lemma SameKeysMessages()
    ensures ZhMessages.Keys == EnMessages.Keys
  {
  }

  lemma SameKeysTitles()
    ensures ZhTitles.Keys == EnTitles.Keys
  {
  }

  /** Both tables define the same keys. */
  lemma SameKeys()
    ensures Zh.Keys == En.Keys
  {
    SameKeysCommon();
    SameKeysMain();
    SameKeysButtons();
    SameKeysForms();
    SameKeysMessages();
    SameKeysTitles();
    var z := ZhCommon;
    var e := EnCommon;
    MergeKeys(z, ZhMain, e, EnMain);
    z, e := z + ZhMain, e + EnMain;
    MergeKeys(z, ZhButtons, e, EnButtons);
    z, e := z + ZhButtons, e + EnButtons;
    MergeKeys(z, ZhForms, e, EnForms);
    z, e := z + ZhForms, e + EnForms;
    MergeKeys(z, ZhMessages, e, EnMessages);
    z, e := z + ZhMessages, e + EnMessages;
    MergeKeys(z, ZhTitles, e, EnTitles);
  }

  lemma MergeKeys(a: map<string, string>, b: map<string, string>, c: map<string, string>, d: map<string, string>)
    requires a.Keys == c.Keys && b.Keys == d.Keys
    ensures (a + b).Keys == (c + d).Keys
  {
  }

  /** The two tables of the `i18n` object. */
  datatype Tables = Tables(zh: map<string, string>, en: map<string, string>)

  const I18N := Tables(Zh, En)

  /** `i18n[lang]`: `None` for a language without a table. */
  function Table(tables: Tables, lang: string): Option<map<string, string>> {
    if lang == "zh" then Some(tables.zh) else if lang == "en" then Some(tables.en) else None
  }

  /** `i18n[lang]?.[key]`, a missing entry being "". */
  function Entry(tables: Tables, lang: string, key: string): string {
    match Table(tables, lang)
    case Some(t) => if key in t then t[key] else ""
    case None => ""
  }

  /** `t(key, lang)` over given tables: the entry of the requested language when it is
      non-empty, else the Chinese entry when that is non-empty, else the key itself. */
  function Lookup(tables: Tables, key: string, lang: string): string
  {
    var own := Entry(tables, lang, key);
    if own != "" then own
    else if key in tables.zh && tables.zh[key] != "" then tables.zh[key]
    else key
  }

  /** Whatever the tables hold, a non-empty key is never shown as empty text, and a key
      missing from both the requested and the Chinese table is shown as itself. */
  lemma LookupNeverEmpty(tables: Tables, key: string, lang: string)
    ensures key != "" ==> Lookup(tables, key, lang) != ""
    ensures Entry(tables, lang, key) == "" && key !in tables.zh ==> Lookup(tables, key, lang) == key
  {
  }

  /** `t(key, lang)`. */
  function T(key: string, lang: string): string {
    Lookup(I18N, key, lang)
  }

  predicate NonEmptyValues(m: map<string, string>) {
    forall k :: k in m ==> m[k] != ""
  }

  lemma MergeNonEmpty(a: map<string, string>, b: map<string, string>)
    requires NonEmptyValues(a) && NonEmptyValues(b)
    ensures NonEmptyValues(a + b)
  {
  }

  lemma NonEmptyCommon()
    ensures NonEmptyValues(ZhCommon) && NonEmptyValues(EnCommon)
  {
  }

  lemma NonEmptyMain()
    ensures NonEmptyValues(ZhMain) && NonEmptyValues(EnMain)
  {
  }

  lemma NonEmptyButtons()
    ensures NonEmptyValues(ZhButtons) && NonEmptyValues(EnButtons)
  {
  }

  lemma NonEmptyForms()
    ensures NonEmptyValues(ZhForms) && NonEmptyValues(EnForms)
  {
  }

  lemma NonEmptyMessages()
    ensures NonEmptyValues(ZhMessages) && NonEmptyValues(EnMessages)
  {
  }

  lemma NonEmptyTitles()
    ensures NonEmptyValues(ZhTitles) && NonEmptyValues(EnTitles)
  {
  }

  /** No entry of either table is empty. */
  lemma NoEmptyEntries()
    ensures NonEmptyValues(Zh) && NonEmptyValues(En)
  {
    NonEmptyCommon();
    NonEmptyMain();
    NonEmptyButtons();
    NonEmptyForms();
    NonEmptyMessages();
    NonEmptyTitles();
    var z := ZhCommon;
    var e := EnCommon;
    MergeNonEmpty(z, ZhMain);
    MergeNonEmpty(e, EnMain);
    z, e := z + ZhMain, e + EnMain;
    MergeNonEmpty(z, ZhButtons);
    MergeNonEmpty(e, EnButtons);
    z, e := z + ZhButtons, e + EnButtons;
    MergeNonEmpty(z, ZhForms);
    MergeNonEmpty(e, EnForms);
    z, e := z + ZhForms, e + EnForms;
    MergeNonEmpty(z, ZhMessages);
    MergeNonEmpty(e, EnMessages);
    z, e := z + ZhMessages, e + EnMessages;
    MergeNonEmpty(z, ZhTitles);
    MergeNonEmpty(e, EnTitles);
    z, e := z + ZhTitles, e + EnTitles;
  }

  /** With tables of equal keys and no empty entries, English shows the English entry, every
      other language falls back to the Chinese one, and an unknown key is shown as itself. */
  lemma LookupKnown(tables: Tables, key: string, lang: string)
    requires tables.zh.Keys == tables.en.Keys
    requires NonEmptyValues(tables.zh) && NonEmptyValues(tables.en)
    ensures key in tables.zh ==> Lookup(tables, key, lang) == (if lang == "en" then tables.en[key] else tables.zh[key])
    ensures key !in tables.zh ==> Lookup(tables, key, lang) == key
  {
  }

  /** What the site shows for a key in a language: a key of the tables shows the English entry
      for 'en' and the Chinese one otherwise; any other key shows itself. */
  predicate ShowsKnown(key: string, lang: string, r: string) {
    && (key in I18N.zh ==> key in I18N.en && r == (if lang == "en" then I18N.en[key] else I18N.zh[key]))
    && (key !in I18N.zh ==> r == key)
  }

  /** The tables of the site have equal keys and no empty entry, so `t` behaves as
      `LookupKnown` states. */
  lemma TranslateKnown(key: string, lang: string)
    ensures ShowsKnown(key, lang, T(key, lang))
  {
    TablesUniform();
    LookupKnown(I18N, key, lang);
  }

  /** The site's tables meet `LookupKnown`'s conditions. */
  lemma TablesUniform()
    ensures I18N.zh == Zh && I18N.en == En
    ensures I18N.zh.Keys == I18N.en.Keys && NonEmptyValues(I18N.zh) && NonEmptyValues(I18N.en)
  {
    SameKeys();
    NoEmptyEntries();
  }


  /** `pageMap` of `getPageTitleKey`. */
  const PageMap: map<string, string> := map[
    "main page.html" := "page.title.main",
    "login.html" := "page.title.login",
    "register.html" := "page.title.register",
    "profile.html" := "page.title.profile",
    "study-guide.html" := "page.title.study",
    "life-tips.html" := "page.title.life",
    "enrollment-steps.html" := "page.title.enrollment",
    "hospital.html" := "page.title.hospital",
    "share.html" := "page.title.share",
    "fun.html" := "page.title.fun",
    "messages.html" := "page.title.messages",
    "publish.html" := "page.title.publish",
    "admin-all.html" := "page.title.admin"
  ]

  /** The file name of a path: the text after its last '/', "main page.html" when empty. */
  function FileName(pathname: string): (r: string)
    ensures r != "" && '/' !in r
  {
    var parts := Split(pathname, '/');
    Or(parts[|parts| - 1], "main page.html")
  }

  /** `getPageTitleKey`: the title key of the page, `None` (undefined) for unmapped files. */
  function PageTitleKey(pathname: string): (r: Option<string>)
    ensures r.Some? <==> FileName(pathname) in PageMap
    ensures r.Some? ==> r.value == PageMap[FileName(pathname)]
  {
    var f := FileName(pathname);
    if f in PageMap then Some(PageMap[f]) else None
  }

  /** Every page title key is translated in both tables. */
  lemma PageTitlesTranslated(pathname: string)
    ensures PageTitleKey(pathname).Some? ==>
      PageTitleKey(pathname).value in Zh && PageTitleKey(pathname).value in En
  {
    SameKeys();
    PageKeysTitled();
    TitlesInZh();
  }

  /** Every key of `pageMap` names an entry of the title section. */
  lemma PageKeysTitled()
    ensures forall f :: f in PageMap ==> PageMap[f] in ZhTitles
  {
  }

  /** The title section is the last one merged into the `zh` table. */
  lemma TitlesInZh()
    ensures forall k :: k in ZhTitles ==> k in Zh
  {
    LastMerged(ZhCommon + ZhMain + ZhButtons + ZhForms + ZhMessages, ZhTitles);
  }

  lemma LastMerged(a: map<string, string>, b: map<string, string>)
    ensures forall k :: k in b ==> k in a + b
  {
  }

  class I18nManager {
    var currentLang: string
    var storage: map<string, string>

    /** The stored 'language' when it is set and non-empty, else 'zh'. */
    constructor (storage: map<string, string>)
      ensures currentLang == (if "language" in storage && storage["language"] != "" then storage["language"] else "zh")
      ensures this.storage == storage
    {
      this.storage := storage;
      currentLang := if "language" in storage && storage["language"] != "" then storage["language"] else "zh";
    }

    /** `t(key)` in the current language. */
    function Translate(key: string): string
      reads this
    {
      T(key, currentLang)
    }

    /** `switchLanguage(lang)`: the new language is current and persisted under 'language'. */
    method SwitchLanguage(lang: string)
      modifies this
      ensures currentLang == lang
      ensures storage == old(storage)["language" := lang]
    {
      currentLang := lang;
      storage := storage["language" := lang];
    }
  }

  /** A manager's `t(key)`: a key of the tables shows the English entry when the current
      language is 'en' and the Chinese one otherwise; any other key shows itself. */
  lemma TranslateCurrent(m: I18nManager, key: string)
    ensures ShowsKnown(key, m.currentLang, m.Translate(key))
  {
    TranslateKnown(key, m.currentLang);
  }
}
