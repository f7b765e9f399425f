/**
 * The unread-message badge of public/unread-badge.js: where the unread count comes from
 * (`getUnreadCount`), how a count is shown on the badge (`updateUnreadBadge` and the console
 * helper `testBadge` apply the same rule), and the count cached in `localStorage`.
 *
 * A JavaScript number that is `NaN` is `None`; counts are otherwise integers.
 */
module UnreadBadge {
  import opened Wrappers
  import opened JsString
  import opened JsNumber

  /** The outcome of `fetch('/api/messages/unread-count')`: it throws (network error, or the
      body is not JSON), the response is not OK, or it is OK with the body's `count` field
      (`None` when absent or null). */
  datatype Fetched = Failed | NotOk | Ok(count: Option<int>)

  /** `getUnreadCount()`: an OK response gives its `count`, 0 when that is missing or 0;
      otherwise the cached text is parsed with `parseInt` (which may give NaN), and a missing or
      empty cache (or a `localStorage` that throws, `cached` = `None`) gives 0. */
  function GetUnreadCount(fetched: Fetched, cached: Option<string>): (c: Option<int>)
    ensures fetched.Ok? ==> c == Some(fetched.count.GetOr(0))
    ensures !fetched.Ok? && (cached.None? || cached == Some("")) ==> c == Some(0)
    ensures !fetched.Ok? && cached.Some? && cached.value != "" ==> c == ParseInt(cached.value)
  {
    match fetched
    case Ok(count) => Some(count.GetOr(0))
    case _ =>
      match cached
      case Some(s) => if s != "" then ParseInt(s) else Some(0)
      case None => Some(0)
  }

  /** The badge text for a count: `None` when the badge is hidden (a count that is not
      positive, or NaN), "99+" above 99, and the decimal rendering otherwise. */
  function Label(count: Option<int>): (r: Option<string>)
    ensures r.None? <==> count.None? || count.value <= 0
    ensures count.Some? && count.value > 99 ==> r == Some("99+")
    ensures count.Some? && 0 < count.value <= 99 ==> r == Some(NatToString(count.value))
  {
    match count
    case None => None
    case Some(n) => if n <= 0 then None else if n > 99 then Some("99+") else Some(NatToString(n))
  }

  /** A shown label has one to three characters, and below 100 it reads back as the count:
      counts up to 99 are told apart, larger ones all read "99+". */
  lemma LabelShape(n: int)
    requires n > 0
    ensures 1 <= |Label(Some(n)).value| <= 3
    ensures n <= 99 ==> AllDigits(Label(Some(n)).value) && DecimalValue(Label(Some(n)).value) == n
    ensures n > 99 ==> !AllDigits(Label(Some(n)).value)
  {
    if n <= 99 {
      if n < 10 {
        DigitsLength(n, 1);
      } else {
        assert Pow10(2) == 100 by { assert Pow10(1) == 10; }
        DigitsLength(n, 2);
      }
    } else {
      assert !IsDigit(Label(Some(n)).value[2]);
    }
  }

  /** `unreadCount.toString()`: the text written back to the cache. */
  function CountText(count: Option<int>): string {
    match count
    case None => "NaN"
    case Some(n) => IntToString(n)
  }

  /** The count written back to the cache is the count a later failed fetch reads from it,
      NaN included. */
  lemma CacheRoundTrip(count: Option<int>, fetched: Fetched)
    requires !fetched.Ok?
    ensures GetUnreadCount(fetched, Some(CountText(count))) == count
  {
    match count
    case Some(n) =>
      ParseIntToString(n);
    case None =>
      var s := "NaN";
      assert TrimStart(s) == s by { assert !IsSpace(s[0]); }
      assert !IsDigit(s[0]);
      assert Magnitude(s) == None;
  }

  /** The `.badge` element inside `#chatFab`: its text and its `style.display`. */
  class Badge {
    var textContent: string
    var display: string

    constructor (textContent: string, display: string)
      ensures this.textContent == textContent && this.display == display
    {
      this.textContent := textContent;
      this.display := display;
    }

    /** The rule shared by `updateUnreadBadge` and `testBadge`: a shown label sets the text and
        displays the badge as flex; otherwise the badge is hidden and its text left as it was. */
    method Show(count: Option<int>)
      modifies this
      ensures Label(count).Some? ==> textContent == Label(count).value && display == "flex"
      ensures Label(count).None? ==> textContent == old(textContent) && display == "none"
    {
      var text := Label(count);
      if text.Some? {
        textContent := text.value;
        display := "flex";
      } else {
        display := "none";
      }
    }
  }

  /** `updateUnreadBadge()`: nothing happens without a badge; otherwise the badge shows the
      count `getUnreadCount` gives and that count is written back under 'unreadCount'. */
  method UpdateUnreadBadge(badge: Badge?, fetched: Fetched, storage: map<string, string>)
    returns (storage': map<string, string>)
    modifies badge
    ensures badge == null ==> storage' == storage
    ensures badge != null ==>
      var count := GetUnreadCount(fetched, if "unreadCount" in storage then Some(storage["unreadCount"]) else None);
      && (Label(count).Some? ==> badge.textContent == Label(count).value && badge.display == "flex")
      && (Label(count).None? ==> badge.textContent == old(badge.textContent) && badge.display == "none")
      && storage' == storage["unreadCount" := CountText(count)]
  {
    if badge == null {
      return storage;
    }
    var cached := if "unreadCount" in storage then Some(storage["unreadCount"]) else None;
    var count := GetUnreadCount(fetched, cached);
    badge.Show(count);
    storage' := storage["unreadCount" := CountText(count)];
  }

  /** `window.testBadge(count)`: the same rule applied to a given count. */
  method TestBadge(badge: Badge?, count: int)
    modifies badge
    ensures badge != null && count > 0 ==> badge.textContent == Label(Some(count)).value && badge.display == "flex"
    ensures badge != null && count <= 0 ==> badge.textContent == old(badge.textContent) && badge.display == "none"
  {
    if badge != null {
      badge.Show(Some(count));
    }
  }
}
