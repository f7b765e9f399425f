/**
 * The in-process parts of server-optimized.js (the MongoDB variant of the server): the
 * visit-statistics cache that the page middleware updates and a timer flushes, the posts
 * pagination arithmetic, the cookie precedence of `getCurrentUser` and the branch order of
 * the login route. Database reads are parameters.
 */
module ServerOptimized {
  import opened Wrappers
  import opened JsString
  import opened JsNumber
  import opened JsArray
  import opened Identity

  const ADMIN_PASSWORD := "admin123"

  /** `isFixedAdmin`: one of the two hard-coded admin addresses. */
  predicate IsFixedAdmin(email: string, dec: Decoder) {
    NormalizeEmail(email, dec) == "hwlx@hwlx.com" || NormalizeEmail(email, dec) == "1753429393@qq.com"
  }

  // ---------------------------------------------------------------- visit statistics

  /** A calendar date as `getFullYear()`, `getMonth() + 1` and `getDate()` report it. */
  datatype Date = Date(year: nat, month: nat, day: nat)

  predicate ValidDate(d: Date) {
    1 <= d.month <= 12 && 1 <= d.day <= 31
  }

  /** `${y}-${pad(m)}-${pad(d)}`. */
  function DayKey(d: Date): string {
    NatToString(d.year) + "-" + PadStart2(NatToString(d.month)) + "-" + PadStart2(NatToString(d.day))
  }

  /** `${y}-${pad(m)}`. */
  function MonthKey(d: Date): string {
    NatToString(d.year) + "-" + PadStart2(NatToString(d.month))
  }

  function YearKey(d: Date): string {
    NatToString(d.year)
  }

  /** `k` is the year `y`, a dash, two digits reading `month`, a dash and two digits
      reading `day`. */
  predicate ReadsBack(k: string, y: string, month: nat, day: nat) {
    && |k| == |y| + 6 && k[..|y|] == y && k[|y|] == '-' && k[|y| + 3] == '-'
    && AllDigits(k[|y| + 1..|y| + 3]) && DecimalValue(k[|y| + 1..|y| + 3]) == month
    && AllDigits(k[|y| + 4..]) && DecimalValue(k[|y| + 4..]) == day
  }

  /** Month and day keys are the year, then two-digit month (and day) fields that read back
      as the date's own numbers. */
  lemma KeyFormat(d: Date)
    requires ValidDate(d)
    ensures ReadsBack(DayKey(d), NatToString(d.year), d.month, d.day)
    ensures |DayKey(d)| == |NatToString(d.year)| + 6
    ensures MonthKey(d) == DayKey(d)[..|NatToString(d.year)| + 3]
  {
    PadStart2Digits(d.month);
    PadStart2Digits(d.day);
    KeyFields(NatToString(d.year), PadStart2(NatToString(d.month)), PadStart2(NatToString(d.day)));
  }

  /** The fields of `y-mm-dd` sit at fixed offsets after the year. */
  lemma KeyFields(y: string, m: string, dd: string)
    requires |m| == 2 && |dd| == 2
    ensures var k := y + "-" + m + "-" + dd;
      && |k| == |y| + 6 && k[..|y|] == y && k[|y|] == '-' && k[|y| + 3] == '-'
      && k[|y| + 1..|y| + 3] == m && k[|y| + 4..] == dd && k[..|y| + 3] == y + "-" + m
  {
    var k := y + "-" + m + "-" + dd;
    assert k[|y| + 1..|y| + 3] == m;
    assert k[|y| + 4..] == dd;
    assert k[..|y| + 3] == y + "-" + m;
  }

  /** The value of a counter, an absent one counting as 0. */
  function Count(m: map<string, int>, k: string): int {
    if k in m then m[k] else 0
  }

  /** `m'` is `m` with the counter `k` one higher and every other counter as it was. */
  predicate Incremented(m': map<string, int>, m: map<string, int>, k: string) {
    && k in m' && m'[k] == Count(m, k) + 1
    && (forall j :: j in m' && j != k ==> j in m && m'[j] == m[j])
    && (forall j :: j in m ==> j in m')
  }

  /** `if (!m[k]) m[k] = 0; m[k]++`. */
  function Bump(m: map<string, int>, k: string): (r: map<string, int>)
    ensures Incremented(r, m, k)
  {
    m[k := Count(m, k) + 1]
  }

  /** The middleware skips API calls and file requests. */
  predicate Counted(path: string) {
    !StartsWith(path, "/api/") && !Contains(path, ".")
  }

  /** An entry of `statsUpdateQueue`. */
  datatype Pending = Pending(today: string, weekKey: string, monthKey: string, yearKey: string)

  /** `visitStatsCache` with the update queue and the pending-timer flag. */
  class VisitStats {
    var total: int
    var daily: map<string, int>
    var weekly: map<string, int>
    var monthly: map<string, int>
    var yearly: map<string, int>
    var queue: seq<Pending>
    var timerPending: bool

    /** The cache before `loadVisitStats` fills it: all counters zero, nothing queued. */
    constructor ()
      ensures total == 0 && daily == map[] && weekly == map[] && monthly == map[] && yearly == map[]
      ensures queue == [] && !timerPending
    {
      total := 0;
      daily, weekly, monthly, yearly := map[], map[], map[], map[];
      queue := [];
      timerPending := false;
    }

    /** The statistics middleware for a request to `path` at date `now`; `weekStart` is the
        date the middleware computes for the start of the week. A counted visit raises the
        total and the day, week, month and year counters by one, queues one entry and makes
        sure a flush is scheduled; any other request changes nothing. */
    method Visit(path: string, now: Date, weekStart: Date)
      modifies this
      ensures !Counted(path) ==>
        && total == old(total) && daily == old(daily) && weekly == old(weekly)
        && monthly == old(monthly) && yearly == old(yearly)
        && queue == old(queue) && timerPending == old(timerPending)
      ensures Counted(path) ==>
        && total == old(total) + 1
        && Incremented(daily, old(daily), DayKey(now))
        && Incremented(weekly, old(weekly), DayKey(weekStart))
        && Incremented(monthly, old(monthly), MonthKey(now))
        && Incremented(yearly, old(yearly), YearKey(now))
        && queue == old(queue) + [Pending(DayKey(now), DayKey(weekStart), MonthKey(now), YearKey(now))]
        && timerPending
    {
      if !Counted(path) {
        return;
      }
      var today := DayKey(now);
      var weekKey := DayKey(weekStart);
      var monthKey := MonthKey(now);
      var yearKey := YearKey(now);
      total := total + 1;
      daily := Bump(daily, today);
      weekly := Bump(weekly, weekKey);
      monthly := Bump(monthly, monthKey);
      yearly := Bump(yearly, yearKey);
      queue := queue + [Pending(today, weekKey, monthKey, yearKey)];
      ScheduleStatsUpdate();
    }

    /** `scheduleStatsUpdate`: starts the timer unless one is pending, so at most one flush is
        outstanding. */
    method ScheduleStatsUpdate()
      modifies this
      ensures timerPending
      ensures total == old(total) && daily == old(daily) && weekly == old(weekly)
      ensures monthly == old(monthly) && yearly == old(yearly) && queue == old(queue)
    {
      if timerPending {
        return;
      }
      timerPending := true;
    }

    /** The timer callback, five seconds later: a non-empty queue is saved and emptied (the
        save reports its own failures, so the queue is emptied either way), and the timer
        flag is cleared. */
    method FlushTimer()
      requires timerPending
      modifies this
      ensures queue == [] && !timerPending
      ensures total == old(total) && daily == old(daily) && weekly == old(weekly)
      ensures monthly == old(monthly) && yearly == old(yearly)
    {
      if |queue| > 0 {
        queue := [];
      }
      timerPending := false;
    }
  }

  // ---------------------------------------------------------------- pagination

  /** `parseInt` of a query parameter with the destructuring default `d` when it is absent;
      `None` stands for NaN. */
  function ParsedOr(q: Option<string>, d: int): (r: Option<int>)
    ensures q.None? ==> r == Some(d)
    ensures q.Some? ==> r == ParseInt(q.value)
  {
    match q
    case None => Some(d)
    case Some(s) => ParseInt(s)
  }

  function Abs(x: int): nat {
    if x < 0 then -x else x
  }

  /** `Math.ceil(count / limit)`, with `None` for the `null` that `res.json` writes for the
      Infinity (or, when `count` is 0, the NaN) of a zero limit. Otherwise it is the least
      integer not below the quotient. */
  function CeilQuotient(count: nat, limit: int): (r: Option<int>)
    ensures r.None? <==> limit == 0
    ensures limit > 0 ==> r.value * limit >= count && (r.value - 1) * limit < count
    ensures limit < 0 ==> r.value * limit <= count && (r.value - 1) * limit > count
  {
    if limit > 0 then
      CeilDivFits(count, limit);
      Some(CeilDiv(count, limit))
    else if limit == 0 then None
    else
      NegativeCeil(count, -limit);
      Some(-(count / -limit))
  }

  lemma NegativeCeil(count: nat, m: int)
    requires m > 0
    ensures var k := count / m; k * m <= count && (k + 1) * m > count
  {
    var k := count / m;
    assert count == k * m + count % m && 0 <= count % m < m;
  }

  lemma CeilDivFits(count: nat, limit: int)
    requires limit > 0
    ensures CeilDiv(count, limit) * limit >= count && (CeilDiv(count, limit) - 1) * limit < count
  {
    var q := CeilDiv(count, limit);
    if q == 0 {
      assert (q - 1) * limit == -limit;
    }
  }

  /** How many posts `.skip(skip).limit(limit)` returns of `count`: all the rest for a zero
      limit (no limit), at most `|limit|` otherwise (MongoDB takes a negative limit by its
      absolute value). */
  function Returned(skip: nat, limit: int, count: nat): (n: nat)
    ensures skip >= count ==> n == 0
    ensures skip < count ==> skip + n <= count
    ensures limit != 0 ==> n <= Abs(limit)
    ensures limit == 0 || n < Abs(limit) ==> skip + n >= count
  {
    var rest := if skip >= count then 0 else count - skip;
    if limit == 0 || rest < Abs(limit) then rest else Abs(limit)
  }

  /** The `pagination` object of GET /api/posts, with the skip and the number of posts the
      query returns. */
  datatype Pagination = Pagination(current: int, total: Option<int>, hasNext: bool, hasPrev: bool, skip: nat, returned: nat)

  /** The reply of GET /api/posts: the listing, the 500 of the `catch` when MongoDB rejects a
      negative skip, or `NotNumeric` when `page` or `limit` is NaN. */
  datatype PostsReply = Listed(p: Pagination) | ServerError | NotNumeric

  /** GET /api/posts?page=&limit= over `count` matching posts, once both parameters are
      numbers: the skip is `(page - 1) * limit`; a negative skip fails with 500; otherwise
      the page is the `Returned` window after the skip, with `Math.ceil(count / limit)`
      pages, a next page exactly when posts remain after it, and a previous page exactly
      after page 1. */
  function ListPage(page: int, limit: int, count: nat): (r: PostsReply)
    ensures !r.NotNumeric?
    ensures r.ServerError? <==> (page - 1) * limit < 0
    ensures r.Listed? ==>
      && r.p.current == page && r.p.skip == (page - 1) * limit
      && r.p.returned == Returned(r.p.skip, limit, count)
      && r.p.total == CeilQuotient(count, limit)
      && (r.p.hasNext <==> r.p.skip + r.p.returned < count)
      && (r.p.hasPrev <==> page > 1)
  {
    var skip := (page - 1) * limit;
    if skip < 0 then ServerError
    else
      var n := Returned(skip, limit, count);
      Listed(Pagination(page, CeilQuotient(count, limit), skip + n < count, page > 1, skip, n))
  }

  /** The route: `page` and `limit` default to 1 and 10 and are read with `parseInt`; a NaN
      in either is `NotNumeric`, numbers give `ListPage`. */
  function PostsPage(pageQ: Option<string>, limitQ: Option<string>, count: nat): (r: PostsReply)
    ensures r.NotNumeric? <==> ParsedOr(pageQ, 1).None? || ParsedOr(limitQ, 10).None?
    ensures !r.NotNumeric? ==> r == ListPage(ParsedOr(pageQ, 1).value, ParsedOr(limitQ, 10).value, count)
  {
    match (ParsedOr(pageQ, 1), ParsedOr(limitQ, 10))
    case (Some(page), Some(limit)) => ListPage(page, limit, count)
    case _ => NotNumeric
  }

  /** With a positive limit, a page before the first fails: its skip is negative. */
  lemma PositiveLimitNeedsPage(page: int, limit: int, count: nat)
    requires limit > 0
    ensures ListPage(page, limit, count).ServerError? <==> page < 1
  {
    if page < 1 {
      MulMono(page - 1, -1, limit);
    } else {
      MulMono(0, page - 1, limit);
    }
  }

  /** A zero limit is no limit: the skip is 0, every post is returned, there is no next page,
      and the page count is `null`. */
  lemma ZeroLimitListsAll(page: int, count: nat)
    ensures var r := ListPage(page, 0, count);
      r.Listed? && r.p.skip == 0 && r.p.returned == count && !r.p.hasNext && r.p.total.None?
  {
    assert (page - 1) * 0 == 0;
  }

  /** With a positive limit, a listed page has a next page exactly when it is before the
      last one. */
  lemma HasNextIffEarlierPage(page: int, limit: int, count: nat)
    ensures var r := ListPage(page, limit, count);
      r.Listed? && limit > 0 ==> (r.p.hasNext <==> page < r.p.total.value)
  {
    var r := ListPage(page, limit, count);
    if r.Listed? && limit > 0 {
      var p := r.p;
      assert page * limit == p.skip + limit;
      assert p.hasNext <==> page * limit < count;
      CeilCompare(page, limit, count, p.total.value);
    }
  }

  /** A page ends before the posts do exactly when it comes before the last page. */
  lemma CeilCompare(page: int, limit: int, count: nat, q: int)
    requires limit > 0 && q * limit >= count && (q - 1) * limit < count
    ensures page * limit < count <==> page < q
  {
    if page < q {
      MulMono(page, q - 1, limit);
    } else {
      MulMono(q, page, limit);
    }
  }

  lemma MulMono(a: int, b: int, c: nat)
    requires a <= b
    ensures a * c <= b * c
  {
  }

  // ---------------------------------------------------------------- identity

  /** `getCurrentUser`: a non-empty `admin_email` cookie overrides the `email` cookie and makes
      the caller an admin; otherwise the caller is the `email` cookie, an admin when the user
      table (`dbAdmin`, false when the lookup fails) says so. */
  function GetCurrentUser(emailCookie: string, adminCookie: string, dbAdmin: string -> bool, dec: Decoder)
    : (c: Caller)
    ensures NormalizeEmail(adminCookie, dec) != "" ==> c == Caller(NormalizeEmail(adminCookie, dec), true)
    ensures NormalizeEmail(adminCookie, dec) == "" ==>
      c.email == NormalizeEmail(emailCookie, dec) && (c.isAdmin <==> c.email != "" && dbAdmin(c.email))
  {
    var admin := NormalizeEmail(adminCookie, dec);
    if admin != "" then Caller(admin, true)
    else
      var email := NormalizeEmail(emailCookie, dec);
      Caller(email, email != "" && dbAdmin(email))
  }

  /** A successful login: the fixed admin (cookie `admin_email`) or a stored user. */
  datatype Session = AdminSession(email: string) | UserSession(user: User)

  /** POST /api/login: 400 for an empty email or password; a fixed-admin address is let in
      with "admin123" and refused with 401 otherwise, without consulting the user table;
      anyone else needs the user stored under exactly that email and its password. */
  function Login(emailIn: string, password: string, users: seq<User>, dec: Decoder)
    : (r: Reply<Option<Session>>)
    ensures var email := NormalizeEmail(emailIn, dec);
      && (email == "" || password == "" ==> r == Reply(400, None))
      && (email != "" && password != "" && IsFixedAdmin(email, dec) ==>
            r == if password == ADMIN_PASSWORD then Reply(200, Some(AdminSession(email))) else Reply(401, None))
    ensures var email := NormalizeEmail(emailIn, dec);
      var found := Find(users, (u: User) => u.email == email);
      email != "" && password != "" && !IsFixedAdmin(email, dec) ==>
        r == if found.Some? && found.value.password == password then Reply(200, Some(UserSession(found.value)))
             else Reply(401, None)
  {
    var email := NormalizeEmail(emailIn, dec);
    if email == "" || password == "" then Reply(400, None)
    else if IsFixedAdmin(email, dec) then
      if password == ADMIN_PASSWORD then Reply(200, Some(AdminSession(email))) else Reply(401, None)
    else
      match Find(users, (u: User) => u.email == email)
      case Some(u) => if u.password == password then Reply(200, Some(UserSession(u))) else Reply(401, None)
      case None => Reply(401, None)
  }

  /** The result of a fixed-admin login never depends on the user table. */
  lemma FixedAdminIgnoresUsers(emailIn: string, password: string, users1: seq<User>, users2: seq<User>, dec: Decoder)
    requires IsFixedAdmin(NormalizeEmail(emailIn, dec), dec)
    ensures Login(emailIn, password, users1, dec) == Login(emailIn, password, users2, dec)
  {
  }
}
