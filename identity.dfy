/**
 * Caller identity and the user table shared by the JSON-file servers: `normalizeEmail`
 * (written identically in server.js, server-fallback.js and server-optimized.js), the
 * cookie-based `getCurrentUser` of server.js and server-fallback.js, and the register route,
 * whose body is the same in server.js and server-fallback.js.
 *
 * Missing strings (`undefined`, `null`) and the empty string are both modelled as "", which
 * is how every guard here treats them (they are all falsy).
 */
module Identity {
  import opened Wrappers
  import opened JsString
  import opened JsArray

  /** `decodeURIComponent`: the decoded text, or `None` when it throws on a malformed escape. */
  type Decoder = string -> Option<string>

  predicate IsLowerCase(s: string) {
    forall i :: 0 <= i < |s| ==> !('A' <= s[i] <= 'Z')
  }

  /** `normalizeEmail(v)`: "" for a missing value; otherwise trimmed, URI-decoded when the
      decoding does not throw, and lower-cased. */
  function NormalizeEmail(v: string, dec: Decoder): (r: string)
    ensures v == "" ==> r == ""
    ensures IsLowerCase(r)
  {
    if v == "" then ""
    else
      var s := Trim(v);
      Lower(dec(s).GetOr(s))
  }

  /** For a value that decodes to itself (no `%` escapes), normalisation is trimming and
      lower-casing, and it is empty exactly for an all-white-space value. */
  lemma NormalizePlain(v: string, dec: Decoder)
    requires v != "" && dec(Trim(v)) == Some(Trim(v))
    ensures NormalizeEmail(v, dec) == Lower(Trim(v))
    ensures NormalizeEmail(v, dec) == "" <==> AllSpace(v)
  {
  }

  /** The caller as `getCurrentUser(req)` reports it. */
  datatype Caller = Caller(email: string, isAdmin: bool)

  /** `getCurrentUser` of server.js and server-fallback.js: the `email` cookie wins whenever it
      normalises to a non-empty value, and then the caller is not flagged admin; otherwise the
      `admin_email` cookie is used and flags the caller admin exactly when it is non-empty. */
  function GetCurrentUser(emailCookie: string, adminCookie: string, dec: Decoder): (c: Caller)
    ensures NormalizeEmail(emailCookie, dec) != "" ==>
      c == Caller(NormalizeEmail(emailCookie, dec), false)
    ensures NormalizeEmail(emailCookie, dec) == "" ==>
      c.email == NormalizeEmail(adminCookie, dec) && (c.isAdmin <==> c.email != "")
    ensures c.isAdmin ==> c.email != ""
  {
    var email := NormalizeEmail(emailCookie, dec);
    if email != "" then Caller(email, false)
    else
      var admin := NormalizeEmail(adminCookie, dec);
      Caller(admin, admin != "")
  }

  /** A row of users.json. */
  datatype User = User(
    id: int, nickname: string, username: string, email: string, password: string,
    area: string, degree: string, avatarPath: string, isAdmin: bool)

  /** The users whose stored email normalises to the same value as `email`. */
  predicate SameEmail(u: User, email: string, dec: Decoder) {
    NormalizeEmail(u.email, dec) == NormalizeEmail(email, dec)
  }

  /** `users.find(u => normalizeEmail(u.email) === normalizeEmail(email))`. */
  function FindUserByEmail(users: seq<User>, email: string, dec: Decoder): (r: Option<User>)
    ensures r.Some? ==> r.value in users && SameEmail(r.value, email, dec)
    ensures r.None? ==> forall i :: 0 <= i < |users| ==> !SameEmail(users[i], email, dec)
    ensures r.Some? ==>
      exists i :: 0 <= i < |users| && users[i] == r.value && forall j :: 0 <= j < i ==> !SameEmail(users[j], email, dec)
  {
    match FindIndex(users, u => SameEmail(u, email, dec))
    case None => None
    case Some(i) => Some(users[i])
  }

  /** No two users share a normalised email. */
  predicate UniqueEmails(users: seq<User>, dec: Decoder) {
    forall i, j :: 0 <= i < j < |users| ==>
      NormalizeEmail(users[i].email, dec) != NormalizeEmail(users[j].email, dec)
  }

  /** Some user's stored email normalises to `e`. */
  predicate EmailTaken(users: seq<User>, e: string, dec: Decoder) {
    exists i :: 0 <= i < |users| && NormalizeEmail(users[i].email, dec) == e
  }

  /** The nickname a new account gets: the given one, or the text before the first '@'. */
  function DefaultNickname(nickname: string, email: string): (r: string)
    ensures nickname != "" ==> r == nickname
    ensures nickname == "" ==>
      '@' !in r && StartsWith(email, r) && (|r| == |email| || email[|r|] == '@')
  {
    if nickname != "" then nickname
    else
      SplitFirst(email, '@');
      Split(email, '@')[0]
  }

  /** POST /api/register. 400 when the normalised email or the password is empty; 409 when a
      user with the same normalised email exists; otherwise one user is appended. The email
      is stored normalised, the avatar path empty. `isAdmin` is the truth value of the
      request's `isAdmin` field and `id` stands for `Date.now()`. */
  method Register(users: seq<User>, nickname: string, email: string, password: string,
                  area: string, degree: string, isAdmin: bool, id: int, dec: Decoder)
    returns (status: int, users': seq<User>)
    ensures var e := NormalizeEmail(email, dec);
      && (e == "" || password == "" ==> status == 400)
      && (e != "" && password != "" && EmailTaken(users, e, dec) ==> status == 409)
      && (status == 200 <==> e != "" && password != "" && !EmailTaken(users, e, dec))
      && (status != 200 ==> users' == users)
      && (status == 200 ==>
            users' == users + [User(id, DefaultNickname(nickname, e), "", e, password, area, degree, "", isAdmin)])
    ensures var e := NormalizeEmail(email, dec);
      status == 200 && UniqueEmails(users, dec) && NormalizeEmail(e, dec) == e ==> UniqueEmails(users', dec)
  {
    var e := NormalizeEmail(email, dec);
    if e == "" || password == "" {
      return 400, users;
    }
    if FindIndex(users, (u: User) => NormalizeEmail(u.email, dec) == e).Some? {
      return 409, users;
    }
    var user := User(id, DefaultNickname(nickname, e), "", e, password, area, degree, "", isAdmin);
    users' := users + [user];
    status := 200;
  }
}
