/**
 * The JSON-file routes of server-fallback.js, the server used when MongoDB is unavailable.
 * Register is the same as in server.js (`Identity.Register`). Unlike server.js, these routes
 * take the caller from the `email` cookie alone, and their fixed admin is only
 * "hwlx@hwlx.com".
 */
module ServerFallback {
  import opened Wrappers
  import opened JsString
  import opened JsNumber
  import opened JsArray
  import opened Identity

  const FIXED_ADMIN := "hwlx@hwlx.com"
  const FIXED_ADMIN_PASSWORD := "hwlx"

  /** A row of posts.json as this server writes it. `id` and the dates are `Date.now()` and
      ISO dates, modelled as integers. */
  datatype Post = Post(
    id: int, title: string, content: string, category: string, author: int,
    authorName: string, authorEmail: string, authorAvatar: string, images: seq<string>,
    likes: int, views: int, createdAt: int, updatedAt: int)

  /** A row of messages.json as this server writes it. */
  datatype Message = Message(id: int, from: string, to: string, content: string, isRead: bool, createdAt: int)

  /** A stored `postId`: a number (what this server writes), a string (what server.js
      writes), or `null` (a `NaN` from `parseInt` after JSON serialisation). */
  datatype PostRef = Num(n: int) | Str(s: string) | Null

  /** A row of comments.json as this server writes it. */
  datatype Comment = Comment(
    id: int, postId: PostRef, author: int, content: string, authorName: string,
    authorEmail: string, authorAvatar: string, createdAt: int)

  /** `isFixedAdmin`. */
  predicate IsFixedAdmin(email: string, dec: Decoder) {
    NormalizeEmail(email, dec) == FIXED_ADMIN
  }

  /** `users.find(u => normalizeEmail(u.email) === email)`: this server normalises the
      stored address only, and compares it with an `email` the route has already
      normalised (`NormalizeEmail` decodes, so normalising that again could change it). */
  function UserWithEmail(users: seq<User>, email: string, dec: Decoder): (r: Option<User>)
    ensures r.None? <==> forall i :: 0 <= i < |users| ==> NormalizeEmail(users[i].email, dec) != email
    ensures r.Some? ==> exists i ::
      && 0 <= i < |users| && users[i] == r.value && NormalizeEmail(users[i].email, dec) == email
      && forall j :: 0 <= j < i ==> NormalizeEmail(users[j].email, dec) != email
  {
    Find(users, (u: User) => NormalizeEmail(u.email, dec) == email)
  }

  // ---------------------------------------------------------------- login

  /** A successful login: the fixed admin (cookie `admin_email`), or a stored user (cookie
      `email` set to the stored address). */
  datatype Session = AdminSession(email: string) | UserSession(user: User)

  /** The stored user the credentials match: the normalised email equals the already
      normalised input and the password is identical. */
  predicate Credentials(u: User, email: string, password: string, dec: Decoder) {
    NormalizeEmail(u.email, dec) == email && u.password == password
  }

  /** POST /api/login. The fixed admin with password "hwlx" is let in without the user table;
      everyone else, the fixed admin with another password included, needs the first user
      whose credentials match, and gets 401 when there is none. */
  function Login(emailIn: string, password: string, users: seq<User>, dec: Decoder)
    : (r: Reply<Option<Session>>)
    ensures var email := NormalizeEmail(emailIn, dec);
      IsFixedAdmin(email, dec) && password == FIXED_ADMIN_PASSWORD ==>
        r == Reply(200, Some(AdminSession(email)))
    ensures var email := NormalizeEmail(emailIn, dec);
      !(IsFixedAdmin(email, dec) && password == FIXED_ADMIN_PASSWORD) ==>
        && (r.status == 200 <==> exists i :: 0 <= i < |users| && Credentials(users[i], email, password, dec))
        && (r.status == 200 ==> exists i ::
              && 0 <= i < |users| && r.body == Some(UserSession(users[i]))
              && Credentials(users[i], email, password, dec)
              && forall j :: 0 <= j < i ==> !Credentials(users[j], email, password, dec))
        && (r.status != 200 ==> r == Reply(401, None))
  {
    var email := NormalizeEmail(emailIn, dec);
    if IsFixedAdmin(email, dec) && password == FIXED_ADMIN_PASSWORD then Reply(200, Some(AdminSession(email)))
    else
      match FindIndex(users, (u: User) => Credentials(u, email, password, dec))
      case None => Reply(401, None)
      case Some(i) => Reply(200, Some(UserSession(users[i])))
  }

  // ---------------------------------------------------------------- posts

  function InCategory(category: string): Post -> bool {
    (p: Post) => p.category == category
  }

  function MatchesSearch(search: string): Post -> bool {
    (p: Post) => Contains(Lower(p.title), Lower(search)) || Contains(Lower(p.content), Lower(search))
  }

  /** A post the listing shows: the category, when given, is equal, and the search, when
      given, occurs in the lower-cased title or content. */
  predicate Listed(p: Post, category: string, search: string) {
    (category == "" || p.category == category) && (search == "" || MatchesSearch(search)(p))
  }

  function ListedBy(category: string, search: string): Post -> bool {
    (p: Post) => Listed(p, category, search)
  }

  /** GET /api/posts?category=&search=: the category filter, then the search filter. */
  function ListPosts(category: string, search: string, posts: seq<Post>): seq<Post> {
    var byCategory := if category != "" then Filter(posts, InCategory(category)) else posts;
    if search != "" then Filter(byCategory, MatchesSearch(search)) else byCategory
  }

  /** The listing is the posts that match both filters, in stored order. */
  lemma ListPostsFilters(category: string, search: string, posts: seq<Post>)
    ensures ListPosts(category, search, posts) == Filter(posts, ListedBy(category, search))
    ensures Subsequence(ListPosts(category, search, posts), posts)
  {
    var f := ListedBy(category, search);
    if category != "" && search != "" {
      FilterFilter(posts, InCategory(category), MatchesSearch(search), f);
    } else if category != "" {
      FilterExt(posts, InCategory(category), f);
    } else if search != "" {
      FilterExt(posts, MatchesSearch(search), f);
    } else {
      FilterAll(posts, f);
    }
    FilterSubsequence(posts, f);
  }

  /** POST /api/posts. 401 when the `email` cookie normalises to ""; `content` falls back to
      `desc`; 400 when the title, that content or the category is empty; 404 when no user has
      the caller's email; otherwise the post is prepended with 0 likes and 0 views and the
      author's stored details. `id` and `now` stand for `Date.now()`. */
  method CreatePost(emailCookie: string, title: string, content: string, desc: string, category: string,
                    images: seq<string>, id: int, now: int, users: seq<User>, posts: seq<Post>, dec: Decoder)
    returns (status: int, posts': seq<Post>)
    ensures var email := NormalizeEmail(emailCookie, dec);
      var body := if content != "" then content else desc;
      && (status == 401 <==> email == "")
      && (email != "" ==> (status == 400 <==> title == "" || body == "" || category == ""))
      && (email != "" && title != "" && body != "" && category != "" ==>
            (status == 404 <==> UserWithEmail(users, email, dec).None?))
      && (status != 200 ==> posts' == posts)
      && (status == 200 <==>
            email != "" && title != "" && body != "" && category != "" &&
            UserWithEmail(users, email, dec).Some?)
    ensures var email := NormalizeEmail(emailCookie, dec);
      var body := if content != "" then content else desc;
      status == 200 ==>
        var u := UserWithEmail(users, email, dec).value;
        posts' == [Post(id, title, body, category, u.id, u.nickname, u.email, u.avatarPath, images, 0, 0, now, now)] + posts
    ensures status in {200, 400, 401, 404}
  {
    var email := NormalizeEmail(emailCookie, dec);
    if email == "" {
      return 401, posts;
    }
    var body := if content != "" then content else desc;
    if title == "" || body == "" || category == "" {
      return 400, posts;
    }
    var user := UserWithEmail(users, email, dec);
    if user.None? {
      return 404, posts;
    }
    var u := user.value;
    posts' := [Post(id, title, body, category, u.id, u.nickname, u.email, u.avatarPath, images, 0, 0, now, now)] + posts;
    status := 200;
  }

  /** `String(p.id) === String(id)`. */
  function HasId(idParam: string): Post -> bool {
    (p: Post) => IntToString(p.id) == idParam
  }

  /** DELETE /api/posts/:id. 401 without the `email` cookie; 400 for an empty id; 404 when no
      post's id renders as the parameter; 403 unless the post's stored `authorEmail` is exactly
      the caller's normalised email (no admin override); otherwise that one post is removed
      and the comments are left as they are. */
  method DeletePost(emailCookie: string, idParam: string, posts: seq<Post>, dec: Decoder)
    returns (status: int, posts': seq<Post>)
    ensures var email := NormalizeEmail(emailCookie, dec);
      && (status == 401 <==> email == "")
      && (status == 400 <==> email != "" && idParam == "")
      && (email != "" && idParam != "" ==>
            (status == 404 <==> forall i :: 0 <= i < |posts| ==> IntToString(posts[i].id) != idParam))
      && (status == 403 || status == 200 ==> FindIndex(posts, HasId(idParam)).Some?)
      && (status != 200 ==> posts' == posts)
    ensures var email := NormalizeEmail(emailCookie, dec);
      status == 403 || status == 200 ==>
        var k := FindIndex(posts, HasId(idParam)).value;
        && (status == 200 <==> posts[k].authorEmail == email)
        && (status == 200 ==> posts' == RemoveAt(posts, k))
    ensures var email := NormalizeEmail(emailCookie, dec);
      status == 200 <==>
        && email != "" && idParam != "" && FindIndex(posts, HasId(idParam)).Some?
        && posts[FindIndex(posts, HasId(idParam)).value].authorEmail == email
    ensures var email := NormalizeEmail(emailCookie, dec);
      status == 403 <==>
        && email != "" && idParam != "" && FindIndex(posts, HasId(idParam)).Some?
        && posts[FindIndex(posts, HasId(idParam)).value].authorEmail != email
    ensures status in {200, 400, 401, 403, 404}
  {
    var email := NormalizeEmail(emailCookie, dec);
    if email == "" {
      return 401, posts;
    }
    if idParam == "" {
      return 400, posts;
    }
    var found := FindIndex(posts, HasId(idParam));
    if found.None? {
      return 404, posts;
    }
    var k := found.value;
    if posts[k].authorEmail != email {
      return 403, posts;
    }
    posts' := RemoveAt(posts, k);
    status := 200;
  }

  // ---------------------------------------------------------------- messages

  function Involves(email: string, dec: Decoder): Message -> bool {
    (m: Message) => NormalizeEmail(m.from, dec) == email || NormalizeEmail(m.to, dec) == email
  }

  /** GET /api/messages: 401 without the `email` cookie, 404 when the caller is not a stored
      user, otherwise every message the caller sent or received, in stored order. */
  function ListMessages(emailCookie: string, users: seq<User>, msgs: seq<Message>, dec: Decoder)
    : (r: Reply<seq<Message>>)
    ensures var email := NormalizeEmail(emailCookie, dec);
      && (r.status == 401 <==> email == "")
      && (email != "" ==> (r.status == 404 <==> UserWithEmail(users, email, dec).None?))
      && (r.status == 200 <==> email != "" && UserWithEmail(users, email, dec).Some?)
      && r.status in {200, 401, 404}
      && (r.status != 200 ==> r.body == [])
      && (r.status == 200 ==>
            && (forall i :: 0 <= i < |r.body| ==> Involves(email, dec)(r.body[i]) && r.body[i] in msgs)
            && (forall i :: 0 <= i < |msgs| && Involves(email, dec)(msgs[i]) ==> msgs[i] in r.body)
            && Subsequence(r.body, msgs))
  {
    var email := NormalizeEmail(emailCookie, dec);
    if email == "" then Reply(401, [])
    else if UserWithEmail(users, email, dec).None? then Reply(404, [])
    else
      FilterSubsequence(msgs, Involves(email, dec));
      Reply(200, Filter(msgs, Involves(email, dec)))
  }

  /** POST /api/messages. 401 without the `email` cookie; 400 when `toEmail` or `content` is
      empty (tested before normalising); 404 unless both the sender and the recipient are
      stored users; otherwise the message, addressed with their stored emails and unread, is
      prepended. */
  method SendMessage(emailCookie: string, toEmail: string, content: string, id: int, now: int,
                     users: seq<User>, msgs: seq<Message>, dec: Decoder)
    returns (status: int, msgs': seq<Message>)
    ensures var email := NormalizeEmail(emailCookie, dec);
      var fromUser := UserWithEmail(users, email, dec);
      var toUser := UserWithEmail(users, NormalizeEmail(toEmail, dec), dec);
      && (status == 401 <==> email == "")
      && (email != "" ==> (status == 400 <==> toEmail == "" || content == ""))
      && (email != "" && toEmail != "" && content != "" ==>
            (status == 404 <==> fromUser.None? || toUser.None?))
      && (status != 200 ==> msgs' == msgs)
      && (status == 200 <==>
            email != "" && toEmail != "" && content != "" && fromUser.Some? && toUser.Some?)
      && (status == 200 ==> msgs' == [Message(id, fromUser.value.email, toUser.value.email, content, false, now)] + msgs)
    ensures status in {200, 400, 401, 404}
  {
    var email := NormalizeEmail(emailCookie, dec);
    if email == "" {
      return 401, msgs;
    }
    if toEmail == "" || content == "" {
      return 400, msgs;
    }
    var fromUser := UserWithEmail(users, email, dec);
    var toUser := UserWithEmail(users, NormalizeEmail(toEmail, dec), dec);
    if fromUser.None? || toUser.None? {
      return 404, msgs;
    }
    msgs' := [Message(id, fromUser.value.email, toUser.value.email, content, false, now)] + msgs;
    status := 200;
  }

  // ---------------------------------------------------------------- comments

  /** `c.postId == postId` with JavaScript's loose equality against the route's string: a
      number is compared with `Number(postId)`, a string exactly, and `null` never matches. */
  predicate LooseEquals(ref: PostRef, postId: string) {
    match ref
    case Num(n) => ToNumber(postId) == Some(n)
    case Str(s) => s == postId
    case Null => false
  }

  function OnPost(postId: string): Comment -> bool {
    (c: Comment) => LooseEquals(c.postId, postId)
  }

  /** GET /api/comments/:postId: the loosely matching comments, in stored order. */
  function ListComments(postId: string, comments: seq<Comment>): (r: seq<Comment>)
    ensures forall i :: 0 <= i < |r| ==> LooseEquals(r[i].postId, postId) && r[i] in comments
    ensures forall i :: 0 <= i < |comments| && LooseEquals(comments[i].postId, postId) ==> comments[i] in r
    ensures Subsequence(r, comments)
  {
    FilterSubsequence(comments, OnPost(postId));
    Filter(comments, OnPost(postId))
  }

  /** A comment this server stored for the post with numeric id `n` is listed under the id as
      the client writes it. */
  lemma ListCommentsFindsCreated(n: int, c: Comment, comments: seq<Comment>)
    requires c in comments && c.postId == Num(n)
    ensures c in ListComments(IntToString(n), comments)
  {
    ToNumberToString(n);
    var i :| 0 <= i < |comments| && comments[i] == c;
  }

  /** POST /api/comments. 401 without the `email` cookie; 400 when `postId` or `content` is
      empty; 404 when the caller is not a stored user; otherwise the comment is prepended,
      with `parseInt(postId)` as its post (`null` when that is NaN) and the author's stored
      details. */
  method CreateComment(emailCookie: string, postId: string, content: string, id: int, now: int,
                       users: seq<User>, comments: seq<Comment>, dec: Decoder)
    returns (status: int, comments': seq<Comment>)
    ensures var email := NormalizeEmail(emailCookie, dec);
      var user := UserWithEmail(users, email, dec);
      var ref := match ParseInt(postId) case Some(n) => Num(n) case None => Null;
      && (status == 401 <==> email == "")
      && (email != "" ==> (status == 400 <==> postId == "" || content == ""))
      && (email != "" && postId != "" && content != "" ==> (status == 404 <==> user.None?))
      && (status != 200 ==> comments' == comments)
      && (status == 200 <==> email != "" && postId != "" && content != "" && user.Some?)
      && (status == 200 ==> comments' == [Comment(id, ref, user.value.id, content, user.value.nickname,
                                                  user.value.email, user.value.avatarPath, now)] + comments)
    ensures status in {200, 400, 401, 404}
  {
    var email := NormalizeEmail(emailCookie, dec);
    if email == "" {
      return 401, comments;
    }
    if postId == "" || content == "" {
      return 400, comments;
    }
    var user := UserWithEmail(users, email, dec);
    if user.None? {
      return 404, comments;
    }
    var ref := match ParseInt(postId) case Some(n) => Num(n) case None => Null;
    var u := user.value;
    comments' := [Comment(id, ref, u.id, content, u.nickname, u.email, u.avatarPath, now)] + comments;
    status := 200;
  }
}
