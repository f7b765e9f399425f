/**
 * The JSON-file routes of server.js. Each JSON file (posts, comments, messages, coupons,
 * users) is a sequence of records; a route that writes a file is a method that returns the
 * HTTP status and the new contents, a read-only route is a function returning a `Reply`.
 *
 * Conventions: a missing or empty string is ""; `String(x.id)` is the stored `id` string;
 * timestamps (`Date.now()`, ISO dates) are integers of milliseconds; the caller is the
 * value `getCurrentUser(req)` computed (`Identity.GetCurrentUser`); `dec` is
 * `decodeURIComponent`.
 */
module ServerJs {
  import opened Wrappers
  import opened JsString
  import opened JsNumber
  import opened JsArray
  import opened Identity

  /** A row of posts.json (the fields the routes read or write). */
  datatype Post = Post(
    id: string, title: string, desc: string, content: string, category: string,
    authorEmail: string, pinned: bool, pinnedAt: Option<int>, updatedAt: Option<int>)

  /** A row of comments.json. `userName`/`userAvatar` are legacy fields older rows may carry. */
  datatype Comment = Comment(
    id: string, postId: string, userEmail: string, userName: string, userAvatar: string,
    content: string, createdAt: int)

  /** A row of messages.json. Chat messages carry `text`; coupon notices carry `content`
      instead, so their `text` is undefined (`None`), and only they carry `isRead`. */
  datatype Message = Message(
    id: string, from: string, to: string, text: Option<string>, content: string,
    images: seq<string>, time: int, isRead: Option<bool>)

  /** A row of coupons.json. */
  datatype Coupon = Coupon(
    id: string, name: string, amount: int, email: string, createdAt: int, expiresAt: int)

  const ADMIN_FIXED_EMAIL := "admin@123.com"
  const FIXED_ADMIN_EMAIL := "hwlx@hwlx.com"
  const DAY_MS := 24 * 60 * 60 * 1000

  /** `isFixedAdmin`: the address normalises to one of the two hard-coded admin addresses. */
  predicate IsFixedAdmin(email: string, dec: Decoder) {
    NormalizeEmail(email, dec) == NormalizeEmail(ADMIN_FIXED_EMAIL, dec) ||
    NormalizeEmail(email, dec) == NormalizeEmail(FIXED_ADMIN_EMAIL, dec)
  }

  /** `isAdmin`: a fixed admin, or the first user with that normalised email has `isAdmin`. */
  function IsAdmin(email: string, users: seq<User>, dec: Decoder): (r: bool)
    ensures IsFixedAdmin(email, dec) ==> r
    ensures !IsFixedAdmin(email, dec) ==>
      (r <==> FindUserByEmail(users, email, dec).Some? && FindUserByEmail(users, email, dec).value.isAdmin)
  {
    if IsFixedAdmin(email, dec) then true
    else
      match FindUserByEmail(users, email, dec)
      case None => false
      case Some(u) => u.isAdmin
  }

  /** `findPostById`. */
  function FindPostById(posts: seq<Post>, id: string): (r: Option<Post>)
    ensures r.Some? ==> r.value in posts && r.value.id == id
    ensures r.None? ==> forall i :: 0 <= i < |posts| ==> posts[i].id != id
    ensures r.Some? ==> exists k :: 0 <= k < |posts| && posts[k] == r.value && forall j :: 0 <= j < k ==> posts[j].id != id
  {
    Find(posts, (p: Post) => p.id == id)
  }

  // ---------------------------------------------------------------- messages

  /** The message goes from `a` to `b` (addresses compared normalised). */
  predicate FromTo(m: Message, a: string, b: string, dec: Decoder) {
    NormalizeEmail(m.from, dec) == a && NormalizeEmail(m.to, dec) == b
  }

  predicate Between(m: Message, me: string, peer: string, dec: Decoder) {
    FromTo(m, me, peer, dec) || FromTo(m, peer, me, dec)
  }

  function ByTime(m: Message): Key {
    (m.time, 0)
  }

  /** GET /api/messages?peer=: 401 without a caller (checked before the peer), 400 without a
      peer, otherwise exactly the messages between the caller and the peer in either
      direction, oldest first (ties keep their stored order). */
  function GetMessages(caller: Caller, peerParam: string, msgs: seq<Message>, dec: Decoder)
    : (r: Reply<seq<Message>>)
    ensures r.status == 401 <==> caller.email == ""
    ensures caller.email != "" && NormalizeEmail(peerParam, dec) == "" ==> r.status == 400
    ensures r.status == 200 <==> caller.email != "" && NormalizeEmail(peerParam, dec) != ""
    ensures r.status in {200, 400, 401}
    ensures r.status != 200 ==> r.body == []
    ensures r.status == 200 ==>
      var peer := NormalizeEmail(peerParam, dec);
      && caller.email != "" && peer != ""
      && multiset(r.body) == multiset(Filter(msgs, (m: Message) => Between(m, caller.email, peer, dec)))
      && (forall i :: 0 <= i < |r.body| ==> Between(r.body[i], caller.email, peer, dec))
      && (forall i, j :: 0 <= i < j < |r.body| ==> r.body[i].time <= r.body[j].time)
  {
    var me := caller.email;
    var peer := NormalizeEmail(peerParam, dec);
    if me == "" then Reply(401, [])
    else if peer == "" then Reply(400, [])
    else Reply(200, Conversation(msgs, me, peer, dec))
  }

  /** The messages between `me` and `peer`, oldest first. */
  function Conversation(msgs: seq<Message>, me: string, peer: string, dec: Decoder): (r: seq<Message>)
    ensures multiset(r) == multiset(Filter(msgs, (m: Message) => Between(m, me, peer, dec)))
    ensures forall i :: 0 <= i < |r| ==> Between(r[i], me, peer, dec)
    ensures forall i, j :: 0 <= i < j < |r| ==> r[i].time <= r[j].time
  {
    var mine := Filter(msgs, (m: Message) => Between(m, me, peer, dec));
    var sorted := SortBy(mine, ByTime);
    forall i | 0 <= i < |sorted|
      ensures Between(sorted[i], me, peer, dec)
    {
      assert sorted[i] in multiset(mine);
    }
    forall i, j | 0 <= i < j < |sorted|
      ensures sorted[i].time <= sorted[j].time
    {
      assert KeyLe(ByTime(sorted[i]), ByTime(sorted[j]));
    }
    sorted
  }

  /** A message of the conversation is returned, and nothing else is. */
  lemma GetMessagesComplete(caller: Caller, peerParam: string, msgs: seq<Message>, dec: Decoder, i: nat)
    requires i < |msgs|
    requires GetMessages(caller, peerParam, msgs, dec).status == 200
    ensures msgs[i] in GetMessages(caller, peerParam, msgs, dec).body <==>
      Between(msgs[i], caller.email, NormalizeEmail(peerParam, dec), dec)
  {
    var r := GetMessages(caller, peerParam, msgs, dec);
    var f := Filter(msgs, (m: Message) => Between(m, caller.email, NormalizeEmail(peerParam, dec), dec));
    assert msgs[i] in r.body <==> msgs[i] in multiset(f);
  }

  /** POST /api/messages: 401 without a caller; 400 when the normalised recipient is empty,
      or the trimmed text is empty and no image was uploaded; otherwise exactly one message
      from the caller with the trimmed text is appended at the end. `id` and `now` stand for
      the generated id and the clock. */
  method PostMessage(caller: Caller, toEmailParam: string, textRaw: string, images: seq<string>,
                     id: string, now: int, msgs: seq<Message>, dec: Decoder)
    returns (status: int, msgs': seq<Message>)
    ensures status == 401 <==> caller.email == ""
    ensures caller.email != "" ==>
      (status == 400 <==> NormalizeEmail(toEmailParam, dec) == "" || (Trim(textRaw) == "" && images == []))
    ensures status == 200 <==>
      caller.email != "" && NormalizeEmail(toEmailParam, dec) != "" && !(Trim(textRaw) == "" && images == [])
    ensures status != 200 ==> msgs' == msgs
    ensures status == 200 ==>
      && |msgs'| == |msgs| + 1 && msgs'[..|msgs|] == msgs
      && msgs'[|msgs|] == Message(id, caller.email, NormalizeEmail(toEmailParam, dec), Some(Trim(textRaw)), "", images, now, None)
    ensures status in {200, 400, 401}
  {
    var me := caller.email;
    if me == "" {
      return 401, msgs;
    }
    var toEmail := NormalizeEmail(toEmailParam, dec);
    var text := Trim(textRaw);
    if toEmail == "" || (text == "" && |images| == 0) {
      return 400, msgs;
    }
    msgs' := msgs + [Message(id, me, toEmail, Some(text), "", images, now, None)];
    status := 200;
  }

  // ---------------------------------------------------------------- comments

  /** A comment as the listing returns it, with the author details resolved. */
  datatype CommentView = CommentView(comment: Comment, name: string, avatar: string, email: string)

  /** The `.map` step of the comment listing: the author's profile from the user table
      (`{}` when absent), falling back to the comment's own legacy fields. */
  function Enrich(c: Comment, users: seq<User>, dec: Decoder): (v: CommentView)
    ensures v.comment == c && v.name != ""
    ensures FindUserByEmail(users, c.userEmail, dec).None? ==>
      v.name == Or(c.userName, "用户") && v.avatar == c.userAvatar && v.email == c.userEmail
    ensures FindUserByEmail(users, c.userEmail, dec).Some? ==>
      var u := FindUserByEmail(users, c.userEmail, dec).value;
      && (u.nickname != "" ==> v.name == u.nickname)
      && (u.nickname == "" && u.username != "" ==> v.name == u.username)
      && (u.nickname == "" && u.username == "" && u.email != "" ==> v.name == u.email)
      && (u.nickname == "" && u.username == "" && u.email == "" ==> v.name == Or(c.userName, "用户"))
      && (u.avatarPath != "" ==> v.avatar == u.avatarPath)
      && (u.avatarPath == "" ==> v.avatar == c.userAvatar)
      && (u.email != "" ==> v.email == u.email)
      && (u.email == "" ==> v.email == c.userEmail)
  {
    match FindUserByEmail(users, c.userEmail, dec)
    case None => CommentView(c, Or(c.userName, "用户"), c.userAvatar, c.userEmail)
    case Some(u) =>
      CommentView(c, Or(u.nickname, Or(u.username, Or(u.email, Or(c.userName, "用户")))),
        Or(u.avatarPath, c.userAvatar), Or(u.email, c.userEmail))
  }

  /** `c => String(c.postId) === postId`. */
  function OnPost(postId: string): Comment -> bool {
    (c: Comment) => c.postId == postId
  }

  function NewestFirst(c: Comment): Key {
    (-c.createdAt, 0)
  }

  function EnrichAll(cs: seq<Comment>, users: seq<User>, dec: Decoder): (r: seq<CommentView>)
    ensures |r| == |cs| && forall i :: 0 <= i < |cs| ==> r[i] == Enrich(cs[i], users, dec)
  {
    if cs == [] then [] else [Enrich(cs[0], users, dec)] + EnrichAll(cs[1..], users, dec)
  }

  /** The body of GET /api/posts/:id/comments. */
  datatype CommentPage = CommentPage(items: seq<CommentView>, total: int)

  /** GET /api/posts/:id/comments?offset=&limit=: `parseInt(..) || d` turns a missing,
      non-numeric or zero offset into 0 and limit into 10, then the page is cut. */
  function ListPostComments(postId: string, offsetQ: Option<string>, limitQ: Option<string>,
                            comments: seq<Comment>, users: seq<User>, dec: Decoder): CommentPage
  {
    CommentsPage(postId, ParseIntOr(offsetQ, 0), ParseIntOr(limitQ, 10), comments, users, dec)
  }

  /** A page of the comments of a post: newest first, `slice(offset, offset + limit)` of them
      with authors resolved, and `total`, the number of matching comments before slicing. */
  function CommentsPage(postId: string, offset: int, limit: int,
                        comments: seq<Comment>, users: seq<User>, dec: Decoder): (r: CommentPage)
    ensures r.total == |Filter(comments, OnPost(postId))|
  {
    var all := Filter(comments, OnPost(postId));
    var sorted := SortBy(all, NewestFirst);
    CommentPage(EnrichAll(Slice(sorted, offset, offset + limit), users, dec), |all|)
  }

  /** The page holds only comments of the post, newest first. */
  lemma CommentsPageOrder(postId: string, offset: int, limit: int,
                          comments: seq<Comment>, users: seq<User>, dec: Decoder)
    ensures PageOf(CommentsPage(postId, offset, limit, comments, users, dec).items, postId, comments)
  {
    var sorted := SortBy(Filter(comments, OnPost(postId)), NewestFirst);
    SortedOfPost(postId, comments);
    var page := Slice(sorted, offset, offset + limit);
    SliceOfSorted(sorted, offset, limit, postId, comments);
    EnrichPage(page, postId, comments, users, dec);
  }

  /** Every comment is one of the post's comments from the store, newest first. */
  predicate NewestOfPost(cs: seq<Comment>, postId: string, comments: seq<Comment>) {
    && (forall i :: 0 <= i < |cs| ==> cs[i].postId == postId && cs[i] in comments)
    && (forall i, j :: 0 <= i < j < |cs| ==> cs[i].createdAt >= cs[j].createdAt)
  }

  /** Every listed comment belongs to the post and comes from the store, newest first. */
  predicate PageOf(items: seq<CommentView>, postId: string, comments: seq<Comment>) {
    && (forall i :: 0 <= i < |items| ==> items[i].comment.postId == postId && items[i].comment in comments)
    && (forall i, j :: 0 <= i < j < |items| ==> items[i].comment.createdAt >= items[j].comment.createdAt)
  }

  lemma SortedOfPost(postId: string, comments: seq<Comment>)
    ensures NewestOfPost(SortBy(Filter(comments, OnPost(postId)), NewestFirst), postId, comments)
  {
    var all := Filter(comments, OnPost(postId));
    var sorted := SortBy(all, NewestFirst);
    forall i | 0 <= i < |sorted|
      ensures sorted[i].postId == postId && sorted[i] in comments
    {
      assert sorted[i] in multiset(all);
      assert OnPost(postId)(sorted[i]);
    }
    forall i, j | 0 <= i < j < |sorted|
      ensures sorted[i].createdAt >= sorted[j].createdAt
    {
      assert KeyLe(NewestFirst(sorted[i]), NewestFirst(sorted[j]));
    }
  }

  lemma SliceOfSorted(sorted: seq<Comment>, offset: int, limit: int, postId: string, comments: seq<Comment>)
    requires NewestOfPost(sorted, postId, comments)
    ensures NewestOfPost(Slice(sorted, offset, offset + limit), postId, comments)
  {
    var a := SliceIndex(offset, |sorted|);
    SliceElements(sorted, offset, offset + limit);
  }

  lemma EnrichPage(cs: seq<Comment>, postId: string, comments: seq<Comment>, users: seq<User>, dec: Decoder)
    requires NewestOfPost(cs, postId, comments)
    ensures PageOf(EnrichAll(cs, users, dec), postId, comments)
  {
    var items := EnrichAll(cs, users, dec);
    assert forall i :: 0 <= i < |items| ==> items[i].comment == cs[i];
  }

  /** For a non-negative offset and limit the page holds at most `limit` comments, and
      exactly the sorted matches `[offset, offset + limit)` when that range lies inside them. */
  lemma CommentsPageWindow(postId: string, offset: int, limit: int,
                           comments: seq<Comment>, users: seq<User>, dec: Decoder)
    requires 0 <= offset && 0 <= limit
    ensures var r := CommentsPage(postId, offset, limit, comments, users, dec);
      |r.items| <= limit
    ensures var r := CommentsPage(postId, offset, limit, comments, users, dec);
      var sorted := SortBy(Filter(comments, OnPost(postId)), NewestFirst);
      offset + limit <= r.total ==> r.items == EnrichAll(sorted[offset..offset + limit], users, dec)
  {
    var sorted := SortBy(Filter(comments, OnPost(postId)), NewestFirst);
    SlicePage(sorted, offset, limit);
  }

  /** Offsets and limits that are absent, not numeric or 0 fall back to 0 and 10. */
  lemma ListPostCommentsDefaults(postId: string, comments: seq<Comment>, users: seq<User>, dec: Decoder,
                                 offsetQ: Option<string>, limitQ: Option<string>)
    requires offsetQ.None? || ParseInt(offsetQ.value).None? || ParseInt(offsetQ.value) == Some(0)
    requires limitQ.None? || ParseInt(limitQ.value).None? || ParseInt(limitQ.value) == Some(0)
    ensures ListPostComments(postId, offsetQ, limitQ, comments, users, dec) ==
      CommentsPage(postId, 0, 10, comments, users, dec)
  {
  }

  /** Numeric, non-zero offsets and limits are used as given (negative ones included, which
      `slice` counts from the end). */
  lemma ListPostCommentsGiven(postId: string, comments: seq<Comment>, users: seq<User>, dec: Decoder,
                              offsetQ: string, limitQ: string, offset: int, limit: int)
    requires ParseInt(offsetQ) == Some(offset) && offset != 0
    requires ParseInt(limitQ) == Some(limit) && limit != 0
    ensures ListPostComments(postId, Some(offsetQ), Some(limitQ), comments, users, dec) ==
      CommentsPage(postId, offset, limit, comments, users, dec)
  {
  }

  /** POST /api/posts/:id/comments: 401 without a caller, 404 when no post has the id, 400
      when the trimmed content is empty; otherwise the new comment by the caller is put
      first. */
  method CreateComment(caller: Caller, postId: string, contentRaw: string, id: string, now: int,
                       posts: seq<Post>, comments: seq<Comment>)
    returns (status: int, comments': seq<Comment>)
    ensures status == 401 <==> caller.email == ""
    ensures caller.email != "" && FindPostById(posts, postId).None? ==> status == 404
    ensures caller.email != "" && FindPostById(posts, postId).Some? ==>
      (status == 400 <==> Trim(contentRaw) == "")
    ensures status == 200 <==> caller.email != "" && FindPostById(posts, postId).Some? && Trim(contentRaw) != ""
    ensures status != 200 ==> comments' == comments
    ensures status == 200 ==>
      comments' == [Comment(id, postId, caller.email, "", "", Trim(contentRaw), now)] + comments
    ensures status in {200, 400, 401, 404}
  {
    var me := caller.email;
    if me == "" {
      return 401, comments;
    }
    if FindPostById(posts, postId).None? {
      return 404, comments;
    }
    var content := Trim(contentRaw);
    if content == "" {
      return 400, comments;
    }
    comments' := [Comment(id, postId, me, "", "", content, now)] + comments;
    status := 200;
  }

  /** DELETE /api/posts/:id/comments/:cid: 401 without a caller; 404 when the post or the
      comment (matched on both ids) is missing; 403 unless the caller wrote the comment or the
      post; otherwise exactly that comment is removed. */
  method DeletePostComment(caller: Caller, postId: string, cid: string,
                           posts: seq<Post>, comments: seq<Comment>, dec: Decoder)
    returns (status: int, comments': seq<Comment>)
    ensures status == 401 <==> caller.email == ""
    ensures caller.email != "" && FindPostById(posts, postId).None? ==> status == 404
    ensures status != 200 ==> comments' == comments
    ensures status == 200 ==>
      && caller.email != "" && FindPostById(posts, postId).Some?
      && FindIndex(comments, (c: Comment) => c.id == cid && c.postId == postId).Some?
      && var k := FindIndex(comments, (c: Comment) => c.id == cid && c.postId == postId).value;
      && (NormalizeEmail(comments[k].userEmail, dec) == caller.email ||
          NormalizeEmail(FindPostById(posts, postId).value.authorEmail, dec) == caller.email)
      && comments' == RemoveAt(comments, k)
    ensures status == 404 <==>
      caller.email != "" &&
      (FindPostById(posts, postId).None? ||
       FindIndex(comments, (c: Comment) => c.id == cid && c.postId == postId).None?)
    ensures status == 200 <==>
      && caller.email != "" && FindPostById(posts, postId).Some?
      && FindIndex(comments, (c: Comment) => c.id == cid && c.postId == postId).Some?
      && var k := FindIndex(comments, (c: Comment) => c.id == cid && c.postId == postId).value;
      && (NormalizeEmail(comments[k].userEmail, dec) == caller.email ||
          NormalizeEmail(FindPostById(posts, postId).value.authorEmail, dec) == caller.email)
    ensures status in {200, 401, 403, 404}
  {
    var me := caller.email;
    if me == "" {
      return 401, comments;
    }
    var post := FindPostById(posts, postId);
    if post.None? {
      return 404, comments;
    }
    var idx := FindIndex(comments, (c: Comment) => c.id == cid && c.postId == postId);
    if idx.None? {
      return 404, comments;
    }
    var c := comments[idx.value];
    var isCommentOwner := NormalizeEmail(c.userEmail, dec) == me;
    var isPostAuthor := NormalizeEmail(post.value.authorEmail, dec) == me;
    if !isCommentOwner && !isPostAuthor {
      return 403, comments;
    }
    comments' := RemoveAt(comments, idx.value);
    status := 200;
  }

  /** DELETE /api/comments/:id: 401 without a caller; 404 when no comment has the id; 403
      unless the caller wrote the comment, wrote its post (when the post still exists) or is
      an admin; otherwise exactly that comment is removed. */
  method DeleteComment(caller: Caller, cid: string, posts: seq<Post>, comments: seq<Comment>,
                       users: seq<User>, dec: Decoder)
    returns (status: int, comments': seq<Comment>)
    ensures status == 401 <==> caller.email == ""
    ensures status != 200 ==> comments' == comments
    ensures caller.email != "" && FindIndex(comments, (c: Comment) => c.id == cid).None? ==> status == 404
    ensures status == 200 ==>
      && caller.email != ""
      && FindIndex(comments, (c: Comment) => c.id == cid).Some?
      && var k := FindIndex(comments, (c: Comment) => c.id == cid).value;
      && var post := FindPostById(posts, comments[k].postId);
      && (NormalizeEmail(comments[k].userEmail, dec) == caller.email ||
          (post.Some? && NormalizeEmail(post.value.authorEmail, dec) == caller.email) ||
          IsAdmin(caller.email, users, dec))
      && comments' == RemoveAt(comments, k)
    ensures status == 200 <==>
      && caller.email != ""
      && FindIndex(comments, (c: Comment) => c.id == cid).Some?
      && var k := FindIndex(comments, (c: Comment) => c.id == cid).value;
      && var post := FindPostById(posts, comments[k].postId);
      && (NormalizeEmail(comments[k].userEmail, dec) == caller.email ||
          (post.Some? && NormalizeEmail(post.value.authorEmail, dec) == caller.email) ||
          IsAdmin(caller.email, users, dec))
    ensures status == 404 <==> caller.email != "" && FindIndex(comments, (c: Comment) => c.id == cid).None?
    ensures status in {200, 401, 403, 404}
  {
    var me := caller.email;
    if me == "" {
      return 401, comments;
    }
    var idx := FindIndex(comments, (c: Comment) => c.id == cid);
    if idx.None? {
      return 404, comments;
    }
    var c := comments[idx.value];
    var post := FindPostById(posts, c.postId);
    var isCommentOwner := NormalizeEmail(c.userEmail, dec) == me;
    var isPostAuthor := post.Some? && NormalizeEmail(post.value.authorEmail, dec) == me;
    var isAdminUser := IsAdmin(me, users, dec);
    if !isCommentOwner && !isPostAuthor && !isAdminUser {
      return 403, comments;
    }
    comments' := RemoveAt(comments, idx.value);
    status := 200;
  }

  // ---------------------------------------------------------------- posts

  /** PATCH /api/posts/:id (pin): 401 without a caller; 403 unless the caller is flagged admin
      by the cookie or by `isAdmin`; 404 when no post has the id; otherwise the post's
      `pinned` becomes the request's truth value, `pinnedAt` is the given time (or now) when
      pinning and is removed when unpinning. No other post changes. */
  method PinPost(caller: Caller, id: string, pinned: bool, pinnedAtQ: Option<int>, now: int,
                 posts: seq<Post>, users: seq<User>, dec: Decoder)
    returns (status: int, posts': seq<Post>)
    ensures status == 401 <==> caller.email == ""
    ensures status == 403 <==> caller.email != "" && !caller.isAdmin && !IsAdmin(caller.email, users, dec)
    ensures status == 200 <==>
      && caller.email != "" && (caller.isAdmin || IsAdmin(caller.email, users, dec))
      && FindIndex(posts, (p: Post) => p.id == id).Some?
    ensures status != 200 ==> posts' == posts
    ensures status == 200 ==>
      && (caller.isAdmin || IsAdmin(caller.email, users, dec))
      && FindIndex(posts, (p: Post) => p.id == id).Some?
      && var k := FindIndex(posts, (p: Post) => p.id == id).value;
      && posts' == posts[k := posts[k].(pinned := pinned, pinnedAt := if pinned then Some(pinnedAtQ.GetOr(now)) else None)]
    ensures caller.email != "" && (caller.isAdmin || IsAdmin(caller.email, users, dec)) ==>
      (status == 404 <==> FindIndex(posts, (p: Post) => p.id == id).None?)
    ensures status in {200, 401, 403, 404}
  {
    var me := caller.email;
    if me == "" {
      return 401, posts;
    }
    if !caller.isAdmin && !IsAdmin(me, users, dec) {
      return 403, posts;
    }
    var idx := FindIndex(posts, (p: Post) => p.id == id);
    if idx.None? {
      return 404, posts;
    }
    var post := posts[idx.value];
    post := post.(pinned := pinned);
    if pinned {
      post := post.(pinnedAt := Some(pinnedAtQ.GetOr(now)));
    } else {
      post := post.(pinnedAt := None);
    }
    posts' := posts[idx.value := post];
    status := 200;
  }

  /** PUT /api/posts/:id: 401 without a caller; 404 when no post has the id; 403 unless the
      caller wrote the post or is an admin (by cookie or by `isAdmin`); otherwise each of
      title, desc, content and category that the request gives as a string replaces the
      stored one and `updatedAt` becomes now. No other post changes. */
  method UpdatePost(caller: Caller, id: string, title: Option<string>, desc: Option<string>,
                    content: Option<string>, category: Option<string>, now: int,
                    posts: seq<Post>, users: seq<User>, dec: Decoder)
    returns (status: int, posts': seq<Post>)
    ensures status == 401 <==> caller.email == ""
    ensures caller.email != "" ==> (status == 404 <==> FindIndex(posts, (p: Post) => p.id == id).None?)
    ensures status == 200 <==>
      && caller.email != ""
      && FindIndex(posts, (p: Post) => p.id == id).Some?
      && var k := FindIndex(posts, (p: Post) => p.id == id).value;
      && (NormalizeEmail(posts[k].authorEmail, dec) == NormalizeEmail(caller.email, dec) ||
          caller.isAdmin || IsAdmin(caller.email, users, dec))
    ensures status != 200 ==> posts' == posts
    ensures status == 200 ==>
      && FindIndex(posts, (p: Post) => p.id == id).Some?
      && var k := FindIndex(posts, (p: Post) => p.id == id).value;
      && var old_ := posts[k];
      && (NormalizeEmail(old_.authorEmail, dec) == NormalizeEmail(caller.email, dec) ||
          caller.isAdmin || IsAdmin(caller.email, users, dec))
      && posts' == posts[k := old_.(title := title.GetOr(old_.title), desc := desc.GetOr(old_.desc),
                                   content := content.GetOr(old_.content),
                                   category := category.GetOr(old_.category), updatedAt := Some(now))]
    ensures status in {200, 401, 403, 404}
  {
    var me := caller.email;
    if me == "" {
      return 401, posts;
    }
    var idx := FindIndex(posts, (p: Post) => p.id == id);
    if idx.None? {
      return 404, posts;
    }
    var post := posts[idx.value];
    var isPostAuthor := NormalizeEmail(post.authorEmail, dec) == NormalizeEmail(me, dec);
    if !isPostAuthor && !caller.isAdmin && !IsAdmin(me, users, dec) {
      return 403, posts;
    }
    if title.Some? { post := post.(title := title.value); }
    if desc.Some? { post := post.(desc := desc.value); }
    if content.Some? { post := post.(content := content.value); }
    if category.Some? { post := post.(category := category.value); }
    post := post.(updatedAt := Some(now));
    posts' := posts[idx.value := post];
    status := 200;
  }

  /** DELETE /api/posts/:id: 401 without a caller; 404 when no post has the id; 403 unless the
      caller wrote the post or is an admin; otherwise exactly that post is removed, together
      with every comment on it, and the other comments keep their order. */
  method DeletePost(caller: Caller, id: string, posts: seq<Post>, comments: seq<Comment>,
                    users: seq<User>, dec: Decoder)
    returns (status: int, posts': seq<Post>, comments': seq<Comment>)
    ensures status == 401 <==> caller.email == ""
    ensures caller.email != "" ==> (status == 404 <==> FindIndex(posts, (p: Post) => p.id == id).None?)
    ensures status == 200 <==>
      && caller.email != ""
      && FindIndex(posts, (p: Post) => p.id == id).Some?
      && var k := FindIndex(posts, (p: Post) => p.id == id).value;
      && (NormalizeEmail(posts[k].authorEmail, dec) == caller.email ||
          caller.isAdmin || IsAdmin(caller.email, users, dec))
    ensures status != 200 ==> posts' == posts && comments' == comments
    ensures status == 200 ==>
      && FindIndex(posts, (p: Post) => p.id == id).Some?
      && var k := FindIndex(posts, (p: Post) => p.id == id).value;
      && (NormalizeEmail(posts[k].authorEmail, dec) == caller.email ||
          caller.isAdmin || IsAdmin(caller.email, users, dec))
      && posts' == RemoveAt(posts, k)
      && comments' == Filter(comments, (c: Comment) => c.postId != id)
    ensures status == 200 ==> forall i :: 0 <= i < |comments'| ==> comments'[i].postId != id
    ensures status == 200 ==> forall i :: 0 <= i < |comments| && comments[i].postId != id ==> comments[i] in comments'
    ensures status in {200, 401, 403, 404}
  {
    var me := caller.email;
    if me == "" {
      return 401, posts, comments;
    }
    var idx := FindIndex(posts, (p: Post) => p.id == id);
    if idx.None? {
      return 404, posts, comments;
    }
    var post := posts[idx.value];
    var isPostAuthor := NormalizeEmail(post.authorEmail, dec) == me;
    if !isPostAuthor && !caller.isAdmin && !IsAdmin(me, users, dec) {
      return 403, posts, comments;
    }
    posts' := RemoveAt(posts, idx.value);
    comments' := Filter(comments, (c: Comment) => c.postId != id);
    status := 200;
  }

  // ---------------------------------------------------------------- coupons

  /** POST /api/coupons: 401 unless the caller is an admin; 400 when the name is empty or the
      amount or the number of days is not positive; otherwise the coupon is put first,
      expiring `days` whole days after its creation, and, when the target email is not blank,
      a notice from the fixed admin to the normalised target is put first in the messages.
      `amount` and `days` are `Number(..)` of the request fields (defaults 0 and 30),
      `noticeText` the notice text (it embeds a locale-formatted date). */
  method CreateCoupon(caller: Caller, name: string, amount: int, days: int, email: string,
                      now: int, noticeText: string, noticeTime: int,
                      coupons: seq<Coupon>, msgs: seq<Message>, users: seq<User>, dec: Decoder)
    returns (status: int, coupons': seq<Coupon>, msgs': seq<Message>)
    ensures status == 401 <==> caller.email == "" || !IsAdmin(caller.email, users, dec)
    ensures caller.email != "" && IsAdmin(caller.email, users, dec) ==>
      (status == 400 <==> name == "" || amount <= 0 || days <= 0)
    ensures status == 200 <==>
      caller.email != "" && IsAdmin(caller.email, users, dec) && name != "" && amount > 0 && days > 0
    ensures status != 200 ==> coupons' == coupons && msgs' == msgs
    ensures status == 200 ==>
      && coupons' == [Coupon(IntToString(now), name, amount, email, now, now + days * DAY_MS)] + coupons
      && coupons'[0].expiresAt > coupons'[0].createdAt
      && (AllSpace(email) ==> msgs' == msgs)
      && (!AllSpace(email) ==> msgs' == [Message(IntToString(now + 1), FIXED_ADMIN_EMAIL,
            NormalizeEmail(email, dec), None, noticeText, [], noticeTime, Some(false))] + msgs)
    ensures status in {200, 400, 401}
  {
    var me := caller.email;
    if me == "" || !IsAdmin(me, users, dec) {
      return 401, coupons, msgs;
    }
    if name == "" || amount <= 0 || days <= 0 {
      return 400, coupons, msgs;
    }
    assert days * DAY_MS > 0 by {
      PositiveProduct(days, DAY_MS);
    }
    var item := Coupon(IntToString(now), name, amount, email, now, now + days * DAY_MS);
    coupons' := [item] + coupons;
    msgs' := msgs;
    if email != "" && Trim(email) != "" {
      var notice := Message(IntToString(now + 1), FIXED_ADMIN_EMAIL, NormalizeEmail(email, dec),
                            None, noticeText, [], noticeTime, Some(false));
      msgs' := [notice] + msgs;
    }
    status := 200;
  }

  lemma PositiveProduct(a: int, b: int)
    requires a > 0 && b > 0
    ensures a * b > 0
  {
  }

  /** A coupon is usable before its expiry instant. */
  predicate CouponActive(c: Coupon, now: int) {
    now < c.expiresAt
  }

  /** DELETE /api/coupons/:id: 401 unless the caller is an admin; 404 when no coupon has the
      id; otherwise exactly that coupon is removed. */
  method DeleteCoupon(caller: Caller, id: string, coupons: seq<Coupon>, users: seq<User>, dec: Decoder)
    returns (status: int, coupons': seq<Coupon>)
    ensures status == 401 <==> caller.email == "" || !IsAdmin(caller.email, users, dec)
    ensures status == 200 <==>
      caller.email != "" && IsAdmin(caller.email, users, dec) && FindIndex(coupons, (c: Coupon) => c.id == id).Some?
    ensures status != 200 ==> coupons' == coupons
    ensures status == 200 ==>
      && FindIndex(coupons, (c: Coupon) => c.id == id).Some?
      && coupons' == RemoveAt(coupons, FindIndex(coupons, (c: Coupon) => c.id == id).value)
    ensures caller.email != "" && IsAdmin(caller.email, users, dec) ==>
      (status == 404 <==> FindIndex(coupons, (c: Coupon) => c.id == id).None?)
    ensures status in {200, 401, 404}
  {
    var me := caller.email;
    if me == "" || !IsAdmin(me, users, dec) {
      return 401, coupons;
    }
    var idx := FindIndex(coupons, (c: Coupon) => c.id == id);
    if idx.None? {
      return 404, coupons;
    }
    coupons' := RemoveAt(coupons, idx.value);
    status := 200;
  }
}
