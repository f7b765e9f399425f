# hwlx-app: a Dafny model of the community site's core

hwlx-app is a community site for students abroad. Users register, publish posts in
categories, comment on them, send each other private messages, and redeem coupons
handed out by administrators. This project models the core of that site and proves
properties of the model:

- **The two JSON-file servers** (`server.js`, `server-fallback.js`). Modelled parts:
  - e-mail normalisation and the caller's identity, which comes from cookies;
  - registration, the fallback server's login, posts, comments (paged and enriched
    with their authors), messages and message threads, pinning, coupons;
  - every route's error statuses, in the order the route tests them.

  The stored JSON files become sequences of records that each route returns updated.
- **The deployed server** (`server-optimized.js`). Modelled parts:
  - the cookie identity and login with fixed admins;
  - the in-memory visit-statistics cache with its queue and flush timer, as a class;
  - the page arithmetic of the post listing.
- **The verification-code record** (`models/VerificationCode.js`). It is a class with
  `isValid`, `verify`, `createCode` and `findValidCode`.
- **The browser components**:
  - the post list component, as a class whose handlers load, filter, search and sort
    its list, with the start and the end of a "load more" as separate steps;
  - `esc` and `toAbs`;
  - the i18n tables and manager;
  - the unread-message badge;
  - the mobile navigation, touch and breakpoint helpers.
- **The operational scripts and middleware**: the health monitor, the performance
  middleware and the logger.
- **The three page-patching scripts**:
  - `optimize-all-pages.js` inserts mobile markup into HTML pages;
  - `scripts/add-i18n-to-pages.js` tags pages for translation;
  - `scripts/generate-optimized-pages.js` fills a template.

  These scripts are modelled on page contents as strings. The model proves which
  guard texts make each step idempotent and that a guard, once in a page, is never
  lost.

Shared modules model the JavaScript primitives the core relies on:

- `JsString`: `trim`, `toLowerCase`, `indexOf`, `includes`, `replace`, `split`, `join`;
- `JsNumber`: `String(n)`, `parseInt`, `Number`, `padStart`, `Math.ceil`;
- `JsArray`: `filter`, `find`, `splice`, `slice`, stable `sort`;
- `JsRegex`: the handful of regular expressions the scripts use, with JavaScript's
  white-space set;
- `Wrappers`: `Option`.

Some things are inputs to the model rather than computed by it:

- the clock (milliseconds);
- `Math.random()` (the integer it leads to);
- `decodeURIComponent`, as a function that may throw;
- the outcomes of `fetch`, of file-system calls and of `localStorage`.

## Model

| member | source | states |
|---|---|---|
| Identity.NormalizeEmail | server.js:64-69 | A missing value gives ""; otherwise the value is trimmed, URI-decoded when decoding succeeds, and lower-cased. |
| Identity.NormalizePlain | server.js:64-69 | For a value without escapes, normalising is trimming and lower-casing, and gives "" exactly for an all-white-space value. |
| Identity.GetCurrentUser | server.js:85-100 | A non-empty normalised `email` cookie wins and is never flagged admin. Otherwise a non-empty `admin_email` cookie gives an admin. Otherwise there is no caller. |
| Identity.FindUserByEmail | server.js:505-509 | Returns the first user whose normalised email equals the normalised query, or none when no user matches. |
| Identity.DefaultNickname | server.js:203-225 | A new account's nickname is the given one, or else the part of the email before '@'. |
| Identity.Register | server.js:203-225 | 400 for an empty normalised email or an empty password; 409 when the normalised email is taken; otherwise exactly one new user is appended. Registering keeps the normalised emails of the table unique. |
| ServerJs.IsAdmin | server.js:76-82 | True exactly for a fixed admin address, or when the first user with that normalised email is flagged admin. |
| ServerJs.FindPostById | server.js:501-504 | Returns the first post with that id: it is in the table, has the id, and no earlier post has it. Returns none exactly when no post has the id. |
| JsString.Or | server.js:523-533 | JavaScript's `a \|\| b` on strings: the result is one of the two, it is `a` whenever `a` is not empty, and it is empty only when both are. |
| ServerJs.GetMessages | server.js:826-838 | 401 exactly without a caller, checked before the peer; 400 without a peer; 200 exactly when both are given. On success the body is exactly the conversation between caller and peer, oldest first; otherwise it is empty. |
| ServerJs.Conversation | server.js:826-838 | The messages between two users, in both directions, sorted oldest first. |
| ServerJs.GetMessagesComplete | server.js:826-838 | Every message of the conversation is returned, and nothing else is. |
| ServerJs.PostMessage | server.js:842-876 | 401 exactly without a caller. 400 exactly for an empty normalised recipient, or for blank text without an image. 200 exactly in every other case, and then exactly one message from the caller to the normalised recipient, with the trimmed text, is appended; otherwise the messages are unchanged. |
| ServerJs.Enrich | server.js:523-533 | For a stored author: the name is the first non-empty of nickname, username and email, else the comment's name or '用户'; the avatar and email are the user's when non-empty, else the comment's. Without a stored author: the comment's name (or '用户'), avatar and email. The name is never empty. |
| ServerJs.CommentsPage | server.js:512-536 | A page of a post's comments: newest first, the offset/limit window, authors resolved, and a total that counts every matching comment. |
| ServerJs.CommentsPageOrder | server.js:517-522 | The page holds only that post's comments, newest first. |
| ServerJs.CommentsPageWindow | server.js:520-522 | For a non-negative offset and limit, the page has at most `limit` comments, and is exactly the sorted window when the window fits. |
| ServerJs.ListPostCommentsDefaults | server.js:514-515 | In `ListPostComments`, an offset or limit that is missing, not numeric or 0 falls back to 0 or 10. |
| ServerJs.ListPostCommentsGiven | server.js:514-515 | A numeric, non-zero offset and limit are used as given, negative values included. |
| ServerJs.CreateComment | server.js:540-575 | 401 exactly without a caller, then 404 exactly for an unknown post, then 400 exactly for blank content; 200 exactly otherwise. On success exactly one comment by the caller, with the trimmed content, is put in front; otherwise nothing changes. |
| ServerJs.DeletePostComment | server.js:580-604 | 401 exactly without a caller; 404 exactly when the post is missing or no comment matches both ids; 200 exactly when the caller wrote the comment or the post (no admin override in this route), and 403 in the remaining case. On success exactly that comment is removed; otherwise nothing changes. |
| ServerJs.DeleteComment | server.js:796-819 | 401 exactly without a caller; 404 exactly for an unknown comment; 200 exactly when the caller wrote the comment, wrote its post (when the post still exists) or is admin, and 403 in the remaining case. On success exactly that comment is removed; otherwise nothing changes. |
| ServerJs.PinPost | server.js:610-636 | 401 exactly without a caller; 403 exactly for a non-admin, where the admin flag may come from the cookie or from `isAdmin`; 404 exactly for an admin and an unknown id; 200 exactly for an admin and a known id. On success only that post changes: its pin flag, with `pinnedAt` set from the request or the clock when pinning and cleared when unpinning. |
| ServerJs.UpdatePost | server.js:640-668 | 401 exactly without a caller, then 404 exactly for an unknown id; 200 exactly when the caller wrote the post or is admin by cookie or `isAdmin`, and 403 in the remaining case. On success only that post changes: each given field is replaced, each absent one kept, and `updatedAt` set. |
| ServerJs.DeletePost | server.js:672-700 | 401 exactly without a caller, then 404 exactly for an unknown id; 200 exactly when the caller wrote the post or is admin, and 403 in the remaining case. On success exactly that post is removed, no comment of it remains, and every comment of another post is kept in order. |
| ServerJs.CreateCoupon | server.js:719-756 | 401 exactly for a caller who is not an admin; 400 exactly for an admin with an empty name or a non-positive amount or day count; 200 exactly otherwise. On success the coupon is put first, expiring the given number of days after its creation, and one notification goes to its email exactly when that email is not blank. |
| ServerJs.DeleteCoupon | server.js:759-769 | 401 exactly unless admin; 404 exactly for an admin and an unknown id; 200 exactly for an admin and a known id, and then exactly that coupon is removed. |
| ServerThreads.Summaries | server.js:881-897 | Each of the caller's messages as the thread entry it would make, in scan order. |
| ServerThreads.Best | server.js:881-897 | Reference definition: the index of the latest message with a peer (the first of equal timestamps), or none. |
| ServerThreads.AggregateSummarises | server.js:881-897 | The route's scan yields exactly one entry per peer, and that entry is the reference choice. |
| ServerThreads.AbsorbSummarises | server.js:886-893 | Absorbing one message keeps the entries a complete summary of the messages scanned so far. |
| ServerThreads.BestSnoc | server.js:886-893 | Scanning one more message changes the choice only for that message's own peer. |
| ServerThreads.AbsorbNew | server.js:886-893 | A message from a new peer appends an entry for it. |
| ServerThreads.AbsorbKnown | server.js:886-893 | A message from a known peer replaces that peer's entry exactly when it is strictly newer. |
| ServerThreads.KnownChosen | server.js:886-893 | After a known peer's message, every entry is still its peer's chosen message. |
| ServerThreads.KnownCovers | server.js:886-893 | After a known peer's message, every peer scanned so far still has an entry. |
| ServerThreads.Threads | server.js:881-897 | 401 without a caller; otherwise a permutation of the per-peer entries of the caller's messages, each the peer's latest message, sorted newest thread first. |
| ServerThreads.Scan | server.js:884-894 | The loop's entries are exactly the aggregation of the scanned messages. |
| ServerThreads.AggregatePrefix | server.js:886-893 | Scanning one more message is absorbing it into the entries of the prefix. |
| ServerThreads.SortedThreads | server.js:895-896 | After sorting, the entries still summarise the scan and are newest first. |
| ServerThreads.PermutedSummaries | server.js:895-896 | Reordering the entries does not change what they summarise. |
| ServerFallback.Login | server-fallback.js:148-176 | The fixed admin with password "hwlx" is let in without the user table. Everyone else gets 200 exactly when some stored user matches, with the first such user, and 401 otherwise. |
| ServerFallback.ListPostsFilters | server-fallback.js:249-266 | `ListPosts` is exactly the posts in the category, when one is given, whose lower-cased title or content contains the lower-cased search, when one is given, in stored order. |
| ServerFallback.UserWithEmail | server-fallback.js:280 | The first user whose stored address, normalised, equals the already normalised cookie address; none exactly when no stored address does. |
| ServerFallback.CreatePost | server-fallback.js:269-306 | 401 exactly without the cookie; 400 exactly for an empty title, content (falling back to `desc`) or category; 404 exactly when no stored address normalises to the cookie's; 200 exactly otherwise. On success exactly one post by the caller, with 0 likes and 0 views, is put in front. |
| ServerFallback.DeletePost | server-fallback.js:309-335 | 401 exactly without the cookie; 400 exactly for an empty id; 404 exactly when no post id renders as the parameter; 200 exactly when the first such post's `authorEmail` is the caller's, and 403 otherwise. On success exactly that post is removed. |
| ServerFallback.ListMessages | server-fallback.js:338-352 | 401 exactly without the cookie; 404 exactly when no stored address normalises to the cookie's; 200 exactly otherwise, with every message the caller sent or received, and only those, in stored order. |
| ServerFallback.SendMessage | server-fallback.js:355-386 | 401 exactly without the cookie; 400 exactly for an empty recipient or content, tested before normalising; 404 exactly when no stored address normalises to the cookie's or to the normalised recipient; 200 exactly otherwise, and then exactly one unread message between the stored addresses is put in front. |
| ServerFallback.ListComments | server-fallback.js:389-394 | The comments whose post id loosely equals the parameter, in stored order. |
| ServerFallback.ListCommentsFindsCreated | server-fallback.js:389-426 | A comment stored for a post is listed under the id as the client writes it. |
| ServerFallback.CreateComment | server-fallback.js:397-426 | 401 exactly without the cookie; 400 exactly for an empty post id or content; 404 exactly when no stored address normalises to the cookie's; 200 exactly otherwise, and then exactly one comment with the author's stored details is put in front. |
| VerificationCodes.VerificationCode.constructor | models/VerificationCode.js:25-40 | A new record takes the schema defaults: unused, no attempts, a limit of five attempts. |
| VerificationCodes.VerificationCode.Verify | models/VerificationCode.js:48-67 | An invalid record refuses and is unchanged. A wrong code costs one attempt. The right code marks the record used, after which it is never valid again; it is accepted exactly when the record is valid and the code matches. |
| VerificationCodes.CodeOf | models/VerificationCode.js:75 | The generated code has exactly six decimal digits and no leading zero. |
| VerificationCodes.CreateCode | models/VerificationCode.js:70-88 | The earlier records for that email and type are deleted, and one fresh record is stored that expires five minutes later. |
| VerificationCodes.FindsValidIsValid | models/VerificationCode.js:48-52 | On a record with the default limit, the query's conditions are exactly `isValid`. |
| VerificationCodes.FindValidCode | models/VerificationCode.js:91-99 | Finds a record the query matches, or none when no record matches. |
| ServerOptimized.KeyFormat | server-optimized.js:195-203 | Month and day keys are the year followed by two-digit fields that read back as the date's own numbers. |
| ServerOptimized.Bump | server-optimized.js:206-215 | A counter map gains one at that key and is unchanged elsewhere. |
| ServerOptimized.VisitStats.constructor | server-optimized.js:128-138 | The cache starts with zero counts, an empty queue and no timer. |
| ServerOptimized.VisitStats.Visit | server-optimized.js:188-222 | Skipped paths change nothing. A counted visit bumps the total and its day, week and month, queues one update and leaves the timer pending. |
| ServerOptimized.VisitStats.ScheduleStatsUpdate | server-optimized.js:140-154 | Starts the timer only when none is pending, so at most one flush is outstanding. |
| ServerOptimized.VisitStats.FlushTimer | server-optimized.js:140-154 | A non-empty queue is saved and emptied, and the timer is cleared. |
| ServerOptimized.ParsedOr | server-optimized.js:423 | A missing parameter takes its default; a given one is `parseInt` of it, `None` standing for NaN. |
| ServerOptimized.CeilQuotient | server-optimized.js:452 | `Math.ceil(total / limit)`: none (Infinity or NaN) exactly for a zero limit; for a positive limit the least number of pages covering the count, for a negative one the matching negative bound. |
| ServerOptimized.Returned | server-optimized.js:440-444 | The posts a query returns after skipping: none past the end, never beyond the count, at most the limit's size when a limit is set, and all the rest when the limit is 0 or not reached. |
| ServerOptimized.ListPage | server-optimized.js:438-460 | A negative skip gives the 500 reply exactly; otherwise the pagination reports the page, `Math.ceil` of the count by the limit, `hasNext` exactly when posts remain after the returned ones, and `hasPrev` exactly after page 1. |
| ServerOptimized.PostsPage | server-optimized.js:423-461 | A non-numeric page or limit gives the NaN reply exactly; otherwise the listing is `ListPage` of the parsed numbers, with the defaults 1 and 10. |
| ServerOptimized.PositiveLimitNeedsPage | server-optimized.js:438-460 | With a positive limit, the 500 reply comes exactly for a page below 1. |
| ServerOptimized.ZeroLimitListsAll | server-optimized.js:438-460 | A zero limit skips nothing, returns every post, has no next page and no finite page count. |
| ServerOptimized.HasNextIffEarlierPage | server-optimized.js:438-460 | With a positive limit, there is a next page exactly when the current page is before the last one. |
| ServerOptimized.GetCurrentUser | server-optimized.js:102-125 | A non-empty `admin_email` cookie overrides the `email` cookie and makes the caller admin. |
| ServerOptimized.Login | server-optimized.js:311-366 | 400 for an empty field. A fixed admin address gets in with "admin123" and gets 401 otherwise. Every other address is checked against the users. |
| ServerOptimized.FixedAdminIgnoresUsers | server-optimized.js:311-366 | A fixed admin's login result never depends on the user table. |
| PostDisplayComponent.FilterPosts | public/components/post-display.js:609-630 | Every post of the view is in the category (unless it is 'all') and matches a non-blank query; every such post of the list is in the view. |
| PostDisplayComponent.FilterPostsShown | public/components/post-display.js:609-630 | `FilterPosts` is exactly the posts that pass the filter, in their original order. |
| PostDisplayComponent.SortPosts | public/components/post-display.js:633-657 | A stable sort by the chosen comparator; the result is ordered and is a permutation of the list. |
| PostDisplayComponent.SortPostsOrder | public/components/post-display.js:633-657 | 'newest', 'oldest' and 'popular' order the list by date or by likes. |
| PostDisplayComponent.SortPostsPinned | public/components/post-display.js:633-657 | 'pinned' puts every pinned post first, and each group is newest first. |
| PostDisplayComponent.SortPostsUnknown | public/components/post-display.js:633-657 | An unknown sort key leaves the order unchanged. |
| PostDisplayComponent.FormatDate | public/components/post-display.js:764-775 | '刚刚' under a minute; below an hour, a day and a week, the decimal count of whole minutes, hours or days followed by '分钟前', '小时前' or '天前'; from a week on, the calendar date. |
| PostDisplayComponent.CountText | public/components/post-display.js:770-772 | The count is written in decimal digits that read back as the count, followed by the unit. |
| PostDisplayComponent.AgeOf | public/components/post-display.js:764-775 | Under a minute is 'just now'; then whole minutes below an hour, hours below a day and days below a week, each count bracketing the age; from a week on, the calendar date. |
| PostDisplayComponent.PostDisplay.constructor | public/components/post-display.js:7-27 | Category `options.category \|\| 'all'`, unless the spread of the options overrides it; an empty list on page 1, expecting more posts. |
| PostDisplayComponent.PostDisplay.LoadPosts | public/components/post-display.js:566-592 | The server's reply for the current category and page: page 1 replaces the list and later pages append to it, `hasMore` follows the reply and the view is the whole list; a failure changes none of them. Page, loading flag, query and category are kept. |
| PostDisplayComponent.PostDisplay.BeginLoadMore | public/components/post-display.js:595-599 | Starts exactly when no load runs and there is more; then the loading flag is set and the page advances, and nothing else changes. Otherwise nothing changes at all. |
| PostDisplayComponent.PostDisplay.FinishLoadMore | public/components/post-display.js:600-606 | The reply for the advanced page is applied as `LoadPosts` applies it, and the loading flag is cleared. |
| PostDisplayComponent.PostDisplay.LoadMorePosts | public/components/post-display.js:595-606 | Begin and finish with nothing in between: no effect while a load runs or when there is no more. Otherwise the page number advances and the next page of the current category is appended, `hasMore` follows the reply (a failure leaves it set), the loading flag is cleared, and the query and category are kept. |
| PostDisplayComponent.PostDisplay.ApplyFilter | public/components/post-display.js:609-630 | The view becomes `FilterPosts` of the list, the category and the query; nothing else changes. |
| PostDisplayComponent.PostDisplay.Search | public/components/post-display.js:522-530 | The query becomes the search box's text and the view is filtered by it; nothing else changes. |
| PostDisplayComponent.PostDisplay.SelectCategory | public/components/post-display.js:533-540 | The tab's category becomes the category of the view and of later requests, and the view is filtered by it; nothing else changes. |
| PostDisplayComponent.PostDisplay.ApplySort | public/components/post-display.js:633-657 | The view is reordered by `SortPosts`; nothing else changes. |
| PostDisplayComponent.PostDisplay.Refresh | public/components/post-display.js:824-830 | Back to page 1 with empty lists, expecting more posts, then page 1 of the category is loaded; there is no loading guard, and the loading flag, the query and the category are kept. |
| PublicUtils.EscChar | public/utils.js:11-13 | Each of `& < > "` maps to its entity; every other character stays. |
| PublicUtils.Esc | public/utils.js:11-13 | A missing value gives "". The result is every character escaped, in turn. |
| PublicUtils.EscSafe | public/utils.js:11-13 | The escaped text has no raw '<', '>' or '"'. |
| PublicUtils.EscPlain | public/utils.js:11-13 | Text without the special characters is left unchanged. |
| PublicUtils.UnescapeEsc | public/utils.js:11-13 | Escaping loses nothing: decoding gives the original text back. |
| PublicUtils.ToAbs | public/utils.js:15-19 | A missing value gives "". An http(s) URL in any letter case is kept. Anything else goes under `API_BASE` with a '/' when needed. |
| PublicUtils.ToAbsIdempotent | public/utils.js:2-19 | Resolving a resolved URL again changes nothing, for every `API_BASE` the page can choose. |
| I18n.SameKeys | public/i18n.js:3-171 | The Chinese and English tables define the same keys. |
| I18n.LookupNeverEmpty | public/i18n.js:187-189 | `Lookup`, `t` over any tables, never shows a non-empty key as empty text, and shows a key missing from both tables as itself. |
| I18n.NoEmptyEntries | public/i18n.js:3-171 | No entry of either table is empty. |
| I18n.LookupKnown | public/i18n.js:187-189 | With equal keys and no empty entries: English shows the English entry, every other language the Chinese one, and an unknown key shows itself. |
| I18n.TranslateKnown | public/i18n.js:187-189 | `T`, `t` on the site's own tables, behaves as `LookupKnown` states. |
| I18n.TablesUniform | public/i18n.js:3-171 | The site's tables meet `LookupKnown`'s conditions. |
| I18n.FileName | public/i18n.js:233-234 | The text after the path's last '/', or "main page.html" when that text is empty; it never holds '/'. |
| I18n.PageTitleKey | public/i18n.js:232-253 | The title key of a mapped page, or undefined. |
| I18n.PageTitlesTranslated | public/i18n.js:236-250 | Every page title key is translated in both tables. |
| I18n.I18nManager.constructor | public/i18n.js:176-179 | The stored language when it is set and non-empty, else 'zh'. |
| I18n.TranslateCurrent | public/i18n.js:187-189 | `I18nManager.Translate`, in the current language: a key of the tables shows the English entry for 'en' and the Chinese one otherwise; any other key shows itself. |
| I18n.I18nManager.SwitchLanguage | public/i18n.js:192-197 | The new language becomes current and is stored. |
| UnreadBadge.GetUnreadCount | public/unread-badge.js:10-29 | An OK response gives its `count`, or 0 when that is missing. A failure parses the cache, which may give NaN, or 0 when nothing is cached. |
| UnreadBadge.Label | public/unread-badge.js:38-43 | The badge is hidden for non-positive or NaN counts; it reads "99+" above 99 and the number otherwise. |
| UnreadBadge.LabelShape | public/unread-badge.js:38-43 | A shown label has one to three characters, and below 100 it reads back as the count. |
| UnreadBadge.CacheRoundTrip | public/unread-badge.js:18-44 | The count written to the cache is what a later failed fetch reads back. |
| UnreadBadge.Badge.Show | public/unread-badge.js:38-43 | A label sets the text and shows the badge as flex; otherwise the badge is hidden. |
| UnreadBadge.UpdateUnreadBadge | public/unread-badge.js:31-49 | Nothing happens without a badge. Otherwise the badge shows the count and the count is cached. |
| UnreadBadge.TestBadge | public/unread-badge.js:59-68 | Applies the same display rule to a given count. |
| MobileUtils.GetBreakpoint | public/mobile-utils.js:189-196 | Each width belongs to exactly one breakpoint, by the source's thresholds. |
| MobileUtils.BreakpointRange | public/mobile-utils.js:189-196 | A width is in a breakpoint exactly when it lies between that breakpoint's bounds. |
| MobileUtils.BreakpointMonotone | public/mobile-utils.js:189-196 | A wider window never has a smaller breakpoint. |
| MobileUtils.Layout | public/mobile-utils.js:216-234 | The container's grid for each breakpoint. |
| MobileUtils.ResponsiveUtils.constructor | public/mobile-utils.js:176-179 | Starts at the breakpoint of the current width, with the viewport content for a mobile or desktop breakpoint. |
| MobileUtils.ResponsiveUtils.HandleResize | public/mobile-utils.js:198-214 | Only a different breakpoint is recorded, announced and laid out; the same breakpoint changes nothing. |
| MobileUtils.Swipe | public/mobile-utils.js:106-121 | A mostly horizontal swipe right of more than 50 px from the left edge opens the sidebar. A swipe left closes an open one. Nothing else changes it. |
| MobileUtils.SwipeOpensAndCloses | public/mobile-utils.js:106-121 | The qualifying swipes open and close the sidebar as intended. |
| MobileUtils.TapAfterGestureOpens | public/mobile-utils.js:96-121 | As written, a tap near the left edge after a longer gesture counts as a swipe and opens the sidebar. |
| MobileUtils.TouchStartAsWritten | public/mobile-utils.js:96-99 | `touchstart` as written records the start point and keeps the previous current point. |
| MobileUtils.TouchStart | public/mobile-utils.js:96-99 | The corrected `touchstart` records the start point and resets the current point to it. |
| MobileUtils.TapNeverToggles | public/mobile-utils.js:96-121 | With the reset, a tap never changes the sidebar. |
| MobileUtils.SwipeOwnPoints | public/mobile-utils.js:96-121 | A swipe depends only on its own start and end points. |
| MobileUtils.MobileNavigation.constructor | public/mobile-utils.js:6-27 | Starts closed, with no touch seen yet. |
| MobileUtils.MobileNavigation.OpenSidebar | public/mobile-utils.js:68-77 | Opens the sidebar and shows it, the overlay and the page lock. |
| MobileUtils.MobileNavigation.CloseSidebar | public/mobile-utils.js:79-88 | Closes the sidebar and hides them again. |
| MobileUtils.MobileNavigation.ToggleSidebar | public/mobile-utils.js:60-66 | Flips the open state. |
| MobileUtils.MobileNavigation.ClickHamburger | public/mobile-utils.js:27-47 | A hamburger click toggles the sidebar. |
| MobileUtils.MobileNavigation.ClickOverlay | public/mobile-utils.js:27-47 | An overlay click closes the sidebar. |
| MobileUtils.MobileNavigation.KeyDown | public/mobile-utils.js:27-47 | Escape closes an open sidebar; any other key changes nothing. |
| MobileUtils.MobileNavigation.OnTouchStart | public/mobile-utils.js:96-99 | The listener records the start point as written and leaves the sidebar alone. |
| MobileUtils.MobileNavigation.OnTouchMove | public/mobile-utils.js:101-104 | The listener moves the current point to the finger and leaves the sidebar alone. |
| MobileUtils.MobileNavigation.OnTouchEnd | public/mobile-utils.js:106-121 | The sidebar opens or closes as `Swipe` decides, and is otherwise unchanged. |
| MobileUtils.TouchOptimizer.TouchEnd | public/mobile-utils.js:138-147 | A second touchend within 300 ms is prevented; the time is recorded either way. |
| Monitor.Check | scripts/monitor.js:37-127 | A success never alerts; it resets a non-zero failure counter and marks the service healthy. A failure raises the counter and alerts exactly when the counter has reached the threshold while the service is marked healthy; the alert then marks it unhealthy. |
| Monitor.CheckValid | scripts/monitor.js:94-127 | Every check keeps the monitor's state valid, and a success leaves it healthy. |
| Monitor.FailureRunAlertsOnce | scripts/monitor.js:94-127 | A run of failures alerts at most once, exactly when the threshold is reached while healthy. |
| Monitor.HealthMonitor.constructor | scripts/monitor.js:16-19 | A new monitor has no failures, is healthy, has not checked yet and has sent no alert. |
| Monitor.HealthMonitor.PerformHealthCheck | scripts/monitor.js:37-127 | The monitor's fields change as `Check` says. |
| Monitor.CleanupLogs | scripts/monitor.js:162-175 | Logs of at most 1000 lines are left alone; longer logs are cut to their last 1000 lines. |
| Monitor.CleanupKeepsLastLines | scripts/monitor.js:162-175 | The rewritten log is exactly the last 1000 lines. |
| Monitor.CleanupIdempotent | scripts/monitor.js:162-175 | Cleaning a freshly cleaned log changes nothing. |
| Performance.ResponseLevel | middleware/performance.js:29-35 | Warn above 5 s, info above 1 s, debug otherwise, as an if-and-only-if for each level. |
| Performance.FinishEntries | middleware/performance.js:29-45 | The monitoring entry comes first; a warning follows exactly above 3 s. |
| Performance.WarningsByResponseTime | middleware/performance.js:29-45 | A response is warned about exactly above 3 s, and warned twice exactly above 5 s. |
| Performance.HealthCheck | middleware/performance.js:173-191 | A report is sent exactly for the two health paths; it says "healthy" and names the package version, or "1.0.0" when the environment gives none. |
| Performance.RequestStats.OnRequest | middleware/performance.js:194-225 | Each request is counted; a summary is logged exactly on multiples of 100. |
| Performance.RequestStats.OnFinish | middleware/performance.js:207-217 | Error statuses (400 and up) and responses slower than 1 s are counted, and never exceed the finished responses. |
| Performance.SummariesEveryHundred | middleware/performance.js:203-220 | After n requests, n / 100 summaries have been logged. |
| Logger.LevelNamed | utils/logger.js:5-13 | Each of the four names has its level; any other name is undefined. |
| Logger.EnabledIff | utils/logger.js:13-73 | `Enabled` under `CurrentLevel`: with a recognised `LOG_LEVEL`, a message is emitted exactly at or above it, and errors always are; an unrecognised one (say 'debug') emits nothing; without one, everything but debug is emitted. |
| Logger.EnabledMonotone | utils/logger.js:68-73 | Raising the configured level never hides a message that was shown. |
| Logger.FormatMessage | utils/logger.js:38-44 | The line starts with the bracketed timestamp and the bracketed level name, then the bracketed pid in decimal, then the message; a line with `meta` ends with a space and its JSON, and a line without it ends with the message. |
| Logger.FormatTimestamp | utils/logger.js:38-44 | The timestamp can be recovered from a formatted line. |
| Logger.LogFileName | utils/logger.js:47-56 | The lower-cased level name followed by '.log'. |
| Logger.LogFilesDistinct | utils/logger.js:47-56 | Each level writes a file of its own. |
| Logger.RequestLevel | utils/logger.js:96-111 | Warn for a status of 400 and above, info otherwise. |
| Logger.PerformanceLevel | utils/logger.js:138-150 | Warn above 1 s, debug otherwise. |
| Logger.Logger.constructor | utils/logger.js:13 | The configured level (`CurrentLevel`) is the environment's `LOG_LEVEL` when it is set and non-empty, else INFO; nothing is logged yet. |
| Logger.Logger.Log | utils/logger.js:59-73 | When the level is enabled, one line goes to the console and the same line to the level's file; otherwise nothing changes. |
| Logger.Logger.LogRequest | utils/logger.js:96-111 | When `RequestLevel` is enabled, exactly one 'API请求' line is added to the console and to that level's file; otherwise nothing changes. |
| Logger.Logger.LogPerformance | utils/logger.js:138-150 | When `PerformanceLevel` is enabled, exactly one line ('性能警告' above 1 s, '性能监控' otherwise) is added to the console and to that level's file; otherwise nothing changes. |
| OptimizeAllPages.TemplatesContainGuards | optimize-all-pages.js:30-112 | Every template contains its own step's guard. The responsive CSS also contains step 4's guard. |
| OptimizeAllPages.AddMobileCssSpec | optimize-all-pages.js:212-219 | `AddMobileCss` inserts right after the first `<title>...</title>`, exactly when the guard is absent and a title exists. |
| OptimizeAllPages.AddMobileNavSpec | optimize-all-pages.js:222-229 | `AddMobileNav` inserts right after the first `<body...>`, exactly when the guard is absent and a body tag exists. |
| OptimizeAllPages.AddResponsiveCssSpec | optimize-all-pages.js:232-238 | `AddResponsiveCss` inserts right before the first `</style>`, exactly when the guard is absent and a style close exists. |
| OptimizeAllPages.AddBottomNavSpec | optimize-all-pages.js:242-248 | `AddBottomNav` inserts before the first `</script>` followed by `</body>`, exactly when the guard is absent and that pair exists. |
| OptimizeAllPages.AddMobileCssKeeps | optimize-all-pages.js:212-219 | Step 1 loses no guard already in the page. |
| OptimizeAllPages.AddMobileNavKeeps | optimize-all-pages.js:222-229 | Step 2 loses no guard already in the page. |
| OptimizeAllPages.AddResponsiveCssKeeps | optimize-all-pages.js:232-238 | Step 3 loses no guard already in the page. |
| OptimizeAllPages.AddBottomNavKeeps | optimize-all-pages.js:242-248 | Step 4 loses no guard already in the page. |
| OptimizeAllPages.StepsEstablishGuard | optimize-all-pages.js:212-248 | A step that finds its guard or its anchor leaves the guard in the page. |
| OptimizeAllPages.ResponsiveCssSuppressesBottomNav | optimize-all-pages.js:232-248 | When step 3 inserts, its `var(--mobile-nav-height)` satisfies step 4's guard, so step 4 does not insert in that run. |
| OptimizeAllPages.InsertTemplatesGuards | optimize-all-pages.js:212-248 | Every guard present or inserted during the pass is still present after steps 1-4. |
| OptimizeAllPages.SecondPassInsertsNothing | optimize-all-pages.js:212-248 | On a page where each of steps 1-4 found its guard or its anchor when it ran, a second pass inserts nothing and changes nothing. |
| OptimizeAllPages.UpdateChatFab | optimize-all-pages.js:252-270 | Step 5 reports a change exactly when the page mentions `#chatFab`, and leaves any other page as it is. |
| OptimizeAllPages.OptimizeContent | optimize-all-pages.js:209-270 | The page is modified exactly when one of steps 1-4 inserted or the result of steps 1-4 mentions `#chatFab`; an unmodified page is unchanged. |
| OptimizeAllPages.ChatFabRewritesUnchanged | optimize-all-pages.js:252-270 | A page mentioning `#chatFab` is reported modified and rewritten even when nothing changed. |
| OptimizeAllPages.PageOutcome | optimize-all-pages.js:199-277 | `optimizePage` succeeds exactly when the page exists, can be written and some step applied; it writes exactly when it succeeds, and writes the optimized content. |
| OptimizeAllPages.ApplyMobileCss | optimize-all-pages.js:212-219 | Step 1 on the content variable. |
| OptimizeAllPages.ApplyMobileNav | optimize-all-pages.js:222-229 | Step 2 on the content variable. |
| OptimizeAllPages.ApplyResponsiveCss | optimize-all-pages.js:232-238 | Step 3 on the content variable. |
| OptimizeAllPages.ApplyBottomNav | optimize-all-pages.js:242-248 | Step 4 on the content variable. |
| OptimizeAllPages.OptimizePage | optimize-all-pages.js:199-277 | The method's result and write are exactly `PageOutcome`: missing, unreadable or unwritable pages and unmodified pages give false and no write. |
| OptimizeAllPages.OptimizeEach | optimize-all-pages.js:285-289 | Each page is optimized in turn, and the count equals the pages that succeeded. |
| OptimizeAllPages.OptimizeAll | optimize-all-pages.js:279-298 | `main`: the success count and the "all succeeded" test. |
| AddI18nToPages.LinkStylesheetSpec | scripts/add-i18n-to-pages.js:36-41 | `LinkStylesheet` links the i18n stylesheet after the first mobile stylesheet link, only when 'i18n.css' is absent. |
| AddI18nToPages.LinkStylesheetIdempotent | scripts/add-i18n-to-pages.js:36-41 | A second step 1 changes nothing. |
| AddI18nToPages.TagLabelsRemoves | scripts/add-i18n-to-pages.js:44-52 | After `TagLabels` (step 2), no untagged label of the map is left, and the second replacement finds nothing. |
| AddI18nToPages.TagLabelsNoop | scripts/add-i18n-to-pages.js:44-52 | A page without untagged labels is unchanged. |
| AddI18nToPages.TagLabelsIdempotent | scripts/add-i18n-to-pages.js:44-52 | A second step 2 changes nothing. |
| AddI18nToPages.TagLabelsKeepsGuard | scripts/add-i18n-to-pages.js:44-52 | Step 2 keeps both guards. |
| AddI18nToPages.TagLabelsKeepsAbsent | scripts/add-i18n-to-pages.js:44-52 | Tagging never recreates an untagged label. |
| AddI18nToPages.LinkScriptSpec | scripts/add-i18n-to-pages.js:55-60 | `LinkScript` links the i18n script in place of the first page ending, only when 'i18n.js' is absent. |
| AddI18nToPages.LinkScriptIdempotent | scripts/add-i18n-to-pages.js:55-60 | A second step 3 changes nothing. |
| AddI18nToPages.LinkScriptKeepsGuard | scripts/add-i18n-to-pages.js:55-60 | Step 3 keeps 'i18n.css'. |
| AddI18nToPages.LinkScriptKeepsAbsent | scripts/add-i18n-to-pages.js:55-60 | Step 3 creates no untagged label. |
| AddI18nToPages.FirstKeyIsFirst | scripts/add-i18n-to-pages.js:63-86 | The chain of tests picks the first keyword the title contains, and no key when it contains none. |
| AddI18nToPages.TitleKeyFirst | scripts/add-i18n-to-pages.js:67-85 | The title keywords in the source's order. |
| AddI18nToPages.TagTitleNoMatch | scripts/add-i18n-to-pages.js:63-86 | Without a plain title, or without a keyword, step 4 changes nothing. |
| AddI18nToPages.TagTitleRetitles | scripts/add-i18n-to-pages.js:63-86 | In `TagTitle` (step 4), only the opening tag of the first plain title is rewritten. |
| AddI18nToPages.TagTitleKeepsGuard | scripts/add-i18n-to-pages.js:63-86 | Step 4 keeps both guards. |
| AddI18nToPages.TagTitleKeepsAbsent | scripts/add-i18n-to-pages.js:63-86 | Step 4 creates no untagged label. |
| AddI18nToPages.TagTitleLeavesNoPlainTitle | scripts/add-i18n-to-pages.js:63-86 | On a page with a single plain title, no plain title is left. |
| AddI18nToPages.TagTitleIdempotent | scripts/add-i18n-to-pages.js:63-86 | On a page with at most one plain title, a second step 4 changes nothing. |
| AddI18nToPages.FirstRunLinksStylesheet | scripts/add-i18n-to-pages.js:36-86 | The first run leaves 'i18n.css' in a page that had it or had its anchor. |
| AddI18nToPages.FirstRunLinksScript | scripts/add-i18n-to-pages.js:36-86 | The first run leaves 'i18n.js' in a page that had it or had its anchor. |
| AddI18nToPages.SecondRunUnchanged | scripts/add-i18n-to-pages.js:31-94 | `AddI18n`, all four steps: after a first run that left both names and found a single plain title, running again changes nothing. |
| AddI18nToPages.ApplyStylesheet | scripts/add-i18n-to-pages.js:36-41 | Step 1 on the content variable. |
| AddI18nToPages.ApplyLabels | scripts/add-i18n-to-pages.js:44-52 | Step 2: both replacements of each entry, in the map's order. |
| AddI18nToPages.ApplyScript | scripts/add-i18n-to-pages.js:55-60 | Step 3 on the content variable. |
| AddI18nToPages.ApplyTitle | scripts/add-i18n-to-pages.js:63-86 | Step 4 on the content variable. |
| AddI18nToPages.AddI18nToPage | scripts/add-i18n-to-pages.js:31-94 | The content after all four steps. |
| AddI18nToPages.PageWrite | scripts/add-i18n-to-pages.js:31-106 | What updating one page writes: the updated content, or nothing for a missing file or a caught error. |
| AddI18nToPages.AddI18nToFile | scripts/add-i18n-to-pages.js:31-94 | A failed read or write is caught, and the page is left as it was. |
| AddI18nToPages.WritesSpec | scripts/add-i18n-to-pages.js:99-106 | A page is written exactly when it is listed, exists, can be read and can be written. |
| AddI18nToPages.AddI18nToAllPages | scripts/add-i18n-to-pages.js:99-106 | Every listed page that exists is updated. |
| GenerateOptimizedPages.NoPlaceholderUnchanged | scripts/generate-optimized-pages.js:65-72 | `ReplaceTemplateVariables` returns a template without placeholders as it is. |
| GenerateOptimizedPages.ConfigsPlain | scripts/generate-optimized-pages.js:7-56 | Every configuration value is non-empty and holds no '{', so none can form a placeholder. |
| GenerateOptimizedPages.AllPlaceholdersReplaced | scripts/generate-optimized-pages.js:65-72 | With such values, no placeholder is left by `ReplaceTemplateVariables` in the page. |
| GenerateOptimizedPages.ReplacementOrder | scripts/generate-optimized-pages.js:65-72 | A later placeholder inside an earlier value is replaced; an earlier one inside a later value is not. |
| GenerateOptimizedPages.GenerateOptimizedPage | scripts/generate-optimized-pages.js:75-89 | Returns true and writes the filled page when the read and the write succeed; returns false on a caught error. |
| GenerateOptimizedPages.GenerateEach | scripts/generate-optimized-pages.js:98-102 | The count is exactly the pages generated. |
| GenerateOptimizedPages.GenerateAll | scripts/generate-optimized-pages.js:92-115 | The tally: generated, total and failures. |
| JsString.Trim | server.js:64-69 | `trim()` is empty exactly for all-white-space text; otherwise it neither starts nor ends with white space. |
| JsString.TrimSlice | server.js:64-69 | `trim()` gives a slice of the text with only white space before it and after it. |
| JsString.IndexOf | optimize-all-pages.js:215 | `indexOf` finds the leftmost occurrence, or -1. |
| JsString.ReplaceAllRemoves | scripts/add-i18n-to-pages.js:46-51 | A global replacement by a text disjoint from the pattern leaves no occurrence. |
| JsString.ReplaceAllNoOcc | scripts/add-i18n-to-pages.js:50-51 | A global replacement without occurrences changes nothing. |
| JsString.ReplaceFirst | scripts/add-i18n-to-pages.js:37-40 | `replace` without the g flag replaces only the leftmost occurrence. |
| JsString.Split | scripts/monitor.js:162-175 | `split` never returns an empty list, and no piece holds the separator. |
| JsString.JoinSplit | scripts/monitor.js:162-175 | Joining the pieces of a split gives the text back. |
| JsString.SplitJoin | scripts/monitor.js:162-175 | Splitting joined separator-free pieces gives the pieces back. |
| JsNumber.ParseIntToString | server.js:514-515 | `ParseInt` (`parseInt`) reads back every rendered integer. |
| JsNumber.ParseIntOr | server.js:514-515 | `parseInt(x) \|\| d` gives the parsed number, or `d` for missing, non-numeric or 0. |
| JsNumber.ToNumber | server-fallback.js:392 | `Number(s)` of blank text is 0, and of text that trims to decimal digits is their value. |
| JsNumber.ToNumberToString | server-fallback.js:392 | `Number` reads back every rendered integer. |
| JsNumber.PadStart2Digits | server-optimized.js:195-203 | `padStart(2, '0')` of 0-99 gives two digits that read back as the number. |
| JsNumber.CeilDiv | server-optimized.js:422-461 | `Math.ceil(a / b)` is the smallest whole number of pages covering `a`. |
| JsArray.Filter | server.js:517 | `filter` keeps exactly the elements that satisfy the test, in order. |
| JsArray.FilterCounts | server.js:517 | `filter` keeps every copy of an element that passes the test and no copy of one that fails it. |
| JsArray.Find | server.js:501-504 | `find` gives an element exactly when one satisfies the test, and then the first such element. |
| JsArray.FilterSubsequence | public/components/post-display.js:609-630 | A filter keeps the order of the elements it keeps. |
| JsArray.RemoveAt | server.js:695-697 | `splice(i, 1)` removes exactly element i. |
| JsArray.SlicePage | server.js:520-522 | `slice(offset, offset + limit)` gives at most `limit` consecutive elements starting at the offset. |
| JsArray.SortBy | server.js:520-522 | A sort by key is ordered and is a permutation. |
| JsArray.SortByStable | public/components/post-display.js:633-657 | The sort is stable. |
| JsRegex.Match | optimize-all-pages.js:213 | `match` without the g flag returns the leftmost match. |
| JsRegex.IndexOfMatch | optimize-all-pages.js:213-215 | `indexOf(match[0])` is where the leftmost match starts. |
| JsRegex.Transfer | optimize-all-pages.js:243 | A match depends only on the text it covers. |
| JsRegex.TitleCloseSameLine | optimize-all-pages.js:213 | The lazy `.*?` never crosses a line terminator. |

## Left out

- `toLowerCase` is modelled on ASCII letters only; other letters are left as they are.
- Replacement texts are inserted literally; `$` patterns are not interpreted. The only one the core uses, `$1` in the title step, is modelled as the captured title text.
- Dates are timestamps in milliseconds. Invalid dates (NaN) do not arise in the model.
- `Number(...)` is modelled for integer literals only; fractional and exponent literals are left out.
- ServerFallback.CreateComment: a `postId` that arrives as a number in the JSON body is modelled as its string form.
- The e-mail sending and the MongoDB schema around the verification code are left out; only the record's own logic is modelled.
- ServerOptimized.PostsPage: states the page arithmetic over the count of matching posts, not the MongoDB query that fetches them.
- ServerOptimized.PostsPage: a NaN page or limit is only told apart as its own reply; what MongoDB's `skip(NaN)` and `limit(NaN)` then do is left out.
- ServerOptimized.Returned: a negative limit is taken as its size, as MongoDB's `limit` does; batch sizes and cursor behaviour are left out.
- ServerOptimized.CeilQuotient: the JSON `null` that `Infinity` and `NaN` become in the reply is modelled as `None`, without telling the two apart.
- `weekStart` and `toLocaleDateString` of the visit statistics are inputs, not computed.
- server.js:479 (the admin-only post listing branch) is not part of this model.
- MongoDB, file and network I/O, the DOM, `fetch` and `localStorage` are inputs or left out; their outcomes are parameters.
- `esc` of a non-string argument (numbers, objects) is left out; it is modelled on strings and missing values.
- A coupon amount or day count that is NaN is left out; numbers are integers.
- `parseInt` beyond 2^53 is unbounded in the model; JavaScript would lose precision.
- The monitor's log lines, `generateReport`, the uptime figures and the output of `sendAlert` are left out. Only whether an alert is sent is modelled.
- Performance.HealthCheck: the report's `memory` field (`process.memoryUsage()`) is left out.
- The memory, database and error middleware of middleware/performance.js are left out, as is the `toFixed` formatting of the error rate.
- `cleanOldLogs` of the logger is left out: it depends only on file times from the file system.
- `JSON.stringify` of the logger's `meta` is an input.
- ServerJs.CreateCoupon: the two reads of `Date.now()` (the coupon's and the notice id's `Date.now() + 1`) are taken as one clock reading, so the notice id is always the coupon's time plus one.
- Logger.Logger.Log: `formatMessage` reads the clock separately for the console line and for the file line; both reads are taken as one timestamp, so the two lines are the same.
- The debounce of `handleResize` and all timers are left out; timer callbacks are separate methods.
- ServerOptimized.VisitStats.FlushTimer: the save and the emptying of the queue are one step; visits queued while the `await` on the database runs are not modelled.
- The DOM-only parts of public/mobile-utils.js are left out: the active-link class of `bindNavEvents`, `optimizeScroll`, `addTouchFeedback` and `PerformanceOptimizer`.
- Logger.Logger.Log: the `console.error` of a failed `appendFile` is left out; a write to a log file always succeeds.
- OptimizeAllPages.SecondPassInsertsNothing: requires that each of steps 1-4 found its guard or its anchor in the first pass; a page where a later insertion creates an earlier step's anchor is not covered.
- PostDisplayComponent.PostDisplay.FinishLoadMore: other handlers that run during the request (a refresh, a search) are separate method calls between `BeginLoadMore` and `FinishLoadMore`; the `showLoading` spinner and the rendering are left out.
- The `itemsPerPage` limit of the component's request is not modelled; the server function receives the category and the page only.
- OptimizeAllPages.OptimizeAll: the files written are described per page, not collected into one map of written contents.
- OptimizeAllPages.InsertTemplatesGuards: covers steps 1-4; the chat-button rewrites of step 5 are not proved to keep the guards.
- Regular expressions are modelled only for the patterns the core uses, not in general.
- Strings are sequences of characters; the difference between UTF-16 code units and code points is left out.
- Console output is left out, except the log lines of the logger.
- File-system errors are inputs: a read or write either succeeds or throws.
- AddI18nToPages.SecondRunUnchanged: requires that the first run left both names in the page and found a single plain title; pages without them are not covered.
- AddI18nToPages.FirstRunLinksStylesheet: proves one direction only (an anchor or the name leads to the name); AddI18nToPages.FirstRunLinksScript likewise.
- GenerateOptimizedPages.GenerateAll: the success-rate text with `toFixed(1)` is left out, and the template is modelled as read once for all pages.
- The console messages of the i18n script are left out.
- Identity.Register: the model's user record holds a `username` field that register never sets; it stays empty.

## Findings

| source | as written | input that shows it | evidently intended | confidence | as-written member | corrected member |
|---|---|---|---|---|---|---|
| public/mobile-utils.js:96-121 | `touchstart` sets only the start point, so the current point keeps the previous gesture's end and a tap is measured against it | a move ending at (300, 100), then a tap at (10, 100): delta 290, so the closed sidebar opens | a tap (no `touchmove`) never changes the sidebar | not executed | MobileUtils.TapAfterGestureOpens (over MobileUtils.TouchStartAsWritten) | MobileUtils.TapNeverToggles (over MobileUtils.TouchStart) |

`MobileUtils.MobileNavigation` installs the listeners as written (`OnTouchStart` uses `TouchStartAsWritten`), so its `OnTouchEnd` shows the behaviour of the first row; `TouchStart` and the lemmas over it state the intended gesture.
