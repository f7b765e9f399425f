/**
 * The data side of the `PostDisplay` component (public/components/post-display.js): the
 * loaded list, the filtered and sorted view, and the paging flags. Rendering and the network
 * request are left out; a request's outcome is passed to the methods that consume it.
 */
module PostDisplayComponent {
  import opened Wrappers
  import opened JsString
  import opened JsNumber
  import opened JsArray

  /** A post as the listing API returns it. Optional fields are `None` when undefined;
      `createdAt` is the parsed date in milliseconds. */
  datatype Post = Post(
    id: string, title: string, content: Option<string>, desc: Option<string>,
    authorName: Option<string>, category: string, createdAt: int, likes: Option<int>, pinned: bool)

  /** A successful (`response.ok`) reply of GET /api/posts: the posts and `pagination.hasNext`
      (`None` when the reply has no pagination). */
  datatype Page = Page(posts: seq<Post>, hasNext: Option<bool>)

  /** `field?.toLowerCase().includes(q)`: false for an undefined field. */
  predicate OptContains(field: Option<string>, q: string) {
    field.Some? && Contains(Lower(field.value), q)
  }

  function InCategory(category: string): Post -> bool {
    (p: Post) => p.category == category
  }

  function MatchesQuery(query: string): Post -> bool {
    (p: Post) =>
      var q := Lower(query);
      Contains(Lower(p.title), q) || OptContains(p.content, q) || OptContains(p.desc, q) || OptContains(p.authorName, q)
  }

  /** A post the view shows: any post for the category 'all', otherwise one of that category;
      and when the query has non-blank content, the lower-cased query (untrimmed) occurs in
      the lower-cased title, content, desc or author name. */
  predicate Shown(p: Post, category: string, query: string) {
    (category == "all" || p.category == category) && (AllSpace(query) || MatchesQuery(query)(p))
  }

  function ShownBy(category: string, query: string): Post -> bool {
    (p: Post) => Shown(p, category, query)
  }

  /** `filterPosts`: the category filter, then the search filter. */
  function FilterPosts(posts: seq<Post>, category: string, query: string): (r: seq<Post>)
    ensures forall i :: 0 <= i < |r| ==> Shown(r[i], category, query)
    ensures forall i :: 0 <= i < |posts| && Shown(posts[i], category, query) ==> posts[i] in r
  {
    var byCategory := if category != "all" then Filter(posts, InCategory(category)) else posts;
    if Trim(query) != "" then Filter(byCategory, MatchesQuery(query)) else byCategory
  }

  /** The view keeps the shown posts, in order. */
  lemma FilterPostsShown(posts: seq<Post>, category: string, query: string)
    ensures FilterPosts(posts, category, query) == Filter(posts, ShownBy(category, query))
    ensures Subsequence(FilterPosts(posts, category, query), posts)
  {
    var f := ShownBy(category, query);
    if category != "all" && Trim(query) != "" {
      FilterFilter(posts, InCategory(category), MatchesQuery(query), f);
    } else if category != "all" {
      FilterExt(posts, InCategory(category), f);
    } else if Trim(query) != "" {
      FilterExt(posts, MatchesQuery(query), f);
    } else {
      FilterAll(posts, f);
    }
    FilterSubsequence(posts, f);
  }

  /** `likes || 0`. */
  function Likes(p: Post): int {
    match p.likes
    case Some(n) => n
    case None => 0
  }

  /** The comparators of `sortPosts` as sort keys; `None` for a key the switch ignores. */
  function SortKey(sortBy: string): Option<Post -> Key> {
    if sortBy == "newest" then Some((p: Post) => (-p.createdAt, 0))
    else if sortBy == "oldest" then Some((p: Post) => (p.createdAt, 0))
    else if sortBy == "popular" then Some((p: Post) => (-Likes(p), 0))
    else if sortBy == "pinned" then Some((p: Post) => (if p.pinned then 0 else 1, -p.createdAt))
    else None
  }

  /** `sortPosts(sortBy)` on a list: a stable sort by the chosen comparator, or the list
      as it is for an unknown key. */
  function SortPosts(posts: seq<Post>, sortBy: string): (r: seq<Post>)
    ensures multiset(r) == multiset(posts)
  {
    match SortKey(sortBy)
    case None => posts
    case Some(key) => SortBy(posts, key)
  }

  /** 'newest', 'oldest' and 'popular' order by the date or the likes. */
  lemma SortPostsOrder(posts: seq<Post>, sortBy: string)
    ensures var r := SortPosts(posts, sortBy);
      && (sortBy == "newest" ==> forall i, j :: 0 <= i < j < |r| ==> r[i].createdAt >= r[j].createdAt)
      && (sortBy == "oldest" ==> forall i, j :: 0 <= i < j < |r| ==> r[i].createdAt <= r[j].createdAt)
      && (sortBy == "popular" ==> forall i, j :: 0 <= i < j < |r| ==> Likes(r[i]) >= Likes(r[j]))
  {
    var r := SortPosts(posts, sortBy);
    if sortBy in {"newest", "oldest", "popular"} {
      var key := SortKey(sortBy).value;
      forall i, j | 0 <= i < j < |r|
        ensures KeyLe(key(r[i]), key(r[j]))
      {
      }
    }
  }

  /** 'pinned' puts every pinned post first, and each group newest first. */
  lemma SortPostsPinned(posts: seq<Post>)
    ensures var r := SortPosts(posts, "pinned");
      forall i, j :: 0 <= i < j < |r| ==>
        (r[j].pinned ==> r[i].pinned) && (r[i].pinned == r[j].pinned ==> r[i].createdAt >= r[j].createdAt)
  {
    var r := SortPosts(posts, "pinned");
    var key := SortKey("pinned").value;
    forall i, j | 0 <= i < j < |r|
      ensures (r[j].pinned ==> r[i].pinned) && (r[i].pinned == r[j].pinned ==> r[i].createdAt >= r[j].createdAt)
    {
      assert KeyLe(key(r[i]), key(r[j]));
    }
  }

  /** An unknown sort key leaves the order as it is. */
  lemma SortPostsUnknown(posts: seq<Post>, sortBy: string)
    requires sortBy !in {"newest", "oldest", "popular", "pinned"}
    ensures SortPosts(posts, sortBy) == posts
  {
  }

  /** The age buckets of `formatDate`. */
  datatype Age = JustNow | Minutes(n: nat) | Hours(n: nat) | Days(n: nat) | Calendar

  /** The bucket of an age `diff` (now minus the date) in milliseconds; negative ages count
      as just now. */
  function AgeOf(diff: int): (a: Age)
    ensures a == JustNow <==> diff < 60000
    ensures a.Minutes? ==> 1 <= a.n < 60 && a.n * 60000 <= diff < (a.n + 1) * 60000
    ensures a.Hours? ==> 1 <= a.n < 24 && a.n * 3600000 <= diff < (a.n + 1) * 3600000
    ensures a.Days? ==> 1 <= a.n < 7 && a.n * 86400000 <= diff < (a.n + 1) * 86400000
    ensures a == Calendar <==> diff >= 604800000
  {
    if diff < 60000 then JustNow
    else if diff < 3600000 then Minutes(diff / 60000)
    else if diff < 86400000 then Hours(diff / 3600000)
    else if diff < 604800000 then Days(diff / 86400000)
    else Calendar
  }

  /** `formatDate`: '刚刚', 'N分钟前', 'N小时前', 'N天前', or the calendar date
      (`toLocaleDateString('zh-CN')`, passed in) for a week or more. */
  function FormatDate(diff: int, calendar: string): (r: string)
    ensures diff < 60000 ==> r == "刚刚"
    ensures 60000 <= diff < 3600000 ==> ShowsCount(r, diff / 60000, "分钟前")
    ensures 3600000 <= diff < 86400000 ==> ShowsCount(r, diff / 3600000, "小时前")
    ensures 86400000 <= diff < 604800000 ==> ShowsCount(r, diff / 86400000, "天前")
    ensures diff >= 604800000 ==> r == calendar
  {
    match AgeOf(diff)
    case JustNow => "刚刚"
    case Minutes(n) => CountText(n, "分钟前")
    case Hours(n) => CountText(n, "小时前")
    case Days(n) => CountText(n, "天前")
    case Calendar => calendar
  }

  /** A whole count written in decimal, then its unit. */
  predicate ShowsCount(r: string, n: nat, unit: string) {
    && |unit| < |r|
    && r[|r| - |unit|..] == unit
    && AllDigits(r[..|r| - |unit|])
    && DecimalValue(r[..|r| - |unit|]) == n
  }

  /** `${n}` followed by a unit. */
  function CountText(n: nat, unit: string): (r: string)
    ensures ShowsCount(r, n, unit)
  {
    var r := NatToString(n) + unit;
    assert r[..|r| - |unit|] == NatToString(n) && r[|r| - |unit|..] == unit;
    r
  }

  /** The listing API as the component sees it: the reply to a request for a category and a
      page (`None` for a failed or non-OK request). */
  type Server = (string, int) -> Option<Page>

  class PostDisplay {
    var category: string
    var posts: seq<Post>
    var filteredPosts: seq<Post>
    var currentPage: int
    var isLoading: bool
    var hasMore: bool
    var searchQuery: string

    /** Pages are counted from 1. */
    predicate Valid()
      reads this
    {
      currentPage >= 1
    }

    /** `options.category || 'all'`, overridden by the spread of `options` when it has a
        `category` key; an empty list on page 1, expecting more. */
    constructor (optionCategory: Option<string>, categoryKeyPresent: bool)
      ensures category == (if categoryKeyPresent then optionCategory.GetOr("") else "all")
      ensures posts == [] && filteredPosts == [] && currentPage == 1
      ensures !isLoading && hasMore && searchQuery == ""
      ensures Valid()
    {
      category := if categoryKeyPresent then optionCategory.GetOr("") else "all";
      posts, filteredPosts := [], [];
      currentPage := 1;
      isLoading, hasMore := false, true;
      searchQuery := "";
    }

    /** `loadPosts`: the current category and page are requested. A failed request only shows
        an error. A reply on page 1 replaces the list, on later pages it is appended; `hasMore`
        follows the reply and the view is reset to the whole list. */
    method LoadPosts(server: Server)
      requires Valid()
      modifies this
      ensures Valid()
      ensures var reply := server(category, currentPage);
        && (reply.None? ==> posts == old(posts) && filteredPosts == old(filteredPosts) && hasMore == old(hasMore))
        && (reply.Some? ==>
              && posts == (if old(currentPage) == 1 then reply.value.posts else old(posts) + reply.value.posts)
              && hasMore == reply.value.hasNext.GetOr(false)
              && filteredPosts == posts)
      ensures currentPage == old(currentPage) && isLoading == old(isLoading)
      ensures searchQuery == old(searchQuery) && category == old(category)
    {
      var reply := server(category, currentPage);
      if reply.None? {
        return;
      }
      if currentPage == 1 {
        posts := reply.value.posts;
      } else {
        posts := posts + reply.value.posts;
      }
      hasMore := reply.value.hasNext.GetOr(false);
      filteredPosts := posts;
    }

    /** The synchronous start of `loadMorePosts`, up to its `await`: nothing while a load is
        running or when there is no more; otherwise the loading flag is set and the page
        advances. `started` says whether the request goes out. */
    method BeginLoadMore() returns (started: bool)
      requires Valid()
      modifies this
      ensures Valid()
      ensures started <==> !old(isLoading) && old(hasMore)
      ensures started ==> isLoading && currentPage == old(currentPage) + 1
      ensures !started ==> isLoading == old(isLoading) && currentPage == old(currentPage)
      ensures posts == old(posts) && filteredPosts == old(filteredPosts) && hasMore == old(hasMore)
      ensures searchQuery == old(searchQuery) && category == old(category)
    {
      if isLoading || !hasMore {
        return false;
      }
      isLoading := true;
      currentPage := currentPage + 1;
      started := true;
    }

    /** The rest of `loadMorePosts`, when its request answers: the reply is applied as
        `loadPosts` applies it, and the `finally` clears the loading flag. */
    method FinishLoadMore(server: Server)
      requires Valid()
      modifies this
      ensures Valid()
      ensures var reply := server(category, currentPage);
        && (reply.None? ==> posts == old(posts) && filteredPosts == old(filteredPosts) && hasMore == old(hasMore))
        && (reply.Some? ==>
              && posts == (if old(currentPage) == 1 then reply.value.posts else old(posts) + reply.value.posts)
              && hasMore == reply.value.hasNext.GetOr(false)
              && filteredPosts == posts)
      ensures currentPage == old(currentPage) && !isLoading
      ensures searchQuery == old(searchQuery) && category == old(category)
    {
      LoadPosts(server);
      isLoading := false;
    }

    /** `loadMorePosts` when nothing else runs during its request: nothing while a load is
        running or when there is no more; otherwise the next page is requested and appended,
        `hasMore` follows the reply (a failed request leaves it set), and the loading flag
        is cleared. */
    method LoadMorePosts(server: Server)
      requires Valid()
      modifies this
      ensures Valid()
      ensures old(isLoading || !hasMore) ==>
        && posts == old(posts) && filteredPosts == old(filteredPosts) && currentPage == old(currentPage)
        && isLoading == old(isLoading) && hasMore == old(hasMore)
      ensures !old(isLoading || !hasMore) ==>
        var reply := server(category, old(currentPage) + 1);
        && currentPage == old(currentPage) + 1 && !isLoading
        && (reply.Some? ==>
              posts == old(posts) + reply.value.posts && filteredPosts == posts &&
              hasMore == reply.value.hasNext.GetOr(false))
        && (reply.None? ==> posts == old(posts) && filteredPosts == old(filteredPosts) && hasMore)
      ensures searchQuery == old(searchQuery) && category == old(category)
    {
      var started := BeginLoadMore();
      if started {
        FinishLoadMore(server);
      }
    }

    /** `filterPosts`: the view becomes the shown posts of the list. */
    method ApplyFilter()
      requires Valid()
      modifies this
      ensures Valid()
      ensures filteredPosts == FilterPosts(posts, category, searchQuery)
      ensures posts == old(posts) && currentPage == old(currentPage) && hasMore == old(hasMore)
      ensures isLoading == old(isLoading) && searchQuery == old(searchQuery) && category == old(category)
    {
      var filtered := posts;
      if category != "all" {
        filtered := Filter(filtered, InCategory(category));
      }
      if Trim(searchQuery) != "" {
        filtered := Filter(filtered, MatchesQuery(searchQuery));
      }
      filteredPosts := filtered;
    }

    /** The search box's `input` (after its debounce) and the search button: the query
        becomes the box's text and the view is filtered again. */
    method Search(query: string)
      requires Valid()
      modifies this
      ensures Valid()
      ensures searchQuery == query && filteredPosts == FilterPosts(posts, category, query)
      ensures posts == old(posts) && currentPage == old(currentPage) && hasMore == old(hasMore)
      ensures isLoading == old(isLoading) && category == old(category)
    {
      searchQuery := query;
      ApplyFilter();
    }

    /** A click on a filter tab: its `data-category` becomes the category (used by the
        following requests too) and the view is filtered again. */
    method SelectCategory(tabCategory: string)
      requires Valid()
      modifies this
      ensures Valid()
      ensures category == tabCategory && filteredPosts == FilterPosts(posts, tabCategory, searchQuery)
      ensures posts == old(posts) && currentPage == old(currentPage) && hasMore == old(hasMore)
      ensures isLoading == old(isLoading) && searchQuery == old(searchQuery)
    {
      category := tabCategory;
      ApplyFilter();
    }

    /** `sortPosts(sortBy)`: the view is reordered. */
    method ApplySort(sortBy: string)
      requires Valid()
      modifies this
      ensures Valid()
      ensures filteredPosts == SortPosts(old(filteredPosts), sortBy)
      ensures posts == old(posts) && currentPage == old(currentPage) && hasMore == old(hasMore)
      ensures isLoading == old(isLoading) && searchQuery == old(searchQuery) && category == old(category)
    {
      filteredPosts := SortPosts(filteredPosts, sortBy);
    }

    /** `refresh`: back to page 1 with empty lists, expecting more, then page 1 is loaded. It
        has no loading guard and leaves the loading flag, the query and the category alone. */
    method Refresh(server: Server)
      requires Valid()
      modifies this
      ensures Valid()
      ensures currentPage == 1 && isLoading == old(isLoading)
      ensures searchQuery == old(searchQuery) && category == old(category)
      ensures var reply := server(category, 1);
        && (reply.None? ==> posts == [] && filteredPosts == [] && hasMore)
        && (reply.Some? ==>
              posts == reply.value.posts && filteredPosts == posts && hasMore == reply.value.hasNext.GetOr(false))
    {
      currentPage := 1;
      posts := [];
      filteredPosts := [];
      hasMore := true;
      LoadPosts(server);
    }
  }
}
