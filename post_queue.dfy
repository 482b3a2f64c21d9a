/**
 * The post queue page (modsController.flags.postQueue): which queued posts
 * an actor sees, the page number taken from the query, the page count and
 * window of 20 posts, the breadcrumbs and the canAccept flag.
 */
module PostQueue {
  import opened Wrappers
  import opened JsText
  import opened Moderation

  /** postsPerPage. */
  const PostsPerPage: nat := 20

  /**
   * A post awaiting approval, as posts.getQueuedPosts returns it:
   * category.cid, user.uid and data.tid (present for replies).
   */
  datatype QueuedPost = QueuedPost(cid: int, authorUid: int, replyTid: Option<int>)

  /**
   * The filter predicate for a non-null post: within the selected categories
   * (none selected means all), and the actor is admin, global moderator,
   * moderator of the post's category, or its author.
   */
  predicate Visible(p: QueuedPost, actor: Actor, selectedCids: seq<int>) {
    (|selectedCids| == 0 || p.cid in selectedCids)
    && (actor.isAdministrator || actor.isGlobalModerator || p.cid in actor.moderatedCids || actor.uid == p.authorUid)
  }

  /** postData.filter(p => p && Visible(p)); None entries are the null posts. */
  function VisiblePosts(ps: seq<Option<QueuedPost>>, actor: Actor, selectedCids: seq<int>): (r: seq<QueuedPost>)
    ensures |r| <= |ps|
    ensures forall p :: p in r <==> Some(p) in ps && Visible(p, actor, selectedCids)
  {
    if ps == [] then []
    else
      (if ps[0].Some? && Visible(ps[0].value, actor, selectedCids) then [ps[0].value] else [])
      + VisiblePosts(ps[1..], actor, selectedCids)
  }

  /** Filtering commutes with concatenation: kept posts stay in their original order. */
  lemma {:induction false} VisiblePostsAppend(a: seq<Option<QueuedPost>>, b: seq<Option<QueuedPost>>,
                                              actor: Actor, selectedCids: seq<int>)
    ensures VisiblePosts(a + b, actor, selectedCids) ==
      VisiblePosts(a, actor, selectedCids) + VisiblePosts(b, actor, selectedCids)
  {
    if a != [] {
      assert (a + b)[1..] == a[1..] + b;
      VisiblePostsAppend(a[1..], b, actor, selectedCids);
    } else {
      assert a + b == b;
    }
  }

  /** The non-null entries of ps, in their order. */
  function NonNullPosts(ps: seq<Option<QueuedPost>>): (r: seq<QueuedPost>)
    ensures |r| <= |ps|
    ensures forall p :: p in r <==> Some(p) in ps
  {
    if ps == [] then []
    else (if ps[0].Some? then [ps[0].value] else []) + NonNullPosts(ps[1..])
  }

  /**
   * An actor who may see every post (admin or global moderator, no category
   * selected) loses only the nulls: the kept posts are the non-null ones in
   * order, and a list without nulls is kept whole.
   */
  lemma {:induction false} VisiblePostsKeepsAllForAdmins(ps: seq<Option<QueuedPost>>, actor: Actor)
    requires actor.isAdministrator || actor.isGlobalModerator
    ensures VisiblePosts(ps, actor, []) == NonNullPosts(ps)
    ensures (forall i :: 0 <= i < |ps| ==> ps[i].Some?) ==>
      |VisiblePosts(ps, actor, [])| == |ps| &&
      forall i :: 0 <= i < |ps| ==> VisiblePosts(ps, actor, [])[i] == ps[i].value
  {
    if ps != [] {
      VisiblePostsKeepsAllForAdmins(ps[1..], actor);
    }
  }

  /** parseInt(req.query.page, 10) || 1: NaN and 0 fall back to 1; other values, negative ones too, are kept. */
  function ParsePage(page: Option<QueryValue>): (r: int)
    ensures r != 0
    ensures page.None? ==> r == 1
    ensures page.Some? && ParseInt(ToJsString(page.value)).None? ==> r == 1
    ensures page.Some? && ParseInt(ToJsString(page.value)).Some? ==>
      r == if ParseInt(ToJsString(page.value)).value == 0 then 1 else ParseInt(ToJsString(page.value)).value
  {
    var parsed := if page.None? then None else ParseInt(ToJsString(page.value));
    if parsed.None? || parsed.value == 0 then 1 else parsed.value
  }

  /** A page number written in decimal is read back as itself; `0` is read as page 1. */
  lemma ParsePageOfNumber(n: int)
    ensures ParsePage(Some(Str(IntToString(n)))) == if n == 0 then 1 else n
  {
    ParseIntOfIntToString(n);
  }

  /**
   * A repeated parameter (`?page=3&page=5`) arrives as an array; String(array)
   * joins it with commas, so the first number is the page read.
   */
  lemma ParsePageOfArray(n: int, rest: seq<string>)
    requires rest != []
    ensures ParsePage(Some(Arr([IntToString(n)] + rest))) == if n == 0 then 1 else n
  {
    var xs := [IntToString(n)] + rest;
    assert xs[0] == IntToString(n) && xs[1..] == rest;
    var tail := "," + JoinWithCommas(rest);
    assert JoinWithCommas(xs) == IntToString(n) + tail;
    ParseIntFollowedBy(n, tail);
  }

  /** A missing page parameter, or a nested object, gives page 1. */
  lemma ParsePageMissing()
    ensures ParsePage(None) == 1
    ensures ParsePage(Some(Obj)) == 1
  {
    var s := "[object Object]";
    assert TrimStart(s) == s;
    assert Unsigned(s) == s;
    assert LeadingDigits(s) == [];
  }

  /** A string parseInt reads as NaN (no digit after its white space and optional sign) gives page 1. */
  lemma ParsePageNaN(s: string)
    requires ParseInt(s).None?
    ensures ParsePage(Some(Str(s))) == 1
  {
  }

  /** `?page=` and `?page=abc` both give page 1. */
  lemma ParsePageEmptyOrWord()
    ensures ParsePage(Some(Str(""))) == 1
    ensures ParsePage(Some(Str("abc"))) == 1
  {
    var w := "abc";
    assert !IsWhitespace(w[0]) && !IsDigit(w[0]);
    assert TrimStart(w) == w;
    assert Unsigned(w) == w;
    assert LeadingDigits(w) == [];
    assert ParseInt(w).None?;
    ParsePageNaN(w);
    assert TrimStart("") == "";
    assert ParseInt("").None?;
    ParsePageNaN("");
  }

  /** A negative page is not reset: `?page=-2` gives page -2. */
  lemma NegativePageKept()
    ensures ParsePage(Some(Str("-2"))) == -2
  {
    ParsePageOfNumber(-2);
    assert IntToString(-2) == "-2";
  }

  /** Math.max(1, Math.ceil(n / 20)): the least number of pages of 20 that hold n posts, at least one. */
  function PageCount(n: nat): (r: nat)
    ensures r >= 1
    ensures n == 0 ==> r == 1
    ensures n > 0 ==> (r - 1) * PostsPerPage < n <= r * PostsPerPage
  {
    var pages := (n + PostsPerPage - 1) / PostsPerPage;
    if pages > 1 then pages else 1
  }

  /** How Array.prototype.slice normalises an index: negative counts from the end, clamped to [0, len]. */
  function SliceIndex(i: int, len: nat): (r: nat)
    ensures r <= len
    ensures 0 <= i ==> r == if i < len then i else len
    ensures i < 0 ==> r == if len + i > 0 then len + i else 0
  {
    if i < 0 then (if len + i > 0 then len + i else 0)
    else if i < len then i else len
  }

  /**
   * s.slice(start, end) with JavaScript's index rules: the elements from the
   * normalised start up to the normalised end, none when the end is not past
   * the start; for start <= end never longer than end - start.
   */
  function JsSlice<T>(s: seq<T>, start: int, end: int): (r: seq<T>)
    ensures |r| <= |s|
    ensures start <= end ==> |r| <= end - start
    ensures var from, to := SliceIndex(start, |s|), SliceIndex(end, |s|);
      |r| == (if from < to then to - from else 0)
      && forall k :: 0 <= k < |r| ==> r[k] == s[from + k]
  {
    var from := SliceIndex(start, |s|);
    var to := SliceIndex(end, |s|);
    assert start <= end && from < to ==> to - from <= end - start by {
      if start < 0 && end >= 0 {
        assert from >= |s| + start && to <= end;
      }
    }
    if from < to then s[from..to] else []
  }

  /** postData.slice(start, stop + 1) with start = (page - 1) * 20 and stop = start + 19. */
  function PageWindow<T>(s: seq<T>, page: int): (r: seq<T>)
    ensures |r| <= PostsPerPage
  {
    var start := (page - 1) * PostsPerPage;
    var stop := start + PostsPerPage - 1;
    JsSlice(s, start, stop + 1)
  }

  /** The window of a page, spelled out as the slice the handler takes. */
  lemma PageWindowIsSlice<T>(s: seq<T>, page: int)
    ensures var start := (page - 1) * PostsPerPage;
      PageWindow(s, page) == JsSlice(s, start, start + PostsPerPage - 1 + 1)
  {
  }

  /** For page >= 1 the window is the 20 posts from (page - 1) * 20 on, cut at the end of the list. */
  lemma PageWindowOfPositivePage<T>(s: seq<T>, page: int)
    requires page >= 1
    ensures var start := (page - 1) * PostsPerPage;
      PageWindow(s, page) ==
        if start >= |s| then []
        else s[start..if start + PostsPerPage < |s| then start + PostsPerPage else |s|]
  {
  }

  /** Every page from 1 to the page count is non-empty (when there are posts), and every later page is empty. */
  lemma PagesUpToPageCount<T>(s: seq<T>, page: int)
    requires page >= 1
    ensures |s| > 0 && page <= PageCount(|s|) ==> |PageWindow(s, page)| > 0
    ensures page > PageCount(|s|) ==> PageWindow(s, page) == []
  {
    PageWindowOfPositivePage(s, page);
    var r := PageCount(|s|);
    if page > r {
      assert (page - 1) * PostsPerPage >= r * PostsPerPage;
    }
    if |s| > 0 && page <= r {
      assert (page - 1) * PostsPerPage <= (r - 1) * PostsPerPage;
    }
  }

  /** With 45 posts there are 3 pages and page 2 holds posts 20 to 39. */
  lemma PaginationExample<T>(s: seq<T>, empty: seq<T>)
    requires |s| == 45 && empty == []
    ensures PageCount(|s|) == 3
    ensures PageWindow(s, 2) == s[20..40]
    ensures PageCount(|empty|) == 1 && PageWindow(empty, 1) == []
  {
    PageWindowOfPositivePage(s, 2);
  }

  /**
   * A negative page counts both ends of its window from the end of the list,
   * as slice does: page p < 0 of n posts is s[max(0, n + (p - 1) * 20) .. max(0, n + p * 20)).
   */
  lemma PageWindowOfNegativePage<T>(s: seq<T>, page: int)
    requires page < 0
    ensures var n := |s|;
      var from := if n + (page - 1) * PostsPerPage > 0 then n + (page - 1) * PostsPerPage else 0;
      var to := if n + page * PostsPerPage > 0 then n + page * PostsPerPage else 0;
      PageWindow(s, page) == if from < to then s[from..to] else []
  {
  }

  /** A negative page counts from the end of the list, as slice does: page -1 of 45 posts is posts 5 to 24. */
  lemma NegativePageWindow<T>(s: seq<T>)
    requires |s| == 45
    ensures PageWindow(s, -1) == s[5..25]
  {
  }

  /** The translation keys of the crumbs, and the link back to the whole queue. */
  const QueueText := "[[pages:post-queue]]"
  const ReplyText := "[[post-queue:reply]]"
  const TopicText := "[[post-queue:topic]]"
  const QueueUrl := "/post-queue"

  /** One breadcrumb: its text key and, for a link, its url. */
  datatype Crumb = Crumb(text: string, url: Option<string>)

  /** req.params.id is truthy. */
  predicate IdGiven(id: Option<string>) {
    id.Some? && id.value != ""
  }

  /** data.tid is truthy: the queued post is a reply to an existing topic. */
  predicate IsReply(p: QueuedPost) {
    p.replyTid.Some? && p.replyTid.value != 0
  }

  /** Hidden is next() for a visitor who is not logged in. */
  datatype QueueOutcome =
    | Hidden
    | Queue(posts: seq<QueuedPost>, isAdmin: bool, canAccept: bool, page: int, pageCount: nat,
            crumbs: seq<Crumb>, singlePost: bool)

  /**
   * The handler: `queued` is what posts.getQueuedPosts returned (None for a
   * null entry), `selectedCids` what helpers.getSelectedCategory selected, and
   * `hook` what the filter:post-queue.get hook does to the list.
   */
  method ShowQueue(loggedIn: bool, actor: Actor, id: Option<string>, pageParam: Option<QueryValue>,
                   queued: seq<Option<QueuedPost>>, selectedCids: seq<int>,
                   hook: seq<QueuedPost> -> seq<QueuedPost>)
    returns (out: QueueOutcome)
    ensures out.Hidden? <==> !loggedIn
    ensures out.Queue? ==>
      var listed := hook(VisiblePosts(queued, actor, selectedCids));
      out.page == ParsePage(pageParam)
      && out.pageCount == PageCount(|listed|)
      && out.posts == PageWindow(listed, out.page)
    ensures out.Queue? ==>
      out.isAdmin == actor.isAdministrator && out.canAccept == actor.MayModerate() && out.singlePost == IdGiven(id)
    ensures out.Queue? ==>
      |out.crumbs| == (if IdGiven(id) && |out.posts| > 0 then 2 else 1)
      && out.crumbs[0] == Crumb(QueueText, if IdGiven(id) then Some(QueueUrl) else None)
    ensures out.Queue? && |out.crumbs| == 2 ==>
      out.crumbs[1].url.None?
      && out.crumbs[1].text == (if IsReply(out.posts[0]) then ReplyText else TopicText)
  {
    if !loggedIn {
      return Hidden;
    }
    var page := ParsePage(pageParam);
    var postData := VisiblePosts(queued, actor, selectedCids);
    postData := hook(postData);
    ghost var listed := postData;
    var pageCount := PageCount(|postData|);
    var start := (page - 1) * PostsPerPage;
    var stop := start + PostsPerPage - 1;
    PageWindowIsSlice(listed, page);
    postData := JsSlice(postData, start, stop + 1);
    var crumbs := [Crumb(QueueText, if IdGiven(id) then Some(QueueUrl) else None)];
    if IdGiven(id) && |postData| > 0 {
      var text := if IsReply(postData[0]) then ReplyText else TopicText;
      crumbs := crumbs + [Crumb(text, None)];
    }
    var canAccept := actor.isAdministrator || actor.isGlobalModerator || |actor.moderatedCids| > 0;
    out := Queue(postData, actor.isAdministrator, canAccept, page, pageCount, crumbs, IdGiven(id));
  }
}
