/**
 * The decision procedures of the comment-list container: the filtered
 * collection URL it requests, the join of each comment with its author and
 * the author's picture from the side-loaded `included` resources, the
 * page-by-page accumulation that follows `links.next`, the login state and
 * the choice of what to render.
 *
 * The network is replaced by the sequence of documents the server answers
 * with, in the order they are requested.
 */
module FluidCommentWrapper {
  import opened JsonValues
  import opened JsonApi

  /** The field the collection is filtered on: the id of the commented entity. */
  const FilterField := "entity_id.id"

  /** The relationship paths side-loaded with every page: the author and the author's picture. */
  const IncludePaths := "uid.user_picture"

  /** The URL text between the collection URL and the host id. */
  function FilterPrefix(commentsUrl: string): string {
    commentsUrl + "/?filter[" + FilterField + "]="
  }

  /** The URL text after the host id. */
  const IncludeSuffix := "&include=" + IncludePaths

  /** Reads the host id back out of a filtered collection URL, if `url` has that shape. */
  function HostIdFromUrl(commentsUrl: string, url: string): Option<string> {
    var p := FilterPrefix(commentsUrl);
    if |p| + |IncludeSuffix| <= |url| && url[..|p|] == p && url[|url| - |IncludeSuffix|..] == IncludeSuffix
    then Some(url[|p|..|url| - |IncludeSuffix|])
    else None
  }

  /** The three parts of `p + h + q` can be cut back out of it. */
  lemma SplitThree(p: string, h: string, q: string)
    ensures var u := p + h + q;
      && u[..|p|] == p && u[|u| - |q|..] == q && u[|p|..|u| - |q|] == h
      && (forall v :: u == p + v + q ==> v == h)
  {
    var u := p + h + q;
    forall v | u == p + v + q
      ensures v == h
    {
      assert |v| == |h|;
      forall i | 0 <= i < |v|
        ensures v[i] == h[i]
      {
        assert u[|p| + i] == v[i];
        assert u[|p| + i] == h[i];
      }
    }
  }

  /**
   * `filteredCommentsUrl`: the collection URL restricted to the comments on
   * host `hostId`, side-loading authors and their pictures. The host id is
   * inserted verbatim and can be read back.
   */
  function FilteredCommentsUrl(commentsUrl: string, hostId: string): (url: string)
    ensures |commentsUrl| <= |url| && url[..|commentsUrl|] == commentsUrl
    ensures EndsWith(url, "&include=uid.user_picture")
    ensures HostIdFromUrl(commentsUrl, url) == Some(hostId)
  {
    var url := FilterPrefix(commentsUrl) + hostId + IncludeSuffix;
    SplitThree(FilterPrefix(commentsUrl), hostId, IncludeSuffix);
    SplitThree(commentsUrl, "/?filter[" + FilterField + "]=", []);
    assert IncludeSuffix == "&include=uid.user_picture";
    url
  }

  /** Why `mergeIncluded` throws a TypeError for a comment. */
  datatype MergeError =
    | NoRelationships(commentId: string)   // destructuring `comment.relationships` when it is absent
    | NoIncluded                           // calling `filter` on an absent `included`
    | NoUidData(commentId: string)         // reading `uid.data.id` when the linkage is absent or null

  /** The first resource in `items` whose id is `id`, whatever its type. */
  function FirstWithId(items: seq<Resource>, id: string): (r: Option<Resource>)
    ensures r.Some? <==> exists i :: 0 <= i < |items| && items[i].id == id
    ensures r.Some? ==> exists i :: 0 <= i < |items| && items[i] == r.value && r.value.id == id
                                    && forall j :: 0 <= j < i ==> items[j].id != id
  {
    if |items| == 0 then None
    else if items[0].id == id then Some(items[0])
    else
      var r := FirstWithId(items[1..], id);
      assert forall i :: 0 <= i < |items| - 1 ==> items[1..][i] == items[i + 1];
      r
  }

  /** `included.filter(item => item.id === id)`: the resources with that id, in order. */
  function ItemsWithId(items: seq<Resource>, id: string): (r: seq<Resource>)
    ensures forall x :: x in r <==> x in items && x.id == id
  {
    if |items| == 0 then []
    else
      var rest := ItemsWithId(items[1..], id);
      assert forall x :: x in items <==> x == items[0] || x in items[1..];
      if items[0].id == id then [items[0]] + rest else rest
  }

  /** Taking element 0 of the filtered list is taking the first resource with that id. */
  lemma {:induction false} ItemsWithIdHead(items: seq<Resource>, id: string)
    ensures |ItemsWithId(items, id)| > 0 <==> FirstWithId(items, id).Some?
    ensures |ItemsWithId(items, id)| > 0 ==> ItemsWithId(items, id)[0] == FirstWithId(items, id).value
  {
    if |items| > 0 && items[0].id != id {
      ItemsWithIdHead(items[1..], id);
    }
  }

  /**
   * The resource linkage of relationship `name` of `r` (the path
   * `relationships.<name>.data`); `None` when any step is absent or null.
   */
  function RelationshipData(r: Resource, name: string): Option<Identifier> {
    match r.relationships
    case None => None
    case Some(rels) =>
      match Get(rels, name)
      case None => None
      case Some(data) => data
  }

  /**
   * The author joined with their picture: the first included resource whose
   * id is the author's `user_picture` linkage id, when the author has such a
   * linkage and some included resource has that id; otherwise the author as is.
   */
  function WithPicture(user: Resource, included: seq<Resource>): (u: Resource)
    ensures u.(picture := user.picture) == user
    ensures var pic := RelationshipData(user, "user_picture");
      if pic.Some? && FirstWithId(included, pic.value.id).Some?
      then u.picture == FirstWithId(included, pic.value.id)
      else u == user
  {
    match RelationshipData(user, "user_picture")
    case None => user
    case Some(pic) =>
      var pictures := ItemsWithId(included, pic.id);
      ItemsWithIdHead(included, pic.id);
      if |pictures| > 0 then user.(picture := Some(pictures[0])) else user
  }

  /**
   * One comment of `mergeIncluded`: gains `user`, the first included
   * resource whose id is its `uid` linkage id, joined with its picture. It
   * is returned unchanged when no included resource has that id, or when
   * `included` is empty (the filter callback that reads the linkage then
   * never runs).
   */
  function MergeOne(comment: Resource, included: Option<seq<Resource>>): (r: Result<Resource, MergeError>)
    ensures r.Success? <==> comment.relationships.Some? && included.Some?
                            && (|included.value| > 0 ==> RelationshipData(comment, "uid").Some?)
    ensures r.Success? ==> r.value.(user := comment.user) == comment
    ensures r.Success? && |included.value| == 0 ==> r.value == comment
    ensures r.Success? && |included.value| > 0 ==>
              var author := FirstWithId(included.value, RelationshipData(comment, "uid").value.id);
              if author.Some? then r.value.user == Some(WithPicture(author.value, included.value))
              else r.value == comment
  {
    if comment.relationships.None? then Failure(NoRelationships(comment.id))
    else if included.None? then Failure(NoIncluded)
    else if |included.value| == 0 then Success(comment)
    else
      match RelationshipData(comment, "uid")
      case None => Failure(NoUidData(comment.id))
      case Some(uid) =>
        var users := ItemsWithId(included.value, uid.id);
        ItemsWithIdHead(included.value, uid.id);
        if |users| == 0 then Success(comment)
        else Success(comment.(user := Some(WithPicture(users[0], included.value))))
  }

  /**
   * `mergeIncluded`: every comment joined with its author, same length and
   * same order; the first comment that cannot be joined makes it throw.
   */
  function MergeIncluded(comments: seq<Resource>, included: Option<seq<Resource>>): (r: Result<seq<Resource>, MergeError>)
    ensures r.Success? <==> forall i :: 0 <= i < |comments| ==> MergeOne(comments[i], included).Success?
    ensures r.Success? ==> |r.value| == |comments|
    ensures r.Success? ==> forall i :: 0 <= i < |comments| ==> r.value[i] == MergeOne(comments[i], included).value
    ensures r.Failure? ==> exists i :: 0 <= i < |comments| && MergeOne(comments[i], included).Failure?
                                       && r.error == MergeOne(comments[i], included).error
                                       && forall j :: 0 <= j < i ==> MergeOne(comments[j], included).Success?
  {
    if |comments| == 0 then Success([])
    else
      var first := MergeOne(comments[0], included);
      var rest := MergeIncluded(comments[1..], included);
      assert forall i :: 0 <= i < |comments| - 1 ==> comments[1..][i] == comments[i + 1];
      match first
      case Failure(e) => Failure(e)
      case Success(c) =>
        match rest
        case Failure(e) =>
          var i :| 0 <= i < |comments[1..]| && MergeOne(comments[1..][i], included).Failure?
                   && e == MergeOne(comments[1..][i], included).error
                   && forall j :: 0 <= j < i ==> MergeOne(comments[1..][j], included).Success?;
          assert forall j :: 0 <= j < i + 1 ==> MergeOne(comments[j], included).Success?;
          Failure(e)
        case Success(cs) => Success([c] + cs)
  }

  /**
   * A page of the comment collection as the fetch callback sees it once
   * `mergeIncluded` has run on it: the merged comments (or the error that
   * merging threw) and the page's `links.next.href`.
   */
  datatype Page = Page(merged: Result<seq<Resource>, MergeError>, nextHref: Option<string>)

  /** The pages a run of responses yields, each merged on its own. */
  function Received(docs: seq<Document>): (pages: seq<Page>)
    ensures |pages| == |docs|
    ensures forall i :: 0 <= i < |docs| ==>
              pages[i] == Page(MergeIncluded(docs[i].data, docs[i].included), docs[i].nextHref)
  {
    seq(|docs|, i requires 0 <= i < |docs| => Page(MergeIncluded(docs[i].data, docs[i].included), docs[i].nextHref))
  }

  /** The merged comments of a run of pages, concatenated in page order. */
  function MergedPages(pages: seq<Page>): Result<seq<Resource>, MergeError> {
    if |pages| == 0 then Success([])
    else Then(pages[0].merged, MergedPages(pages[1..]))
  }

  /** Merging a run of pages and then one more page is merging the longer run. */
  lemma {:induction false} MergedPagesSnoc(pages: seq<Page>, page: Page)
    ensures MergedPages(pages + [page]) == Then(MergedPages(pages), page.merged)
  {
    if |pages| == 0 {
      assert pages + [page] == [page];
      assert [page][1..] == [];
      if page.merged.Success? {
        assert page.merged.value + [] == page.merged.value;
        assert [] + page.merged.value == page.merged.value;
      }
    } else {
      assert (pages + [page])[1..] == pages[1..] + [page];
      MergedPagesSnoc(pages[1..], page);
      ThenAssociative(pages[0].merged, MergedPages(pages[1..]), page.merged);
    }
  }

  /** The merged comments of the first `k + 1` pages: the first page's, then those of the next `k`. */
  lemma MergedPagesPrefix(pages: seq<Page>, k: nat)
    requires k < |pages|
    ensures MergedPages(pages[..k + 1]) == Then(pages[0].merged, MergedPages(pages[1..][..k]))
  {
    assert pages[..k + 1][0] == pages[0];
    assert pages[..k + 1][1..] == pages[1..][..k];
  }

  /** The container's state: login status (`null`, `false` or `true`), comments, refresh flag. */
  datatype State = State(loggedIn: Option<bool>, comments: seq<Resource>, isRefreshing: bool)

  /** The constructor's state: logged out when a login URL is configured, `null` otherwise. */
  function InitialState(loginUrl: Option<Json>): (s: State)
    ensures s.loggedIn == if Truthy(loginUrl) then Some(false) else None
    ensures s.comments == [] && !s.isRefreshing
  {
    State(if Truthy(loginUrl) then Some(false) else None, [], false)
  }

  /**
   * `onLogin`: the login status becomes the truthiness of `success`, and the
   * list is refreshed. The refresh's synchronous part marks the list as
   * refreshing; the fetch that follows is
   * `RefreshComments(AsWritten, OnLogin(s, success), …)`.
   */
  function OnLogin(s: State, success: Option<Json>): (t: State)
    ensures t.loggedIn == Some(Truthy(success))
    ensures t.comments == s.comments && t.isRefreshing
  {
    s.(loggedIn := Some(Truthy(success)), isRefreshing := true)
  }

  /**
   * The page callback as written: when there is a next page, the nested
   * `getAndAddComments` first sets `isRefreshing` to true, and then this
   * callback's own `setState` stores the list and sets it to false.
   */
  function PageCallbackAsWritten(s: State, comments: seq<Resource>, hasNext: bool): (t: State)
    ensures t.comments == comments && t.loggedIn == s.loggedIn
    ensures !t.isRefreshing
  {
    var requesting := if hasNext then s.(isRefreshing := true) else s;
    requesting.(comments := comments, isRefreshing := false)
  }

  /**
   * The page callback as evidently intended: store the list and keep
   * `isRefreshing` set exactly while the next page is being fetched.
   */
  function PageCallbackIntended(s: State, comments: seq<Resource>, hasNext: bool): (t: State)
    ensures t.comments == comments && t.loggedIn == s.loggedIn
    ensures t.isRefreshing <==> hasNext
  {
    s.(comments := comments, isRefreshing := hasNext)
  }

  /** Which page callback a fetch uses: the one in the source, or the evidently intended one. */
  datatype PageCallback = AsWritten | Intended

  /** What a page response does to the state, given the merged list so far and whether a next page exists. */
  function ApplyCallback(callback: PageCallback, s: State, comments: seq<Resource>, hasNext: bool): State {
    match callback
    case AsWritten => PageCallbackAsWritten(s, comments, hasNext)
    case Intended => PageCallbackIntended(s, comments, hasNext)
  }

  /** How a page-by-page fetch ended. */
  datatype CrawlEnd =
    | Finished                  // the last page had no `links.next.href`
    | Failed(error: MergeError) // merging a page threw; nothing further happens
    | Awaiting                  // a request is still outstanding

  /** The URLs requested, in order, and the state after each page's callback. */
  datatype Crawl = Crawl(requests: seq<string>, states: seq<State>, end: CrawlEnd)

  /**
   * `getAndAddComments`, with the page callback as written or as intended:
   * request `url`, answered by `pages[0]`; append its merged comments to
   * `previous`; request `links.next.href` when it is truthy, answered by the
   * following page.
   */
  function GetAndAddComments(callback: PageCallback, state: State, url: string, previous: seq<Resource>,
                             pages: seq<Page>): (c: Crawl)
    ensures |c.requests| == |c.states| + (if c.end.Finished? then 0 else 1)
    ensures |c.requests| > 0 && c.requests[0] == url
    ensures |c.states| <= |pages|
    ensures c.end.Awaiting? ==> |c.states| == |pages|
    ensures c.end.Failed? ==> |c.states| < |pages|
                              && pages[|c.states|].merged == Failure(c.end.error)
    ensures c.end.Finished? ==> !Truthy(StringValue(pages[|c.states| - 1].nextHref))
    ensures forall k :: 0 <= k < |c.requests| - 1 ==>
              Truthy(StringValue(pages[k].nextHref)) && pages[k].nextHref == Some(c.requests[k + 1])
    decreases |pages|
  {
    if |pages| == 0 then Crawl([url], [], Awaiting)
    else
      var doc := pages[0];
      match doc.merged
      case Failure(e) => Crawl([url], [], Failed(e))
      case Success(merged) =>
        var comments := previous + merged;
        var hasNext := Truthy(StringValue(doc.nextHref));
        var after := ApplyCallback(callback, state, comments, hasNext);
        if hasNext then
          var rest := GetAndAddComments(callback, after, doc.nextHref.value, comments, pages[1..]);
          assert forall k :: 0 <= k < |pages| - 1 ==> pages[1..][k] == pages[k + 1];
          Crawl([url] + rest.requests, [after] + rest.states, rest.end)
        else Crawl([url], [after], Finished)
  }

  /** One step of `getAndAddComments` on a page that merges: its state, then the rest of the fetch. */
  lemma GetAndAddCommentsStep(callback: PageCallback, state: State, url: string, previous: seq<Resource>,
                              pages: seq<Page>)
    requires |pages| > 0 && pages[0].merged.Success?
    ensures var comments := previous + pages[0].merged.value;
      var hasNext := Truthy(StringValue(pages[0].nextHref));
      var after := ApplyCallback(callback, state, comments, hasNext);
      var c := GetAndAddComments(callback, state, url, previous, pages);
      if hasNext then
        var rest := GetAndAddComments(callback, after, pages[0].nextHref.value, comments, pages[1..]);
        c.requests == [url] + rest.requests && c.states == [after] + rest.states
      else
        c.requests == [url] && c.states == [after]
  {
  }

  /**
   * After page `k` the list is `previous` followed by the merged comments
   * of pages 0 to `k`, in page order, whichever page callback runs.
   */
  lemma {:induction false} GetAndAddCommentsComments(callback: PageCallback, state: State, url: string,
                                                     previous: seq<Resource>, pages: seq<Page>, k: nat)
    requires k < |GetAndAddComments(callback, state, url, previous, pages).states|
    ensures MergedPages(pages[..k + 1]).Success?
    ensures GetAndAddComments(callback, state, url, previous, pages).states[k].comments
              == previous + MergedPages(pages[..k + 1]).value
    decreases |pages|
  {
    var m := pages[0].merged;
    assert m.Success?;
    var comments := previous + m.value;
    var after := ApplyCallback(callback, state, comments, Truthy(StringValue(pages[0].nextHref)));
    GetAndAddCommentsStep(callback, state, url, previous, pages);
    MergedPagesPrefix(pages, k);
    if k == 0 {
      assert pages[1..][..0] == [];
      assert m.value + [] == m.value;
    } else {
      var rest := GetAndAddComments(callback, after, pages[0].nextHref.value, comments, pages[1..]);
      GetAndAddCommentsComments(callback, after, pages[0].nextHref.value, comments, pages[1..], k - 1);
      var later := MergedPages(pages[1..][..k]);
      assert MergedPages(pages[..k + 1]) == Success(m.value + later.value);
      assert GetAndAddComments(callback, state, url, previous, pages).states[k] == rest.states[k - 1];
      assert comments + later.value == previous + (m.value + later.value);
    }
  }

  /** After page `k`, `isRefreshing` is set exactly when a later request has been issued; the login status is untouched. */
  lemma {:induction false} GetAndAddCommentsRefreshing(state: State, url: string, previous: seq<Resource>,
                                                       pages: seq<Page>, k: nat)
    requires k < |GetAndAddComments(Intended, state, url, previous, pages).states|
    ensures var c := GetAndAddComments(Intended, state, url, previous, pages);
      && (c.states[k].isRefreshing <==> k + 1 < |c.requests|)
      && c.states[k].loggedIn == state.loggedIn
    decreases |pages|
  {
    var m := pages[0].merged;
    assert m.Success?;
    var comments := previous + m.value;
    var after := PageCallbackIntended(state, comments, Truthy(StringValue(pages[0].nextHref)));
    GetAndAddCommentsStep(Intended, state, url, previous, pages);
    if k > 0 {
      GetAndAddCommentsRefreshing(after, pages[0].nextHref.value, comments, pages[1..], k - 1);
    }
  }

  /**
   * As written, `isRefreshing` is false after every page, even while the
   * next page is being fetched; the login status is untouched.
   */
  lemma {:induction false} GetAndAddCommentsAsWrittenNeverRefreshing(state: State, url: string,
                                                                     previous: seq<Resource>, pages: seq<Page>, k: nat)
    requires k < |GetAndAddComments(AsWritten, state, url, previous, pages).states|
    ensures var c := GetAndAddComments(AsWritten, state, url, previous, pages);
      !c.states[k].isRefreshing && c.states[k].loggedIn == state.loggedIn
    decreases |pages|
  {
    var m := pages[0].merged;
    assert m.Success?;
    var comments := previous + m.value;
    var after := PageCallbackAsWritten(state, comments, Truthy(StringValue(pages[0].nextHref)));
    GetAndAddCommentsStep(AsWritten, state, url, previous, pages);
    if k > 0 {
      GetAndAddCommentsAsWrittenNeverRefreshing(after, pages[0].nextHref.value, comments, pages[1..], k - 1);
    }
  }

  /**
   * As written, the state after a page that has a next page says it is not
   * refreshing although the request for the next page is outstanding.
   */
  lemma AsWrittenClearsRefreshingEarly(state: State, url: string, previous: seq<Resource>, pages: seq<Page>)
    requires |pages| > 0
    requires pages[0].merged.Success?
    requires Truthy(StringValue(pages[0].nextHref))
    ensures var c := GetAndAddComments(AsWritten, state, url, previous, pages);
      |c.requests| >= 2 && |c.states| >= 1 && !c.states[0].isRefreshing
  {
  }

  /**
   * `refreshComments`: mark the list as refreshing and fetch the filtered
   * collection from its first page; `docs` are the responses, in order.
   * The source runs the `AsWritten` page callback.
   */
  function RefreshComments(callback: PageCallback, state: State, commentsUrl: string, hostId: string,
                           docs: seq<Document>): (c: Crawl)
    ensures |c.requests| > 0 && HostIdFromUrl(commentsUrl, c.requests[0]) == Some(hostId)
    ensures c.end.Failed? ==>
              |c.states| < |docs| && MergeIncluded(docs[|c.states|].data, docs[|c.states|].included).Failure?
  {
    GetAndAddComments(callback, state.(isRefreshing := true), FilteredCommentsUrl(commentsUrl, hostId), [],
                      Received(docs))
  }

  /**
   * When no next link is left, the final list is the in-order concatenation
   * of the merged comments of every page fetched, the list is no longer
   * refreshing, and the login status is the one before the refresh; this
   * holds for the page callback as written and as intended alike.
   */
  lemma RefreshCommentsFinalList(callback: PageCallback, state: State, commentsUrl: string, hostId: string,
                                 docs: seq<Document>)
    ensures var c := RefreshComments(callback, state, commentsUrl, hostId, docs);
      c.end.Finished? ==>
        && MergedPages(Received(docs)[..|c.states|]).Success?
        && c.states[|c.states| - 1].comments == MergedPages(Received(docs)[..|c.states|]).value
        && !c.states[|c.states| - 1].isRefreshing
        && c.states[|c.states| - 1].loggedIn == state.loggedIn
  {
    var c := RefreshComments(callback, state, commentsUrl, hostId, docs);
    if c.end.Finished? {
      var k := |c.states| - 1;
      var pages := Received(docs);
      var start := state.(isRefreshing := true);
      var url := FilteredCommentsUrl(commentsUrl, hostId);
      GetAndAddCommentsComments(callback, start, url, [], pages, k);
      assert [] + MergedPages(pages[..k + 1]).value == MergedPages(pages[..k + 1]).value;
      match callback
      case AsWritten => GetAndAddCommentsAsWrittenNeverRefreshing(start, url, [], pages, k);
      case Intended => GetAndAddCommentsRefreshing(start, url, [], pages, k);
    }
  }

  /**
   * A login attempt refreshes the list: the refresh requests the filtered
   * collection first, and when it finishes the list is the in-order
   * concatenation of the merged pages, no longer refreshing, and the login
   * status is the one the attempt set.
   */
  lemma OnLoginRefreshes(s: State, success: Option<Json>, commentsUrl: string, hostId: string,
                         docs: seq<Document>)
    ensures var c := RefreshComments(AsWritten, OnLogin(s, success), commentsUrl, hostId, docs);
      && c.requests[0] == FilteredCommentsUrl(commentsUrl, hostId)
      && (c.end.Finished? ==>
            && MergedPages(Received(docs)[..|c.states|]).Success?
            && c.states[|c.states| - 1].comments == MergedPages(Received(docs)[..|c.states|]).value
            && !c.states[|c.states| - 1].isRefreshing
            && c.states[|c.states| - 1].loggedIn == Some(Truthy(success)))
  {
    RefreshCommentsFinalList(AsWritten, OnLogin(s, success), commentsUrl, hostId, docs);
  }

  /** One piece of the rendered output. */
  datatype Part = CommentList(comments: seq<Resource>) | LoginForm | CommentForm

  /**
   * `render`: the comment list when there are comments; then the login form
   * when the login status is exactly `false`, otherwise the comment form
   * when there is a current node.
   */
  function Render(s: State, currentNode: Option<Json>): (parts: seq<Part>)
    ensures |parts| == (if |s.comments| > 0 then 1 else 0)
                        + (if s.loggedIn == Some(false) || Truthy(currentNode) then 1 else 0)
    ensures |s.comments| > 0 <==> CommentList(s.comments) in parts
    ensures forall i :: 0 <= i < |parts| && parts[i].CommentList? ==> i == 0 && parts[i].comments == s.comments
    ensures LoginForm in parts <==> s.loggedIn == Some(false)
    ensures CommentForm in parts <==> s.loggedIn != Some(false) && Truthy(currentNode)
    ensures !(LoginForm in parts && CommentForm in parts)
  {
    var list := if |s.comments| > 0 then [CommentList(s.comments)] else [];
    var form := if s.loggedIn == Some(false) then [LoginForm]
                else if Truthy(currentNode) then [CommentForm]
                else [];
    list + form
  }

  /**
   * The login form shows from the start exactly when a login URL is
   * configured, and after a login attempt exactly when it failed; a
   * successful login shows the comment form when there is a current node.
   */
  lemma LoginFormFollowsLogin(loginUrl: Option<Json>, success: Option<Json>, currentNode: Option<Json>)
    ensures LoginForm in Render(InitialState(loginUrl), currentNode) <==> Truthy(loginUrl)
    ensures CommentForm in Render(InitialState(loginUrl), currentNode) <==> !Truthy(loginUrl) && Truthy(currentNode)
    ensures LoginForm in Render(OnLogin(InitialState(loginUrl), success), currentNode) <==> !Truthy(success)
    ensures (CommentForm in Render(OnLogin(InitialState(loginUrl), success), currentNode))
              <==> Truthy(success) && Truthy(currentNode)
  {
  }
}
