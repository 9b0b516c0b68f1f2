/**
 * The decision procedures of the single-comment component: turning a
 * comment's hypermedia links into the list of actions it offers (edit,
 * delete), building the request an action sends, and the CSS classes of
 * the comment's `<article>` element.
 */
module FluidComment {
  import opened JsonValues
  import opened JsonApi

  /** The two mutations tried on every link, in the order they are tried. */
  const LinkMethods: seq<string> := ["update", "delete"]

  /** The TypeError `processLinks` throws: link `key` carries no list of relation types. */
  datatype LinkError = MissingLinkRel(key: string)

  /** The `options` object handed to the request helper. */
  datatype RequestOptions = RequestOptions(verb: Option<string>)

  /** One entry of the action list: what a link button shows and what it sends. */
  datatype Action = Action(
    title: Option<string>,
    options: RequestOptions,
    className: string,
    href: Option<string>,
    data: seq<(string, Json)>)

  /** `getLinkTitles`: the label of an action key; `undefined` for keys it does not know. */
  function LinkTitles(key: string): (t: Option<string>)
    ensures t.Some? <==> key in {"update", "delete", "publish", "unpublish"}
    ensures key == "update" ==> t == Some("Edit")
    ensures key == "delete" ==> t == Some("Delete")
    ensures key == "publish" ==> t == Some("Approve")
    ensures key == "unpublish" ==> t == Some("Unpublish")
  {
    if key == "update" then Some("Edit")
    else if key == "delete" then Some("Delete")
    else if key == "publish" then Some("Approve")
    else if key == "unpublish" then Some("Unpublish")
    else None
  }

  /** Distinct keys never share a label, so a label identifies its key. */
  lemma LinkTitlesInjective(a: string, b: string)
    requires LinkTitles(a).Some? && LinkTitles(a) == LinkTitles(b)
    ensures a == b
  {
  }

  /** `getLinkOptions`: the HTTP method of an action; `undefined` for anything but update and delete. */
  function LinkOptions(action: string): (o: RequestOptions)
    ensures o.verb.Some? <==> action in LinkMethods
    ensures action == "update" ==> o.verb == Some("PATCH")
    ensures action == "delete" ==> o.verb == Some("DELETE")
  {
    if action == "update" then RequestOptions(Some("PATCH"))
    else if action == "delete" then RequestOptions(Some("DELETE"))
    else RequestOptions(None)
  }

  /** `processLink`: the action record for a raw title, an href, a method and a payload. */
  function ProcessLink(title: string, href: Option<string>, action: string, data: seq<(string, Json)>): (a: Action)
    ensures a.title.Some? <==> title in {"update", "delete", "publish", "unpublish"}
    ensures a.title == LinkTitles(title)
    ensures a.options.verb.Some? <==> action in LinkMethods
    ensures a.className == "comment-" + ToLower(title)
    ensures a.href == href && a.data == data
  {
    Action(LinkTitles(title), LinkOptions(action), "comment-" + ToLower(title), href, data)
  }

  /** The raw title `processLinks` uses: the method for the `self` link, the key otherwise. */
  function RawTitle(key: string, action: string): string {
    if key == "self" then action else key
  }

  /**
   * The payload of link `key`: `meta.linkParams.data` for links other than
   * `self`, and the `{}` default of `processLink` when it is undefined.
   */
  function Payload(key: string, link: Link): seq<(string, Json)> {
    if key == "self" || link.linkParams.None? then []
    else match link.linkParams.value.data
      case None => []
      case Some(d) => d
  }

  /** Whether link `key` carries the list of relation types `processLinks` reads. */
  predicate HasRelList(key: string, link: Link) {
    if key == "self" then link.linkRel.Some?
    else link.linkParams.Some? && link.linkParams.value.rel.Some?
  }

  /** The relation types of link `key`, or the TypeError reading them throws. */
  function Rels(key: string, link: Link): (r: Result<seq<string>, LinkError>)
    ensures r.Success? <==> HasRelList(key, link)
    ensures r.Success? ==> r.value == if key == "self" then link.linkRel.value else link.linkParams.value.rel.value
    ensures r.Failure? ==> r.error == MissingLinkRel(key)
  {
    if key == "self" then
      if link.linkRel.None? then Failure(MissingLinkRel(key)) else Success(link.linkRel.value)
    else if link.linkParams.None? || link.linkParams.value.rel.None? then Failure(MissingLinkRel(key))
    else Success(link.linkParams.value.rel.value)
  }

  /** The `rel.find` call: the first relation type matching the pattern `action` anchored with `$`, that is, ending in `action`. */
  function FindRel(rels: seq<string>, action: string): (found: Option<string>)
    ensures found.Some? <==> exists i :: 0 <= i < |rels| && EndsWith(rels[i], action)
    ensures found.Some? ==> exists i :: 0 <= i < |rels| && rels[i] == found.value && EndsWith(found.value, action)
                                        && forall j :: 0 <= j < i ==> !EndsWith(rels[j], action)
  {
    if |rels| == 0 then None
    else if EndsWith(rels[0], action) then Some(rels[0])
    else
      var found := FindRel(rels[1..], action);
      assert forall i :: 0 <= i < |rels| - 1 ==> rels[1..][i] == rels[i + 1];
      found
  }

  /**
   * Whether `processLinks` pushes an action for `action`: the value `find`
   * returns is truthy. A found value ends in the action name, so it is never
   * the empty string and the test is exactly "some relation type ends in it".
   */
  predicate Offers(rels: seq<string>, action: string)
    requires action in LinkMethods
    ensures Offers(rels, action) <==> exists v :: v in rels && EndsWith(v, action)
  {
    Truthy(StringValue(FindRel(rels, action)))
  }

  /** The action `processLinks` builds for `action` on link `key`. */
  function ActionFor(key: string, link: Link, action: string): (a: Action)
    requires action in LinkMethods
    ensures a.options.verb == Some(if action == "update" then "PATCH" else "DELETE")
    ensures a.href == link.href
  {
    ProcessLink(RawTitle(key, action), link.href, action, Payload(key, link))
  }

  /**
   * The title, class and payload of an action: on `self` the method's
   * label, `comment-<method>` and no payload; on any other key the key's
   * label, `comment-` plus the lower-cased key, and `meta.linkParams.data`
   * (the `{}` default when that is undefined).
   */
  lemma ActionForFields(key: string, link: Link, action: string)
    requires action in LinkMethods
    ensures var a := ActionFor(key, link, action);
      && (key == "self" ==> a.title == Some(if action == "update" then "Edit" else "Delete")
                            && a.className == "comment-" + action && a.data == [])
      && (key != "self" ==> a.title == LinkTitles(key) && a.className == "comment-" + ToLower(key))
      && (key != "self" && link.linkParams.Some? ==>
            a.data == if link.linkParams.value.data.Some? then link.linkParams.value.data.value else [])
  {
    assert key == "self" ==> ToLower(action) == action;
  }

  /**
   * `xs` holds `u` exactly when `hasU` and `d` exactly when `hasD`, nothing
   * else, and `u` before `d` when it holds both.
   */
  predicate IsOptionalPair<T(==)>(xs: seq<T>, u: T, d: T, hasU: bool, hasD: bool) {
    && |xs| == (if hasU then 1 else 0) + (if hasD then 1 else 0)
    && (u in xs <==> hasU) && (d in xs <==> hasD)
    && (forall x :: x in xs ==> x == u || x == d)
    && (|xs| == 2 ==> xs[0] == u && xs[1] == d)
  }

  /** The list of `u` when `hasU`, then `d` when `hasD`, is such a pair when `u` and `d` differ. */
  lemma OptionalPair<T>(xs: seq<T>, u: T, d: T, hasU: bool, hasD: bool)
    requires u != d
    requires xs == (if hasU then [u] else []) + (if hasD then [d] else [])
    ensures IsOptionalPair(xs, u, d, hasU, hasD)
  {
  }

  /**
   * The actions one link contributes: the update action when some relation
   * type ends in "update", then the delete action when some ends in
   * "delete"; a TypeError when the link has no relation-type list.
   */
  function KeyActions(key: string, link: Link): (r: Result<seq<Action>, LinkError>)
    ensures r.Success? <==> HasRelList(key, link)
    ensures r.Failure? ==> r.error == MissingLinkRel(key)
    ensures r.Success? ==> |r.value| <= 2
  {
    match Rels(key, link)
    case Failure(e) => Failure(e)
    case Success(rels) =>
      var update := if Offers(rels, "update") then [ActionFor(key, link, "update")] else [];
      var delete := if Offers(rels, "delete") then [ActionFor(key, link, "delete")] else [];
      Success(update + delete)
  }

  /**
   * A link with a relation-type list contributes the update action iff some
   * relation type ends in "update", the delete action iff some ends in
   * "delete", nothing else, and the update action first.
   */
  lemma KeyActionsExact(key: string, link: Link)
    requires HasRelList(key, link)
    ensures var rels := Rels(key, link).value;
      IsOptionalPair(KeyActions(key, link).value, ActionFor(key, link, "update"), ActionFor(key, link, "delete"),
                     Offers(rels, "update"), Offers(rels, "delete"))
  {
    var rels := Rels(key, link).value;
    ActionForMethodsDiffer(key, link);
    KeyActionsShape(key, link);
    OptionalPair(KeyActions(key, link).value, ActionFor(key, link, "update"), ActionFor(key, link, "delete"),
                 Offers(rels, "update"), Offers(rels, "delete"));
  }

  /** The update and delete actions of a link differ, by their methods. */
  lemma ActionForMethodsDiffer(key: string, link: Link)
    ensures ActionFor(key, link, "update") != ActionFor(key, link, "delete")
  {
  }

  /** The actions of a link with relation types: the optional update action, then the optional delete action. */
  lemma KeyActionsShape(key: string, link: Link)
    requires HasRelList(key, link)
    ensures var rels := Rels(key, link).value;
      KeyActions(key, link).value
        == (if Offers(rels, "update") then [ActionFor(key, link, "update")] else [])
           + (if Offers(rels, "delete") then [ActionFor(key, link, "delete")] else [])
  {
  }

  /** A link whose relation types offer `action` contributes the action for it. */
  lemma KeyActionsOffered(key: string, link: Link, action: string)
    requires HasRelList(key, link) && action in LinkMethods && Offers(Rels(key, link).value, action)
    ensures ActionFor(key, link, action) in KeyActions(key, link).value
  {
    KeyActionsExact(key, link);
  }

  /** Every action of a link is the action for a method its relation types offer. */
  lemma KeyActionsSound(key: string, link: Link, a: Action) returns (m: string)
    requires HasRelList(key, link) && a in KeyActions(key, link).value
    ensures m in LinkMethods && Offers(Rels(key, link).value, m) && a == ActionFor(key, link, m)
  {
    KeyActionsExact(key, link);
    m := if a == ActionFor(key, link, "update") then "update" else "delete";
  }

  /**
   * `processLinks`: the actions of every link, in link-key order; the first
   * link without a relation-type list makes the whole call throw.
   */
  function ProcessLinks(links: seq<(string, Link)>): (r: Result<seq<Action>, LinkError>)
    ensures r.Success? ==> |r.value| <= 2 * |links|
    ensures r.Failure? ==> exists i :: 0 <= i < |links| && r.error == MissingLinkRel(links[i].0)
  {
    if |links| == 0 then Success([])
    else Then(KeyActions(links[0].0, links[0].1), ProcessLinks(links[1..]))
  }

  /** Processing two link maps one after the other is processing their concatenation. */
  lemma {:induction false} ProcessLinksAppend(a: seq<(string, Link)>, b: seq<(string, Link)>)
    ensures ProcessLinks(a + b) == Then(ProcessLinks(a), ProcessLinks(b))
  {
    if |a| == 0 {
      assert a + b == b;
      if ProcessLinks(b).Success? {
        assert [] + ProcessLinks(b).value == ProcessLinks(b).value;
      }
    } else {
      assert (a + b)[0] == a[0];
      assert (a + b)[1..] == a[1..] + b;
      ProcessLinksAppend(a[1..], b);
      ThenAssociative(KeyActions(a[0].0, a[0].1), ProcessLinks(a[1..]), ProcessLinks(b));
    }
  }

  /**
   * `processLinks` returns iff every link has a relation-type list, and
   * otherwise throws for the first link that has none.
   */
  lemma {:induction false} ProcessLinksSucceedsIff(links: seq<(string, Link)>)
    ensures ProcessLinks(links).Success? <==> forall i :: 0 <= i < |links| ==> HasRelList(links[i].0, links[i].1)
    ensures ProcessLinks(links).Failure? ==>
              exists i :: 0 <= i < |links| && !HasRelList(links[i].0, links[i].1)
                          && ProcessLinks(links).error == MissingLinkRel(links[i].0)
                          && forall j :: 0 <= j < i ==> HasRelList(links[j].0, links[j].1)
  {
    if |links| > 0 {
      ProcessLinksSucceedsIff(links[1..]);
      assert forall i :: 1 <= i < |links| ==> links[1..][i - 1] == links[i];
      if ProcessLinks(links).Failure? && HasRelList(links[0].0, links[0].1) {
        var i :| 0 <= i < |links[1..]| && !HasRelList(links[1..][i].0, links[1..][i].1)
                 && ProcessLinks(links[1..]).error == MissingLinkRel(links[1..][i].0)
                 && forall j :: 0 <= j < i ==> HasRelList(links[1..][j].0, links[1..][j].1);
        assert links[1..][i] == links[i + 1];
      }
    }
  }

  /** Each link contributes at most two actions. */
  lemma {:induction false} ProcessLinksBound(links: seq<(string, Link)>)
    ensures ProcessLinks(links).Success? ==> |ProcessLinks(links).value| <= 2 * |links|
  {
    if |links| > 0 {
      ProcessLinksBound(links[1..]);
    }
  }

  /** Whether every link of the map carries a relation-type list, so that `processLinks` returns. */
  predicate AllHaveRelLists(links: seq<(string, Link)>) {
    forall i :: 0 <= i < |links| ==> HasRelList(links[i].0, links[i].1)
  }

  /** Whether link `i` of the map offers `action` through its relation types. */
  predicate OfferedAt(links: seq<(string, Link)>, i: int, action: string)
    requires 0 <= i < |links| && AllHaveRelLists(links) && action in LinkMethods
  {
    Offers(Rels(links[i].0, links[i].1).value, action)
  }

  /** Every action comes from some link and method whose relation types offer it. */
  lemma {:induction false} ProcessLinksSound(links: seq<(string, Link)>)
    requires AllHaveRelLists(links)
    ensures ProcessLinks(links).Success?
    ensures forall a :: a in ProcessLinks(links).value ==>
              exists i, m :: 0 <= i < |links| && m in LinkMethods && OfferedAt(links, i, m)
                             && a == ActionFor(links[i].0, links[i].1, m)
  {
    ProcessLinksSucceedsIff(links);
    if |links| > 0 {
      var tail := links[1..];
      assert forall i :: 0 <= i < |tail| ==> tail[i] == links[i + 1];
      ProcessLinksSound(tail);
      var first := KeyActions(links[0].0, links[0].1).value;
      var rest := ProcessLinks(tail).value;
      forall a | a in ProcessLinks(links).value
        ensures exists i, m :: 0 <= i < |links| && m in LinkMethods && OfferedAt(links, i, m)
                               && a == ActionFor(links[i].0, links[i].1, m)
      {
        if a in first {
          var m := KeyActionsSound(links[0].0, links[0].1, a);
          assert OfferedAt(links, 0, m);
        } else {
          assert a in rest;
          var i, m :| 0 <= i < |tail| && m in LinkMethods && OfferedAt(tail, i, m)
                      && a == ActionFor(tail[i].0, tail[i].1, m);
          assert OfferedAt(links, i + 1, m);
        }
      }
    }
  }

  /** Every link and method whose relation types offer an action contribute that action. */
  lemma {:induction false} ProcessLinksComplete(links: seq<(string, Link)>)
    requires AllHaveRelLists(links)
    ensures ProcessLinks(links).Success?
    ensures forall i, m :: 0 <= i < |links| && m in LinkMethods && OfferedAt(links, i, m) ==>
              ActionFor(links[i].0, links[i].1, m) in ProcessLinks(links).value
  {
    ProcessLinksSucceedsIff(links);
    if |links| > 0 {
      var tail := links[1..];
      assert forall i :: 0 <= i < |tail| ==> tail[i] == links[i + 1];
      ProcessLinksComplete(tail);
      var first := KeyActions(links[0].0, links[0].1).value;
      var rest := ProcessLinks(tail).value;
      assert ProcessLinks(links).value == first + rest;
      forall i, m | 0 <= i < |links| && m in LinkMethods && OfferedAt(links, i, m)
        ensures ActionFor(links[i].0, links[i].1, m) in ProcessLinks(links).value
      {
        if i == 0 {
          KeyActionsOffered(links[0].0, links[0].1, m);
        } else {
          assert OfferedAt(tail, i - 1, m);
          assert ActionFor(links[i].0, links[i].1, m) in rest;
        }
      }
    }
  }

  /**
   * A link none of whose relation types ends in a method name, such as the
   * `reply` link the server adds with relation type
   * "https://jsonapi.org/profiles/drupal/hypermedia/#add", adds no action
   * wherever it sits in the map.
   */
  lemma NoMatchingRelAddsNothing(before: seq<(string, Link)>, key: string, link: Link, after: seq<(string, Link)>)
    requires HasRelList(key, link)
    requires forall v :: v in Rels(key, link).value ==> !EndsWith(v, "update") && !EndsWith(v, "delete")
    ensures ProcessLinks(before + [(key, link)] + after) == ProcessLinks(before + after)
  {
    KeyActionsExact(key, link);
    assert KeyActions(key, link) == Success([]);
    assert ProcessLinks([(key, link)]) == Success([]);
    ProcessLinksAppend(before, [(key, link)]);
    ProcessLinksAppend(before + [(key, link)], after);
    ProcessLinksAppend(before, after);
    match ProcessLinks(before)
    case Failure(_) =>
    case Success(xs) =>
      assert xs + [] == xs;
  }

  /** The request an action button sends. `body` is the value handed to `JSON.stringify`. */
  datatype Request = Request(href: Option<string>, verb: Option<string>, body: Option<Json>)

  /**
   * `commentAction`: the action's href and method, with a body `{data}` only
   * when the payload object has at least one key.
   */
  function CommentAction(link: Action): (q: Request)
    ensures q.href == link.href && q.verb == link.options.verb
    ensures q.body.Some? <==> |link.data| > 0
    ensures q.body.Some? ==> q.body == Some(JObj([("data", JObj(link.data))]))
  {
    if |link.data| > 0 then Request(link.href, link.options.verb, Some(JObj([("data", JObj(link.data))])))
    else Request(link.href, link.options.verb, None)
  }

  /** Actions built from the `self` link send no body. */
  lemma SelfActionsSendNoBody(link: Link, m: string)
    requires m in LinkMethods
    ensures CommentAction(ActionFor("self", link, m)).body.None?
  {
  }

  /** An entry of the article's class array: a class name, or the value `false`. */
  datatype ClassEntry = ClassName(name: string) | NoClass

  /**
   * The article's class array as written: the third entry is
   * `!published && 'comment--unpublished'`, which is `false` for a
   * published comment.
   */
  function ArticleClassesAsWritten(status: Option<Json>): (entries: seq<ClassEntry>)
    ensures |entries| == 4
    ensures ClassName("comment--unpublished") in entries <==> !Truthy(status)
    ensures NoClass in entries <==> Truthy(status)
  {
    [ ClassName("comment"),
      ClassName("js-comment"),
      if !Truthy(status) then ClassName("comment--unpublished") else NoClass,
      ClassName("clearfix") ]
  }

  /** How `Array.prototype.join` renders an entry: `false` becomes the text "false". */
  function EntryText(e: ClassEntry): string {
    match e
    case ClassName(n) => n
    case NoClass => "false"
  }

  /** `tokens.join(' ')`. */
  function JoinWithSpaces(tokens: seq<string>): string {
    if |tokens| == 0 then ""
    else if |tokens| == 1 then tokens[0]
    else tokens[0] + " " + JoinWithSpaces(tokens[1..])
  }

  /** The `className` attribute the as-written class array yields. */
  function ClassAttributeAsWritten(status: Option<Json>): string {
    var es := ArticleClassesAsWritten(status);
    JoinWithSpaces([EntryText(es[0]), EntryText(es[1]), EntryText(es[2]), EntryText(es[3])])
  }

  /** A published comment's article gets the stray class "false". */
  lemma PublishedArticleHasFalseClass(status: Option<Json>)
    requires Truthy(status)
    ensures ClassAttributeAsWritten(status) == "comment js-comment false clearfix"
  {
    var es := ArticleClassesAsWritten(status);
    assert es[2] == NoClass;
    var tokens := [EntryText(es[0]), EntryText(es[1]), EntryText(es[2]), EntryText(es[3])];
    assert tokens == ["comment", "js-comment", "false", "clearfix"];
    assert tokens[1..][1..][1..] == ["clearfix"];
    assert JoinWithSpaces(tokens[1..][1..]) == "false" + " " + "clearfix";
    assert JoinWithSpaces(tokens[1..]) == "js-comment" + " " + ("false" + " " + "clearfix");
    assert JoinWithSpaces(tokens) == "comment" + " " + ("js-comment" + " " + ("false" + " " + "clearfix"));
  }

  /** The class names of an entry list, with the `false` entries dropped. */
  function ClassNames(entries: seq<ClassEntry>): (names: seq<string>)
    ensures forall n :: n in names <==> ClassName(n) in entries
  {
    if |entries| == 0 then []
    else
      var rest := ClassNames(entries[1..]);
      assert forall e :: e in entries <==> e == entries[0] || e in entries[1..];
      match entries[0]
      case ClassName(n) => [n] + rest
      case NoClass => rest
  }

  /**
   * The article's classes as evidently intended: "comment--unpublished" for
   * an unpublished comment, and no entry at all otherwise.
   */
  function ArticleClasses(status: Option<Json>): (classes: seq<string>)
    ensures "comment--unpublished" in classes <==> !Truthy(status)
    ensures "false" !in classes
    ensures forall c :: c in classes <==> ClassName(c) in ArticleClassesAsWritten(status)
  {
    ClassNames(ArticleClassesAsWritten(status))
  }
}
