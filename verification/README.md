# fluid_comment, modelled in Dafny

fluid_comment is a decoupled comment widget for Drupal. A React front end
lists the comments of a host node through the JSON:API comment collection
and offers each comment's edit and delete actions. It also shows a login
form or a comment form. A small Drupal module adds a comment-collection
route and a `reply` action to the JSON:API resource layer.

This project models the decision procedures of that system as pure Dafny
functions over immutable datatypes, and proves what they promise:

- `json_values.dfy` (module `JsonValues`) holds parsed JSON values and the
  few JavaScript operations the widget applies to them. These are
  truthiness, member lookup, `toLowerCase` and suffix tests. `undefined`
  is `None` and a thrown TypeError is a `Failure`. A JavaScript object is a
  sequence of (key, value) pairs in `Object.keys` order.
- `json_api.dfy` (module `JsonApi`) holds the JSON:API shapes the widget
  reads: resources, links with their `meta` link relations and parameters,
  and collection documents with `included` and `links.next.href`.
- `fluid_comment.dfy` (module `FluidComment`) models the single-comment
  component:
  - `processLinks` and its helpers, which turn a comment's links into the
    action list;
  - `commentAction`, the request an action button sends;
  - the article class list.
- `fluid_comment_wrapper.dfy` (module `FluidCommentWrapper`) models the
  container:
  - the filtered collection URL;
  - `mergeIncluded`, which joins every comment with its author and the
    author's picture from `included`;
  - page-by-page fetching through `links.next.href`, as a function over
    the sequence of responses;
  - the initial login state, `onLogin`, and the choice of what `render`
    shows.
- `jsonapi_comments_controller.dfy` (module `JsonapiCommentsController`)
  models the server side:
  - the `getPagination` guard on unsupported query parameters;
  - in `reply`, the field-access scan over submitted member names, the
    stamping of host and parent references, the 409 conflict check and
    the `Location` header rule.
  Framework services are function-valued parameters: field-name mapping,
  field access, validation, existence and URL generation.

## Model

| member | source | states |
|---|---|---|
| JsonValues.ToLower | js/src/FluidComment.js:30 | lower-casing keeps the length, turns each upper-case ASCII letter into its lower-case letter and keeps every other character |
| FluidComment.LinkTitles | js/src/FluidComment.js:7-16 | update, delete, publish and unpublish are labelled Edit, Delete, Approve and Unpublish; every other key is `undefined` |
| FluidComment.LinkTitlesInjective | js/src/FluidComment.js:7-16 | two keys with the same defined label are the same key |
| FluidComment.LinkOptions | js/src/FluidComment.js:17-24 | the method is defined exactly for update and delete: PATCH and DELETE |
| FluidComment.ProcessLink | js/src/FluidComment.js:26-34 | the title is the raw title's label from the title table, and the method is defined exactly for update and delete. The class is `comment-` followed by the lower-cased raw title, and href and payload pass through |
| FluidComment.Rels | js/src/FluidComment.js:46-53 | the relation types are `meta.linkRel` for `self` and `meta.linkParams.rel` for any other key; reading them fails, for that link, exactly when they are absent |
| FluidComment.FindRel | js/src/FluidComment.js:57 | `find` answers the first relation type that ends in the method name, and answers one exactly when some relation type does |
| FluidComment.Offers | js/src/FluidComment.js:57 | an action is pushed exactly when some relation type ends in the method name, so the anchored pattern is a pure suffix test |
| FluidComment.ActionFor | js/src/FluidComment.js:43-58 | the method is PATCH for update and DELETE for delete, and the href is the link's own |
| FluidComment.ActionForFields | js/src/FluidComment.js:40-55 | on `self` the title is the method's label, the class is `comment-<method>` and the payload is empty. On any other key the title is the key's label, the class is `comment-` plus the lower-cased key, and the payload is `meta.linkParams.data`, or `{}` when that is undefined |
| FluidComment.KeyActions | js/src/FluidComment.js:45-60 | one link contributes at most two actions; a link without relation types makes the call throw, and the model records which link threw |
| FluidComment.KeyActionsExact | js/src/FluidComment.js:45-60 | a link contributes the update action iff some relation type ends in "update" and the delete action iff one ends in "delete". It contributes nothing else, and update comes before delete |
| FluidComment.KeyActionsSound | js/src/FluidComment.js:45-60 | every action a link contributes is the update or delete action for a method its relation types offer |
| FluidComment.ProcessLinks | js/src/FluidComment.js:35-64 | the action list has at most two entries per link; a failure comes from one of the links |
| FluidComment.ProcessLinksAppend | js/src/FluidComment.js:35-64 | the action list of a concatenated link map is the two lists concatenated, so the output follows link-key order |
| FluidComment.ProcessLinksSucceedsIff | js/src/FluidComment.js:38-61 | `processLinks` returns iff every link has relation types; otherwise it throws at the first link, in key order, that has none |
| FluidComment.ProcessLinksBound | js/src/FluidComment.js:38-61 | the action list has at most two entries per link |
| FluidComment.ProcessLinksSound | js/src/FluidComment.js:38-61 | every action comes from a link and method whose relation types offer it |
| FluidComment.ProcessLinksComplete | js/src/FluidComment.js:38-61 | every link and method whose relation types offer an action contributes that action |
| FluidComment.NoMatchingRelAddsNothing | js/src/FluidComment.js:57-59 | a link whose relation types end in neither method name, such as the reply link with relation type `…#add`, changes nothing wherever it sits |
| FluidComment.CommentAction | js/src/FluidComment.js:134-146 | the request uses the action's href and method and carries the body `{data}` iff the payload has at least one key |
| FluidComment.SelfActionsSendNoBody | js/src/FluidComment.js:136-140 | actions built from the `self` link send no body |
| FluidComment.ArticleClassesAsWritten | js/src/FluidComment.js:85-93 | the class array has four entries; "comment--unpublished" is present iff the status is falsy, and the value `false` is present iff it is truthy |
| FluidComment.PublishedArticleHasFalseClass | js/src/FluidComment.js:85-106 | a published comment's article gets the class attribute "comment js-comment false clearfix" |
| FluidComment.ArticleClasses | js/src/FluidComment.js:85-93 | as intended: "comment--unpublished" iff the status is falsy, never "false", and otherwise the class names of the array |
| FluidCommentWrapper.FilteredCommentsUrl | js/src/FluidCommentWrapper.js:23-29 | the URL starts with the collection URL and ends with `&include=uid.user_picture`; the host id can be read back from between the filter and the include |
| FluidCommentWrapper.FirstWithId | js/src/FluidCommentWrapper.js:88-91 | the first included resource with the given id, whatever its type; defined exactly when one exists |
| FluidCommentWrapper.ItemsWithId | js/src/FluidCommentWrapper.js:88 | the filter keeps exactly the included resources with the given id |
| FluidCommentWrapper.ItemsWithIdHead | js/src/FluidCommentWrapper.js:88-91 | element 0 of the filtered list exists exactly when a first match exists, and it is that match |
| FluidCommentWrapper.WithPicture | js/src/FluidCommentWrapper.js:92-97 | only `picture` can change. It becomes the first included resource whose id is the `user_picture` linkage id, when there is such a linkage and such a resource; otherwise the user is unchanged |
| FluidCommentWrapper.MergeOne | js/src/FluidCommentWrapper.js:85-103 | a comment merges iff it has relationships, `included` is defined and, when `included` is non-empty, it has a `uid` linkage. Only `user` changes: it becomes the first included resource with the `uid` id, joined with its picture, or the comment is unchanged when there is none |
| FluidCommentWrapper.MergeIncluded | js/src/FluidCommentWrapper.js:84-105 | the merge succeeds iff every comment merges. The result has the same length and order, each element being that comment merged; otherwise the error is that of the first comment that fails |
| FluidCommentWrapper.MergedPagesSnoc | js/src/FluidCommentWrapper.js:116 | merging a run of pages and then one more page is merging the longer run |
| FluidCommentWrapper.InitialState | js/src/FluidCommentWrapper.js:12-16 | the login status starts as `false` when a login URL is set and as `null` otherwise, with no comments and not refreshing |
| FluidCommentWrapper.OnLogin | js/src/FluidCommentWrapper.js:50-52 | the login status becomes the truthiness of `success`, the comments are kept, and the refresh that follows marks the list as refreshing |
| FluidCommentWrapper.OnLoginRefreshes | js/src/FluidCommentWrapper.js:50-52 | the refresh after a login attempt requests the filtered collection first; when it finishes, the list is the merged pages in order, it is no longer refreshing, and the login status is the one the attempt set |
| FluidCommentWrapper.PageCallbackAsWritten | js/src/FluidCommentWrapper.js:109-122 | as written, a page callback stores the accumulated list and keeps the login status, but leaves `isRefreshing` false even when it has just requested the next page |
| FluidCommentWrapper.GetAndAddComments | js/src/FluidCommentWrapper.js:107-124 | the first request is the given URL, and each later request is the previous page's truthy next link. The fetch finishes at a page without one, fails at the first page whose merge throws, or awaits a response |
| FluidCommentWrapper.GetAndAddCommentsComments | js/src/FluidCommentWrapper.js:116-122 | for the page callback as written and as intended, after page k the list is the previous list followed by the merged pages 0 to k, in order |
| FluidCommentWrapper.GetAndAddCommentsRefreshing | js/src/FluidCommentWrapper.js:109-122 | with the intended callback, after page k `isRefreshing` is set iff a further request was issued, and the login status is untouched |
| FluidCommentWrapper.GetAndAddCommentsAsWrittenNeverRefreshing | js/src/FluidCommentWrapper.js:107-124 | as written, `isRefreshing` is false after every page, whether or not a further request is outstanding, and the login status is untouched |
| FluidCommentWrapper.AsWrittenClearsRefreshingEarly | js/src/FluidCommentWrapper.js:109-122 | as written, a page with a next link leaves `isRefreshing` false although the next request is outstanding |
| FluidCommentWrapper.RefreshComments | js/src/FluidCommentWrapper.js:77-79 | the first request is the filtered URL for the host; a failed fetch stops at a response whose merge throws. The page callback is a parameter, and the source runs the as-written one |
| FluidCommentWrapper.RefreshCommentsFinalList | js/src/FluidCommentWrapper.js:107-124 | for the callback as written and as intended, once no next link is left the list is the in-order concatenation of every fetched page's merged comments. It is then no longer refreshing, and the login status is the one before the refresh |
| FluidCommentWrapper.Render | js/src/FluidCommentWrapper.js:31-75 | the comment list comes first and only when non-empty. Then the login form iff the login status is exactly `false`, else the comment form iff there is a current node; never both forms, and at most one of each part |
| FluidCommentWrapper.LoginFormFollowsLogin | js/src/FluidCommentWrapper.js:12-53 | the login form shows initially iff a login URL is set, and after a login attempt iff it failed. Otherwise the comment form shows when there is a current node |
| JsonapiCommentsController.GetPagination | modules/jsonapi_comments/src/Controller/JsonapiCommentsController.php:138-149 | the request is refused iff sort, filter, page or resourceVersion is present, naming the first present in that order with its message and cache contexts; otherwise the parsed offset page is answered |
| JsonapiCommentsController.ValidNames | modules/jsonapi_comments/src/Controller/JsonapiCommentsController.php:82-86 | exactly the internal names of submitted names that are fields of the resource type |
| JsonapiCommentsController.ValidNamesAppend | modules/jsonapi_comments/src/Controller/JsonapiCommentsController.php:82-86 | the valid names of two runs of submitted names are those of each run, concatenated, so submission order is kept |
| JsonapiCommentsController.FirstDenied | modules/jsonapi_comments/src/Controller/JsonapiCommentsController.php:87-92 | the first field the user may not edit, defined exactly when there is one |
| JsonapiCommentsController.FirstDeniedOfValidNames | modules/jsonapi_comments/src/Controller/JsonapiCommentsController.php:82-92 | the first denied valid field is the internal name of the first submitted name, in submission order, that is a field the user may not edit. There is one exactly when some submitted name is such a field |
| JsonapiCommentsController.MemberDenial | modules/jsonapi_comments/src/Controller/JsonapiCommentsController.php:81-94 | a member of `data` is refused iff it is present and some submitted name is a field the user may not edit. The error is for the first such name in submission order, pointing at `/data/<member>/<public name>` with its message |
| JsonapiCommentsController.FieldAccessDenial | modules/jsonapi_comments/src/Controller/JsonapiCommentsController.php:80-95 | a denied attribute decides the error; only when no attribute is denied does the relationships scan decide it |
| JsonapiCommentsController.UnknownNameSkipped | modules/jsonapi_comments/src/Controller/JsonapiCommentsController.php:82-86 | a submitted name that maps to no field of the resource type is never access-checked, wherever it sits |
| JsonapiCommentsController.FieldAccessScanOrder | modules/jsonapi_comments/src/Controller/JsonapiCommentsController.php:80-93 | the scan refuses iff some submitted attribute or relationship is denied. The error points into `data.attributes` when an attribute is denied, and into `data.relationships` only when none is |
| JsonapiCommentsController.StampReferences | modules/jsonapi_comments/src/Controller/JsonapiCommentsController.php:101-106 | entity type, host and field name always come from the host and route. The parent is set iff one is given, otherwise it is left as submitted; the other values are kept |
| JsonapiCommentsController.StampReferencesIdempotent | modules/jsonapi_comments/src/Controller/JsonapiCommentsController.php:101-106 | stamping twice is stamping once, and with a parent given the submitted references do not matter |
| JsonapiCommentsController.Reply | modules/jsonapi_comments/src/Controller/JsonapiCommentsController.php:72-133 | a comment is saved iff the response succeeds, which happens iff the access scan passes, it validates and it does not exist yet. A denied field answers that field's 403, and an existing comment answers the 409 conflict with nothing saved. Success is 201 with the stamped comment, with a `Location` header iff the type is locatable |

## Left out

- React rendering, JSX, component lifecycle and `setState` scheduling are not modelled. Only the branch choice of `render` and the state each callback produces are.
- The network calls of `getResponseDocument`, promise chaining and `console.log` are left out. Pagination is a function over the responses given in request order.
- `getDeepProp`, `FluidCommentLink`, `FluidCommentForm` and `InlineLoginForm` (`functions.js` and the component files) are not part of this model. A deep property read is a field of the datatypes, absent as `None`.
- `getComments` is left out because it only wraps framework calls. It adds a `reply` link with relation type `…#add` to every comment, and `NoMatchingRelAddsNothing` shows that this link yields no action in the widget.
- The internals of deserialisation, `validate`, `entityExists`, `save`, field access, URL generation, cacheability metadata and `ResourceObject` construction belong to Drupal. They are parameters of `Reply`.
- The value of the resource-version query parameter, "resourceVersion", comes from Drupal core's JSON:API module. `ResourceVersionRouteEnhancer` is not part of this model.
- `Object.assign` in `mergeIncluded` mutates the comment and user objects in place. The model returns updated records, so aliasing between comments that share an author is not modelled.
- The title and method tables are plain objects, so an inherited key such as `constructor` would find a prototype member. The model treats such keys as undefined.
- JsonValues.ToLower: lower-cases ASCII letters only, because `toLowerCase` on other scripts follows Unicode case mapping, which is not modelled.
- JSON numbers are integers, because the widget never computes with numbers.
- Relationships are modelled to-one, as `uid` and `user_picture` are; to-many linkages are not modelled.
- `processLinks` on a comment without `links` is not modelled, because `Object.keys` would throw there; resources always carry a link map in the model.
- A link given as a bare URL string, which JSON:API 1.0 allows, is not modelled; every link is an object with `href` and `meta`.
- A `linkParams.data` that is present but `null` is not modelled. `processLink`'s default `{}` applies only to `undefined`, and a `null` payload would throw in `commentAction`.
- `mergeIncluded` on an undefined `data` is not modelled, because a collection document always has `data`.
- JsonapiCommentsController.Reply: the access scan takes the submitted member names as given. A member that is present but not an object, which `array_keys` would reject, is not modelled; deserialisation refuses such documents first.

## Findings

| source | as written | input that shows it | evidently intended | confidence | as-written member | corrected member |
|---|---|---|---|---|---|---|
| js/src/FluidComment.js:89 | `!published && 'comment--unpublished'` leaves `false` in the class array, and `join(' ')` renders it | any published comment (status `true`): the class attribute is "comment js-comment false clearfix" | no class entry for a published comment | medium (not executed) | FluidComment.PublishedArticleHasFalseClass | FluidComment.ArticleClasses |
| js/src/FluidCommentWrapper.js:118-122 | the nested `getAndAddComments` sets `isRefreshing` to true, then the outer callback's `setState` sets it back to false | a first page whose `links.next.href` is a URL: after its callback `isRefreshing` is false while the second request is outstanding | `isRefreshing` stays true until the last page has arrived | medium (not executed) | FluidCommentWrapper.AsWrittenClearsRefreshingEarly | FluidCommentWrapper.GetAndAddCommentsRefreshing |
