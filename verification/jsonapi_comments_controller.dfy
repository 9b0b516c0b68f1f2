/**
 * The server side of the comment widget: the JSON:API Comments controller's
 * guard on query parameters of the comment collection, and the part of its
 * `reply` action that is its own — the access scan over the submitted
 * fields, the stamping of the host and parent references onto the new
 * comment, the conflict check and the `Location` rule.
 *
 * The framework's services (field names of the resource type, field
 * access, validation, the existence check, URL generation) are functions
 * handed in as parameters; their internals are not part of this model.
 */
module JsonapiCommentsController {
  import opened JsonValues

  /** The query parameter that selects a resource version in the JSON:API module of Drupal core. */
  const ResourceVersionQueryParameter: string := "resourceVersion"

  /** The query parameters the comment collection refuses, in the order they are checked. */
  const UnsupportedQueryParams: seq<string> := ["sort", "filter", "page", ResourceVersionQueryParameter]

  /** The HTTP errors the controller raises. */
  datatype HttpError =
    | BadRequest(message: string, cacheContexts: seq<string>) // an unsupported query parameter
    | AccessDenied(pointer: string, message: string)          // a submitted field the user may not edit
    | UnprocessableEntity                                     // the new comment does not validate
    | Conflict(message: string)                               // the new comment already exists

  /** The offset-and-limit pagination of a JSON:API collection request. */
  datatype OffsetPage = OffsetPage(offset: nat, size: nat)

  /** The message that refuses query parameter `param`. */
  function UnsupportedMessage(param: string): string {
    "The `" + param + "` query parameter is not yet supported by the JSON:API Comments module."
  }

  /** The error that refuses query parameter `param`, varying its cache by path and by that parameter. */
  function UnsupportedError(param: string): HttpError {
    BadRequest(UnsupportedMessage(param), ["url.path", "url.query_args:" + param])
  }

  /**
   * `getPagination`: refuses the request when its query has any of the
   * unsupported parameters, naming the first one present in the fixed
   * order; otherwise answers the offset page parsed from the request
   * (`parsed`, computed by the framework).
   */
  method GetPagination(query: set<string>, parsed: OffsetPage) returns (r: Result<OffsetPage, HttpError>)
    ensures r.Failure? <==> exists i :: 0 <= i < |UnsupportedQueryParams| && UnsupportedQueryParams[i] in query
    ensures r.Success? ==> r.value == parsed
    ensures r.Failure? ==>
              exists i :: && 0 <= i < |UnsupportedQueryParams|
                          && UnsupportedQueryParams[i] in query
                          && (forall j :: 0 <= j < i ==> UnsupportedQueryParams[j] !in query)
                          && r.error == UnsupportedError(UnsupportedQueryParams[i])
  {
    var i := 0;
    while i < |UnsupportedQueryParams|
      invariant 0 <= i <= |UnsupportedQueryParams|
      invariant forall j :: 0 <= j < i ==> UnsupportedQueryParams[j] !in query
    {
      var param := UnsupportedQueryParams[i];
      if param in query {
        return Failure(UnsupportedError(param));
      }
      i := i + 1;
    }
    return Success(parsed);
  }

  /**
   * What the reply needs of the comment resource type: its public-to-internal
   * and internal-to-public field names, which internal fields it has, and
   * whether its resources have a URL of their own.
   */
  datatype ResourceType = ResourceType(
    internalName: string -> string,
    publicName: string -> string,
    hasField: string -> bool,
    isLocatable: bool)

  /**
   * The member names of the request document's `data.attributes` and
   * `data.relationships`, in document order; `None` when the member is
   * absent or null.
   */
  datatype Submitted = Submitted(attributes: Option<seq<string>>, relationships: Option<seq<string>>)

  /** The internal names of the submitted public names that are fields of the resource type, in order. */
  function ValidNames(rt: ResourceType, names: seq<string>): (r: seq<string>)
    ensures |r| <= |names|
    ensures forall f :: f in r <==> exists n :: n in names && rt.internalName(n) == f && rt.hasField(f)
  {
    if |names| == 0 then []
    else
      var rest := ValidNames(rt, names[1..]);
      assert forall n :: n in names <==> n == names[0] || n in names[1..];
      var f := rt.internalName(names[0]);
      if rt.hasField(f) then [f] + rest else rest
  }

  /** The first of `fields` the user may not edit, if any. */
  function FirstDenied(canEdit: string -> bool, fields: seq<string>): (r: Option<string>)
    ensures r.Some? <==> exists i :: 0 <= i < |fields| && !canEdit(fields[i])
    ensures r.Some? ==> exists i :: && 0 <= i < |fields| && fields[i] == r.value && !canEdit(r.value)
                                    && forall j :: 0 <= j < i ==> canEdit(fields[j])
  {
    if |fields| == 0 then None
    else if !canEdit(fields[0]) then Some(fields[0])
    else
      var r := FirstDenied(canEdit, fields[1..]);
      assert forall i :: 0 <= i < |fields| - 1 ==> fields[1..][i] == fields[i + 1];
      r
  }

  /** Keeping the valid names of two runs of submitted names is keeping those of each run, in order. */
  lemma {:induction false} ValidNamesAppend(rt: ResourceType, a: seq<string>, b: seq<string>)
    ensures ValidNames(rt, a + b) == ValidNames(rt, a) + ValidNames(rt, b)
  {
    if |a| == 0 {
      assert a + b == b;
    } else {
      assert (a + b)[0] == a[0];
      assert (a + b)[1..] == a[1..] + b;
      ValidNamesAppend(rt, a[1..], b);
    }
  }

  /** Whether the submitted public `name` is a field of the resource type that the user may not edit. */
  predicate Denied(rt: ResourceType, canEdit: string -> bool, name: string) {
    rt.hasField(rt.internalName(name)) && !canEdit(rt.internalName(name))
  }

  /**
   * The first denied valid name is the internal name of the first submitted
   * name that is denied, counted in submission order.
   */
  lemma {:induction false} FirstDeniedOfValidNames(rt: ResourceType, canEdit: string -> bool, names: seq<string>)
    ensures var r := FirstDenied(canEdit, ValidNames(rt, names));
      && (r.Some? <==> exists i :: 0 <= i < |names| && Denied(rt, canEdit, names[i]))
      && (r.Some? ==> exists i :: && 0 <= i < |names| && Denied(rt, canEdit, names[i])
                                  && r.value == rt.internalName(names[i])
                                  && forall j :: 0 <= j < i ==> !Denied(rt, canEdit, names[j]))
  {
    if |names| > 0 {
      var tail := names[1..];
      assert forall i :: 0 <= i < |tail| ==> tail[i] == names[i + 1];
      FirstDeniedOfValidNames(rt, canEdit, tail);
      var f := rt.internalName(names[0]);
      var rest := ValidNames(rt, tail);
      if rt.hasField(f) {
        assert ValidNames(rt, names) == [f] + rest;
        assert ([f] + rest)[1..] == rest;
      }
      var r := FirstDenied(canEdit, ValidNames(rt, names));
      if !Denied(rt, canEdit, names[0]) {
        assert r == FirstDenied(canEdit, rest);
        if r.Some? {
          var i :| && 0 <= i < |tail| && Denied(rt, canEdit, tail[i]) && r.value == rt.internalName(tail[i])
                   && forall j :: 0 <= j < i ==> !Denied(rt, canEdit, tail[j]);
          assert Denied(rt, canEdit, names[i + 1]);
        }
      }
    }
  }

  /** The access error for `field` submitted under `data.<member>`: a JSON pointer to it and its public name. */
  function DeniedError(rt: ResourceType, member: string, field: string): HttpError {
    var public := rt.publicName(field);
    AccessDenied("/data/" + member + "/" + public,
                 "The current user is not allowed to POST the selected field (" + public + ").")
  }

  /**
   * The access scan of one member of `data`: refused exactly when it is
   * present and some submitted name is a field the user may not edit, with
   * the error for the first such name in submission order.
   */
  function MemberDenial(rt: ResourceType, canEdit: string -> bool, member: string, names: Option<seq<string>>)
    : (r: Option<HttpError>)
    ensures r.Some? <==> names.Some? && exists i :: 0 <= i < |names.value| && Denied(rt, canEdit, names.value[i])
    ensures r.Some? ==>
              exists i :: && 0 <= i < |names.value| && Denied(rt, canEdit, names.value[i])
                          && r.value == DeniedError(rt, member, rt.internalName(names.value[i]))
                          && forall j :: 0 <= j < i ==> !Denied(rt, canEdit, names.value[j])
  {
    match names
    case None => None
    case Some(ns) =>
      FirstDeniedOfValidNames(rt, canEdit, ns);
      match FirstDenied(canEdit, ValidNames(rt, ns))
      case None => None
      case Some(f) => Some(DeniedError(rt, member, f))
  }

  /** The access scan of the submitted fields: the attributes first, then the relationships. */
  function FieldAccessDenial(rt: ResourceType, canEdit: string -> bool, submitted: Submitted): (r: Option<HttpError>)
    ensures MemberDenial(rt, canEdit, "attributes", submitted.attributes).Some? ==>
              r == MemberDenial(rt, canEdit, "attributes", submitted.attributes)
    ensures MemberDenial(rt, canEdit, "attributes", submitted.attributes).None? ==>
              r == MemberDenial(rt, canEdit, "relationships", submitted.relationships)
  {
    match MemberDenial(rt, canEdit, "attributes", submitted.attributes)
    case Some(e) => Some(e)
    case None => MemberDenial(rt, canEdit, "relationships", submitted.relationships)
  }

  /** A submitted name whose internal name is no field of the resource type is never access-checked. */
  lemma {:induction false} UnknownNameSkipped(rt: ResourceType, before: seq<string>, name: string, after: seq<string>)
    requires !rt.hasField(rt.internalName(name))
    ensures ValidNames(rt, before + [name] + after) == ValidNames(rt, before + after)
  {
    if |before| == 0 {
      assert before + [name] + after == [name] + after;
      assert ([name] + after)[1..] == after;
      assert before + after == after;
    } else {
      assert (before + [name] + after)[1..] == before[1..] + [name] + after;
      assert (before + after)[1..] == before[1..] + after;
      UnknownNameSkipped(rt, before[1..], name, after);
    }
  }

  /** Whether some name of a present member of `data` is denied. */
  predicate AnyDenied(rt: ResourceType, canEdit: string -> bool, names: Option<seq<string>>) {
    names.Some? && exists i :: 0 <= i < |names.value| && Denied(rt, canEdit, names.value[i])
  }

  /** Whether `e` is an access error whose JSON pointer lies under `data.<member>`. */
  predicate PointsInto(e: HttpError, member: string) {
    var prefix := "/data/" + member + "/";
    e.AccessDenied? && |prefix| <= |e.pointer| && e.pointer[..|prefix|] == prefix
  }

  /** The error for a field submitted under `data.<member>` points into that member. */
  lemma DeniedErrorPointsInto(rt: ResourceType, member: string, field: string)
    ensures PointsInto(DeniedError(rt, member, field), member)
  {
    var prefix := "/data/" + member + "/";
    assert DeniedError(rt, member, field).pointer == prefix + rt.publicName(field);
  }

  /**
   * The scan refuses the request exactly when some submitted attribute or
   * relationship is denied; a denied attribute is reported before any
   * relationship, and a relationship only when no attribute is denied.
   */
  lemma FieldAccessScanOrder(rt: ResourceType, canEdit: string -> bool, submitted: Submitted)
    ensures FieldAccessDenial(rt, canEdit, submitted).Some?
            <==> AnyDenied(rt, canEdit, submitted.attributes) || AnyDenied(rt, canEdit, submitted.relationships)
    ensures AnyDenied(rt, canEdit, submitted.attributes) ==>
              PointsInto(FieldAccessDenial(rt, canEdit, submitted).value, "attributes")
    ensures !AnyDenied(rt, canEdit, submitted.attributes) && AnyDenied(rt, canEdit, submitted.relationships) ==>
              PointsInto(FieldAccessDenial(rt, canEdit, submitted).value, "relationships")
  {
    var attrs := MemberDenial(rt, canEdit, "attributes", submitted.attributes);
    var rels := MemberDenial(rt, canEdit, "relationships", submitted.relationships);
    if attrs.Some? {
      var i :| 0 <= i < |submitted.attributes.value|
               && attrs.value == DeniedError(rt, "attributes", rt.internalName(submitted.attributes.value[i]));
      DeniedErrorPointsInto(rt, "attributes", rt.internalName(submitted.attributes.value[i]));
    } else if rels.Some? {
      var i :| 0 <= i < |submitted.relationships.value|
               && rels.value == DeniedError(rt, "relationships", rt.internalName(submitted.relationships.value[i]));
      DeniedErrorPointsInto(rt, "relationships", rt.internalName(submitted.relationships.value[i]));
    }
  }

  /** A reference to an entity: its entity type and its id. */
  datatype EntityRef = EntityRef(entityTypeId: string, id: string)

  /**
   * The comment being created, with the references the reply sets: the
   * host's entity type, the host, the comment field and the parent
   * comment; `values` are its other fields as submitted.
   */
  datatype Comment = Comment(
    entityType: Option<string>,
    entityId: Option<EntityRef>,
    fieldName: Option<string>,
    pid: Option<EntityRef>,
    values: seq<(string, Json)>)

  /**
   * The block of `reply` that is its own: the comment is attached to the
   * host entity and to the comment field named by the route, and to the
   * parent comment when the route names one; the rest is kept.
   */
  function StampReferences(c: Comment, host: EntityRef, fieldName: string, parent: Option<EntityRef>): (r: Comment)
    ensures r.entityType == Some(host.entityTypeId) && r.entityId == Some(host) && r.fieldName == Some(fieldName)
    ensures r.pid == if parent.Some? then parent else c.pid
    ensures r.values == c.values
  {
    var attached := c.(entityType := Some(host.entityTypeId), entityId := Some(host), fieldName := Some(fieldName));
    if parent.Some? then attached.(pid := parent) else attached
  }

  /** Stamping twice with the same references is stamping once; what was submitted for them does not matter. */
  lemma StampReferencesIdempotent(c: Comment, d: Comment, host: EntityRef, fieldName: string, parent: EntityRef)
    requires c.values == d.values
    ensures StampReferences(StampReferences(c, host, fieldName, Some(parent)), host, fieldName, Some(parent))
            == StampReferences(c, host, fieldName, Some(parent))
    ensures StampReferences(c, host, fieldName, Some(parent)) == StampReferences(d, host, fieldName, Some(parent))
  {
  }

  /**
   * The framework behind the reply: whether the user may edit a field of
   * the submitted comment, whether a comment validates, whether it already
   * exists, and the absolute URL of a saved comment.
   */
  datatype Services = Services(
    canEdit: (Comment, string) -> bool,
    isValid: Comment -> bool,
    entityExists: Comment -> bool,
    urlOf: Comment -> string)

  /** A successful creation: the status code, the saved comment and the `Location` header, if any. */
  datatype Created = Created(status: int, comment: Comment, location: Option<string>)

  /** What a reply did: the comment it saved, if any, and its response. */
  datatype ReplyOutcome = ReplyOutcome(saved: Option<Comment>, response: Result<Created, HttpError>)

  /** The message of the conflict error. */
  const ConflictMessage: string := "Conflict: Entity already exists."

  /**
   * `reply`: scan the submitted fields when the parsed entity is fieldable,
   * stamp the references, validate, refuse a comment that already exists,
   * and otherwise save it and answer 201, with a `Location` header when the
   * resource type is locatable.
   */
  function Reply(rt: ResourceType, services: Services, parsed: Comment, fieldable: bool, submitted: Submitted,
                 host: EntityRef, fieldName: string, parent: Option<EntityRef>): (r: ReplyOutcome)
    ensures r.saved.Some? <==> r.response.Success?
    ensures r.saved.Some? ==>
              var c := r.saved.value;
              && c == StampReferences(parsed, host, fieldName, parent)
              && r.response.value.status == 201
              && r.response.value.comment == c
              && (r.response.value.location.Some? <==> rt.isLocatable)
              && (rt.isLocatable ==> r.response.value.location == Some(services.urlOf(c)))
    ensures fieldable && FieldAccessDenial(rt, (f: string) => services.canEdit(parsed, f), submitted).Some? ==>
              r.response == Failure(FieldAccessDenial(rt, (f: string) => services.canEdit(parsed, f), submitted).value)
    ensures r.response == Failure(Conflict(ConflictMessage)) <==>
              && (!fieldable || FieldAccessDenial(rt, (f: string) => services.canEdit(parsed, f), submitted).None?)
              && services.isValid(StampReferences(parsed, host, fieldName, parent))
              && services.entityExists(StampReferences(parsed, host, fieldName, parent))
    ensures r.saved.Some? <==>
              && (!fieldable || FieldAccessDenial(rt, (f: string) => services.canEdit(parsed, f), submitted).None?)
              && services.isValid(StampReferences(parsed, host, fieldName, parent))
              && !services.entityExists(StampReferences(parsed, host, fieldName, parent))
  {
    var denial := if fieldable then FieldAccessDenial(rt, (f: string) => services.canEdit(parsed, f), submitted)
                  else None;
    if denial.Some? then ReplyOutcome(None, Failure(denial.value))
    else
      var c := StampReferences(parsed, host, fieldName, parent);
      if !services.isValid(c) then ReplyOutcome(None, Failure(UnprocessableEntity))
      else if services.entityExists(c) then ReplyOutcome(None, Failure(Conflict(ConflictMessage)))
      else
        var location := if rt.isLocatable then Some(services.urlOf(c)) else None;
        ReplyOutcome(Some(c), Success(Created(201, c, location)))
  }
}
