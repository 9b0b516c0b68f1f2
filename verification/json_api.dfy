/**
 * The JSON:API document shapes the comment widget consumes: resource
 * identifiers, hypermedia links, resource objects and collection documents
 * with side-loaded `included` resources and pagination links.
 */
module JsonApi {
  import opened JsonValues

  /** A resource identifier object `{type, id}`. */
  datatype Identifier = Identifier(kind: string, id: string)

  /** A link's `meta.linkParams`: its relation types and the payload its action expects. */
  datatype LinkParams = LinkParams(rel: Option<seq<string>>, data: Option<seq<(string, Json)>>)

  /**
   * A link object. The `self` link lists its relation types under
   * `meta.linkRel`; every other link under `meta.linkParams.rel`.
   */
  datatype Link = Link(href: Option<string>, linkRel: Option<seq<string>>, linkParams: Option<LinkParams>)

  /**
   * A resource object. `relationships` is `None` when the member is absent;
   * a relationship's resource linkage is `None` when its `data` is null or
   * absent. `user` and `picture` are the members the widget itself adds when
   * it joins a comment with its author and the author with their picture.
   */
  datatype Resource = Resource(
    kind: string,
    id: string,
    attributes: seq<(string, Json)>,
    relationships: Option<seq<(string, Option<Identifier>)>>,
    links: seq<(string, Link)>,
    user: Option<Resource>,
    picture: Option<Resource>)

  /** A collection document: primary data, side-loaded resources and `links.next.href`. */
  datatype Document = Document(data: seq<Resource>, included: Option<seq<Resource>>, nextHref: Option<string>)
}
