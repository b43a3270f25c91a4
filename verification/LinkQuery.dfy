/**
 * The deprecated link-listing endpoint (`getLinks`): from the request
 * query it builds the arguments of one `findMany` call (page size,
 * cursor, order and a filter tree). The filter tree is a datatype here,
 * and `Holds` evaluates it against one link row, so that what the query
 * admits can be stated and proved.
 */
module LinkQuery {
  import opened Js

  datatype Sort = DateNewestFirst | DateOldestFirst | NameAZ | NameZA | OtherSort(code: int)

  datatype SortKey = ById | ByName
  datatype Direction = Asc | Desc
  datatype Order = Order(key: SortKey, dir: Direction)

  datatype LinkRequestQuery = LinkRequestQuery(
    sort: Option<Sort>,
    cursor: Option<int>,
    collectionId: Option<int>,
    tagId: Option<int>,
    pinnedOnly: Option<bool>,
    searchQueryString: Option<string>)

  /** The process environment the endpoint reads. `paginationTake` is
      `Number(PAGINATION_TAKE_COUNT)`, `None` standing for NaN. */
  datatype Env = Env(
    disableDeprecatedRoutes: Option<string>,
    databaseUrl: Option<string>,
    paginationTake: Option<int>)

  /** The filter tree handed to the ORM. `PinnedBy(None)` is the
      `pinnedBy: undefined` leaf, whose meaning is left to the ORM. */
  datatype Filter =
    | And(parts: seq<Filter>)
    | Or(parts: seq<Filter>)
    | CollectionAccessible(userId: int)
    | CollectionIdIs(id: int)
    | HasTagId(id: int)
    | NameContains(text: string, insensitive: bool)
    | UrlContains(text: string, insensitive: bool)
    | DescriptionContains(text: string, insensitive: bool)
    | HasVisibleTagNamed(text: string, insensitive: bool, userId: int)
    | PinnedBy(user: Option<int>)

  datatype FindManyArgs = FindManyArgs(take: int, skip: Option<int>, cursor: Option<int>, where: Filter, orderBy: Order)

  datatype Reply = Deprecated(status: int, message: string) | Query(args: FindManyArgs)

  const DeprecationMessage := "This route is deprecated, please use the new /api/v1/search route instead, for more info please refer to the api documentation."

  /** The sort order: id descending unless the query asks for another one. */
  function OrderFor(sort: Option<Sort>): (o: Order)
    ensures sort == Some(DateOldestFirst) ==> o == Order(ById, Asc)
    ensures sort == Some(NameAZ) ==> o == Order(ByName, Asc)
    ensures sort == Some(NameZA) ==> o == Order(ByName, Desc)
    ensures sort != Some(DateOldestFirst) && sort != Some(NameAZ) && sort != Some(NameZA) ==> o == Order(ById, Desc)
  {
    if sort == Some(DateNewestFirst) then Order(ById, Desc)
    else if sort == Some(DateOldestFirst) then Order(ById, Asc)
    else if sort == Some(NameAZ) then Order(ByName, Asc)
    else if sort == Some(NameZA) then Order(ByName, Desc)
    else Order(ById, Desc)
  }

  /** `Number(PAGINATION_TAKE_COUNT) || 50`. */
  function PageSize(paginationTake: Option<int>): (take: int)
    ensures take != 0
    ensures NumTruthy(paginationTake) ==> take == paginationTake.value
    ensures !NumTruthy(paginationTake) ==> take == 50
  {
    if NumTruthy(paginationTake) then paginationTake.value else 50
  }

  /** Case-insensitive matching on a PostgreSQL database only. */
  predicate IsPostgres(env: Env) {
    env.databaseUrl.Some? && StartsWith(env.databaseUrl.value, "postgresql")
  }

  /** The four search conditions, present only with a non-empty search string. */
  function SearchConditions(userId: int, query: LinkRequestQuery, insensitive: bool): (conds: seq<Filter>)
    ensures |conds| == (if StrTruthy(query.searchQueryString) then 4 else 0)
    ensures StrTruthy(query.searchQueryString) ==>
              var s := query.searchQueryString.value;
              conds == [NameContains(s, insensitive), UrlContains(s, insensitive),
                        DescriptionContains(s, insensitive), HasVisibleTagNamed(s, insensitive, userId)]
  {
    if StrTruthy(query.searchQueryString) then
      var s := query.searchQueryString.value;
      [NameContains(s, insensitive), UrlContains(s, insensitive),
       DescriptionContains(s, insensitive), HasVisibleTagNamed(s, insensitive, userId)]
    else []
  }

  function TagConditions(query: LinkRequestQuery): seq<Filter> {
    if NumTruthy(query.tagId) then [HasTagId(query.tagId.value)] else []
  }

  function CollectionConditions(query: LinkRequestQuery): seq<Filter> {
    if NumTruthy(query.collectionId) then [CollectionIdIs(query.collectionId.value)] else []
  }

  /** The pinned leaf joined with the search conditions: by OR when there
      is a search string, by AND otherwise. */
  function SearchGroup(userId: int, query: LinkRequestQuery, insensitive: bool): (g: Filter)
    ensures StrTruthy(query.searchQueryString) ==> g.Or? && |g.parts| == 5
    ensures !StrTruthy(query.searchQueryString) ==> g.And? && |g.parts| == 1
    ensures g.parts[0] == PinnedBy(if IsTrue(query.pinnedOnly) then Some(userId) else None)
    ensures g.parts[1..] == SearchConditions(userId, query, insensitive)
  {
    var pinned := PinnedBy(if IsTrue(query.pinnedOnly) then Some(userId) else None);
    var parts := [pinned] + SearchConditions(userId, query, insensitive);
    assert parts[1..] == SearchConditions(userId, query, insensitive);
    if StrTruthy(query.searchQueryString) then Or(parts) else And(parts)
  }

  /** The `where` tree: access, then the optional collection, then the tag
      or search/pinned alternatives. */
  function WhereFor(userId: int, query: LinkRequestQuery, insensitive: bool): (w: Filter)
    ensures w.And? && |w.parts| == |CollectionConditions(query)| + 2
    ensures w.parts[0] == CollectionAccessible(userId)
    ensures w.parts[1..|w.parts| - 1] == CollectionConditions(query)
    ensures w.parts[|w.parts| - 1] == Or(TagConditions(query) + [SearchGroup(userId, query, insensitive)])
  {
    var parts := [CollectionAccessible(userId)]
                 + CollectionConditions(query)
                 + [Or(TagConditions(query) + [SearchGroup(userId, query, insensitive)])];
    assert parts[1..|parts| - 1] == CollectionConditions(query);
    And(parts)
  }

  /** The endpoint: the deprecation gate, then the `findMany` arguments. */
  function GetLinks(userId: int, query: LinkRequestQuery, env: Env): (r: Reply)
    ensures env.disableDeprecatedRoutes == Some("true") ==> r == Deprecated(400, DeprecationMessage)
    ensures env.disableDeprecatedRoutes != Some("true") ==> r.Query?
    ensures r.Query? ==> r.args.take == PageSize(env.paginationTake)
    ensures r.Query? ==> (r.args.cursor.Some? <==> NumTruthy(query.cursor))
    ensures r.Query? && NumTruthy(query.cursor) ==> r.args.cursor == query.cursor && r.args.skip == Some(1)
    ensures r.Query? && !NumTruthy(query.cursor) ==> r.args.skip.None?
    ensures r.Query? ==> r.args.where.And? && |r.args.where.parts| >= 2
                         && r.args.where.parts[0] == CollectionAccessible(userId)
    ensures r.Query? ==> r.args.where == WhereFor(userId, query, IsPostgres(env))
    ensures r.Query? ==> r.args.orderBy == OrderFor(query.sort)
  {
    if env.disableDeprecatedRoutes == Some("true") then Deprecated(400, DeprecationMessage)
    else
      Query(FindManyArgs(
        PageSize(env.paginationTake),
        if NumTruthy(query.cursor) then Some(1) else None,
        if NumTruthy(query.cursor) then query.cursor else None,
        WhereFor(userId, query, IsPostgres(env)),
        OrderFor(query.sort)))
  }

  /** The sort chain as written: `order` starts at newest first and is
      reassigned by the matching branch. */
  method SortOrder(sort: Option<Sort>) returns (order: Order)
    ensures order == OrderFor(sort)
  {
    order := Order(ById, Desc);
    if sort == Some(DateNewestFirst) {
      order := Order(ById, Desc);
    } else if sort == Some(DateOldestFirst) {
      order := Order(ById, Asc);
    } else if sort == Some(NameAZ) {
      order := Order(ByName, Asc);
    } else if sort == Some(NameZA) {
      order := Order(ByName, Desc);
    }
  }

  /** The search conditions as written: four `push` calls when there is a
      search string. */
  method PushSearchConditions(userId: int, query: LinkRequestQuery, postgres: bool) returns (conditions: seq<Filter>)
    ensures conditions == SearchConditions(userId, query, postgres)
  {
    conditions := [];
    if StrTruthy(query.searchQueryString) {
      var s := query.searchQueryString.value;
      conditions := conditions + [NameContains(s, postgres)];
      conditions := conditions + [UrlContains(s, postgres)];
      conditions := conditions + [DescriptionContains(s, postgres)];
      conditions := conditions + [HasVisibleTagNamed(s, postgres, userId)];
    }
  }

  /** The endpoint as written: the sort order, the condition arrays grown by
      `push`, then the `findMany` arguments, giving what `GetLinks` describes. */
  method BuildFindMany(userId: int, query: LinkRequestQuery, env: Env) returns (r: Reply)
    ensures r == GetLinks(userId, query, env)
  {
    if env.disableDeprecatedRoutes == Some("true") {
      return Deprecated(400, DeprecationMessage);
    }
    var postgres := IsPostgres(env);
    var order := SortOrder(query.sort);
    var searchConditions := PushSearchConditions(userId, query, postgres);

    var tagCondition: seq<Filter> := [];
    if NumTruthy(query.tagId) {
      tagCondition := tagCondition + [HasTagId(query.tagId.value)];
    }

    var collectionCondition: seq<Filter> := [];
    if NumTruthy(query.collectionId) {
      collectionCondition := collectionCondition + [CollectionIdIs(query.collectionId.value)];
    }

    var pinned := PinnedBy(if IsTrue(query.pinnedOnly) then Some(userId) else None);
    var group := if StrTruthy(query.searchQueryString) then Or([pinned] + searchConditions)
                 else And([pinned] + searchConditions);
    assert group == SearchGroup(userId, query, postgres);
    assert tagCondition == TagConditions(query);
    assert collectionCondition == CollectionConditions(query);
    var where := And([CollectionAccessible(userId)] + collectionCondition + [Or(tagCondition + [group])]);
    assert where == WhereFor(userId, query, postgres);
    r := Query(FindManyArgs(
      PageSize(env.paginationTake),
      if NumTruthy(query.cursor) then Some(1) else None,
      if NumTruthy(query.cursor) then query.cursor else None,
      where,
      order));
  }

  // ---- Evaluating a filter against one link row ----

  /** A tag with its owner and the members of the collections of the links it is on. */
  datatype TagRow = TagRow(id: int, name: string, ownerId: int, linkedCollectionMembers: set<int>)

  datatype LinkRow = LinkRow(
    id: int,
    name: string,
    url: Option<string>,
    description: string,
    collectionId: int,
    collectionOwnerId: int,
    collectionMembers: set<int>,
    tags: seq<TagRow>,
    pinnedBy: set<int>)

  predicate TextMatches(field: string, text: string, insensitive: bool) {
    if insensitive then Contains(Lower(field), Lower(text)) else Contains(field, text)
  }

  /** The tag is visible to the user: the user owns it, or it is on a link
      of a collection the user is a member of. */
  predicate TagVisibleTo(t: TagRow, userId: int) {
    t.ownerId == userId || userId in t.linkedCollectionMembers
  }

  predicate AccessibleTo(link: LinkRow, userId: int) {
    link.collectionOwnerId == userId || userId in link.collectionMembers
  }

  /** Whether `link` satisfies `f`; `undefinedLeaf` is what the ORM makes of
      the `pinnedBy: undefined` leaf for this link. */
  predicate Holds(f: Filter, link: LinkRow, undefinedLeaf: bool)
    decreases f
  {
    match f
    case And(parts) => forall i :: 0 <= i < |parts| ==> Holds(parts[i], link, undefinedLeaf)
    case Or(parts) => exists i :: 0 <= i < |parts| && Holds(parts[i], link, undefinedLeaf)
    case CollectionAccessible(u) => AccessibleTo(link, u)
    case CollectionIdIs(id) => link.collectionId == id
    case HasTagId(id) => exists i :: 0 <= i < |link.tags| && link.tags[i].id == id
    case NameContains(s, ins) => TextMatches(link.name, s, ins)
    case UrlContains(s, ins) => link.url.Some? && TextMatches(link.url.value, s, ins)
    case DescriptionContains(s, ins) => TextMatches(link.description, s, ins)
    case HasVisibleTagNamed(s, ins, u) =>
      exists i :: 0 <= i < |link.tags| && TextMatches(link.tags[i].name, s, ins) && TagVisibleTo(link.tags[i], u)
    case PinnedBy(u) => if u.Some? then u.value in link.pinnedBy else undefinedLeaf
  }

  /** Every link the query admits lies in a collection the user owns or is a member of. */
  lemma ResultsAreAccessible(userId: int, query: LinkRequestQuery, env: Env, link: LinkRow, undefinedLeaf: bool)
    requires GetLinks(userId, query, env).Query?
    requires Holds(GetLinks(userId, query, env).args.where, link, undefinedLeaf)
    ensures AccessibleTo(link, userId)
  {
    var w := GetLinks(userId, query, env).args.where;
    assert Holds(w.parts[0], link, undefinedLeaf);
  }

  /** With a collection id in the query every admitted link is in that collection. */
  lemma ResultsInRequestedCollection(userId: int, query: LinkRequestQuery, env: Env, link: LinkRow, undefinedLeaf: bool)
    requires GetLinks(userId, query, env).Query? && NumTruthy(query.collectionId)
    requires Holds(GetLinks(userId, query, env).args.where, link, undefinedLeaf)
    ensures link.collectionId == query.collectionId.value
  {
    var w := GetLinks(userId, query, env).args.where;
    assert w.parts[1] == CollectionIdIs(query.collectionId.value);
    assert Holds(w.parts[1], link, undefinedLeaf);
  }

  /** The last part of the tree, holding the tag and search alternatives. */
  lemma AlternativesHold(userId: int, query: LinkRequestQuery, insensitive: bool, link: LinkRow, undefinedLeaf: bool)
    requires Holds(WhereFor(userId, query, insensitive), link, undefinedLeaf)
    ensures Holds(Or(TagConditions(query) + [SearchGroup(userId, query, insensitive)]), link, undefinedLeaf)
  {
    var w := WhereFor(userId, query, insensitive);
    assert w.parts[|w.parts| - 1] == Or(TagConditions(query) + [SearchGroup(userId, query, insensitive)]);
  }

  /** Pinned-only without a search or tag filter admits only links the user pinned. */
  lemma PinnedOnlyAdmitsPinned(userId: int, query: LinkRequestQuery, insensitive: bool, link: LinkRow, undefinedLeaf: bool)
    requires IsTrue(query.pinnedOnly) && !StrTruthy(query.searchQueryString) && !NumTruthy(query.tagId)
    requires Holds(WhereFor(userId, query, insensitive), link, undefinedLeaf)
    ensures userId in link.pinnedBy
  {
    AlternativesHold(userId, query, insensitive, link, undefinedLeaf);
    var g := SearchGroup(userId, query, insensitive);
    assert TagConditions(query) + [g] == [g];
    assert Holds(g, link, undefinedLeaf);
    assert Holds(g.parts[0], link, undefinedLeaf);
  }

  /** With a search string, a search group whose pinned leaf fails holds
      only through the name, url, description or a visible tag's name. */
  lemma SearchGroupMatches(userId: int, query: LinkRequestQuery, insensitive: bool, link: LinkRow, undefinedLeaf: bool)
    requires StrTruthy(query.searchQueryString)
    requires !Holds(PinnedBy(if IsTrue(query.pinnedOnly) then Some(userId) else None), link, undefinedLeaf)
    requires Holds(SearchGroup(userId, query, insensitive), link, undefinedLeaf)
    ensures var s := query.searchQueryString.value;
            || TextMatches(link.name, s, insensitive)
            || (link.url.Some? && TextMatches(link.url.value, s, insensitive))
            || TextMatches(link.description, s, insensitive)
            || exists i :: 0 <= i < |link.tags| && TextMatches(link.tags[i].name, s, insensitive)
                                                && TagVisibleTo(link.tags[i], userId)
  {
    var g := SearchGroup(userId, query, insensitive);
    var j :| 0 <= j < |g.parts| && Holds(g.parts[j], link, undefinedLeaf);
    assert j != 0;
    var sc := SearchConditions(userId, query, insensitive);
    assert g.parts[j] == g.parts[1..][j - 1] == sc[j - 1];
  }

  /** A search that the pinned leaf does not satisfy admits a link only through
      a tag-id match, or its name, url, description, or a visible tag's name. */
  lemma SearchAdmitsOnlyMatches(userId: int, query: LinkRequestQuery, insensitive: bool, link: LinkRow, undefinedLeaf: bool)
    requires StrTruthy(query.searchQueryString)
    requires !Holds(PinnedBy(if IsTrue(query.pinnedOnly) then Some(userId) else None), link, undefinedLeaf)
    requires Holds(WhereFor(userId, query, insensitive), link, undefinedLeaf)
    ensures var s := query.searchQueryString.value;
            || Holds(Or(TagConditions(query)), link, undefinedLeaf)
            || TextMatches(link.name, s, insensitive)
            || (link.url.Some? && TextMatches(link.url.value, s, insensitive))
            || TextMatches(link.description, s, insensitive)
            || exists i :: 0 <= i < |link.tags| && TextMatches(link.tags[i].name, s, insensitive)
                                                && TagVisibleTo(link.tags[i], userId)
  {
    AlternativesHold(userId, query, insensitive, link, undefinedLeaf);
    var tc := TagConditions(query);
    var g := SearchGroup(userId, query, insensitive);
    var alts := tc + [g];
    var i :| 0 <= i < |alts| && Holds(alts[i], link, undefinedLeaf);
    if i < |tc| {
      assert alts[i] == tc[i];
    } else {
      assert alts[i] == g;
      SearchGroupMatches(userId, query, insensitive, link, undefinedLeaf);
    }
  }
}
