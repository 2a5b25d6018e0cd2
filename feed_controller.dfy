/**
 * The feed controller: turns the query string of `GET /feed` and the
 * optional authenticated user into the service's query and viewer.
 */
module FeedController {
  import opened Common
  import opened FeedService
  import FeedRepo

  /** A query-string parameter: one value, or the list of a repeated key. */
  datatype QueryValue = QStr(s: string) | QList(items: seq<string>)

  /** JavaScript truthiness of a parameter: a list is always truthy. */
  predicate QTruthy(q: Option<QueryValue>) {
    q.Some? && q.value != QStr("")
  }

  /** `String(v)`: a list is joined with ",". */
  function QueryString(v: QueryValue): string {
    match v
    case QStr(s) => s
    case QList(xs) => Join(xs, ",")
  }

  /** `parseMulti`: absent or empty gives undefined, a list stays a list, a scalar becomes a one-element list. */
  function ParseMulti(q: Option<QueryValue>): (r: Option<seq<string>>)
    ensures r.None? <==> !QTruthy(q)
    ensures QTruthy(q) && q.value.QList? ==> r == Some(q.value.items)
    ensures QTruthy(q) && q.value.QStr? ==> r == Some([q.value.s])
  {
    if !QTruthy(q) then None
    else match q.value
      case QList(xs) => Some(xs)
      case QStr(s) => Some([s])
  }

  /** `VALID_FILTERS.includes(f)`, as a parser. */
  function ParseFilter(f: string): (r: Option<FeedFilter>)
    ensures r == Some(Following) <==> f == "following"
    ensures r == Some(MyCampus) <==> f == "my_campus"
    ensures r == Some(AllCampuses) <==> f == "all_campuses"
    ensures r == Some(PublicFilter) <==> f == "public"
  {
    if f == "following" then Some(Following)
    else if f == "my_campus" then Some(MyCampus)
    else if f == "all_campuses" then Some(AllCampuses)
    else if f == "public" then Some(PublicFilter)
    else None
  }

  /** The query parameters the controller reads; `limit` carries `Number(...)` of a non-empty value. */
  datatype FeedRequest = FeedRequest(
    limit: Option<int>,
    cursor: Option<QueryValue>,
    campusIds: Option<QueryValue>,
    themeIds: Option<QueryValue>,
    includeEvents: Option<QueryValue>,
    filter: Option<QueryValue>,
    user: Option<string>)

  /** `getFeed`'s translation of the request into the service's query and viewer. */
  function ParseFeedRequest(req: FeedRequest): (r: (FeedQuery, Viewer))
    ensures r.0.limit == Some(if req.limit.Some? then req.limit.value else 20)
    ensures r.0.cursor.Some? <==> QTruthy(req.cursor)
    ensures r.0.cursor.Some? ==> r.0.cursor.value == QueryString(req.cursor.value)
    ensures r.0.campusIds == ParseMulti(req.campusIds) && r.0.themeIds == ParseMulti(req.themeIds)
    ensures r.0.includeEvents.Some?
    ensures !r.0.includeEvents.value <==> req.includeEvents.Some? && QueryString(req.includeEvents.value) == "false"
    ensures r.1.isAuthenticated <==> req.user.Some?
    ensures r.1.userId == req.user
    ensures r.1.filter.Some? <==> req.user.Some? && QTruthy(req.filter) && ParseFilter(QueryString(req.filter.value)).Some?
    ensures r.1.filter.Some? ==> r.1.filter == ParseFilter(QueryString(req.filter.value))
  {
    var limit := if req.limit.Some? then req.limit.value else 20;
    var cursor := if QTruthy(req.cursor) then Some(QueryString(req.cursor.value)) else None;
    var includeEvents := if QTruthy(req.includeEvents) then QueryString(req.includeEvents.value) != "false" else true;
    var filter := if req.user.Some? && QTruthy(req.filter) then ParseFilter(QueryString(req.filter.value)) else None;
    (FeedQuery(Some(limit), Some(includeEvents), ParseMulti(req.campusIds), ParseMulti(req.themeIds), cursor),
     Viewer(req.user.Some?, req.user, filter))
  }

  /** A request without a user is served in PUBLIC_ONLY mode, whatever filter it names. */
  lemma AnonymousRequestIsPublicOnly(req: FeedRequest)
    requires req.user.None?
    ensures ParseFeedRequest(req).1.filter.None?
    ensures ModeFor(ParseFeedRequest(req).1) == FeedRepo.PUBLIC_ONLY
  {
  }

  /** An unknown filter name is dropped, so the signed-in viewer falls back to PUBLIC_ONLY. */
  lemma UnknownFilterFallsBack(req: FeedRequest)
    requires req.user.Some? && req.filter.Some?
    requires QueryString(req.filter.value) !in {"following", "my_campus", "all_campuses", "public"}
    ensures ModeFor(ParseFeedRequest(req).1) == FeedRepo.PUBLIC_ONLY
  {
  }

  /** The controller always hands the service a limit, so the effective limit is 20 by default. */
  lemma DefaultLimit(req: FeedRequest)
    requires req.limit.None?
    ensures EffectiveLimit(ParseFeedRequest(req).0.limit) == 20
  {
  }

  /** Only the literal text "false" switches events off. */
  lemma IncludeEventsText(req: FeedRequest)
    ensures req.includeEvents == Some(QStr("false")) ==> ParseFeedRequest(req).0.includeEvents == Some(false)
    ensures req.includeEvents == Some(QStr("0")) ==> ParseFeedRequest(req).0.includeEvents == Some(true)
    ensures req.includeEvents == Some(QList(["false"])) ==> ParseFeedRequest(req).0.includeEvents == Some(false)
    ensures req.includeEvents == Some(QList(["false", "false"])) ==> ParseFeedRequest(req).0.includeEvents == Some(true)
  {
  }
}
