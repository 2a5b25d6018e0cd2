/**
 * The feed service: limit clamping, the choice of a visibility mode from
 * the viewer and the requested filter, the sizes of the three slices, the
 * default city, and the projection of the three repository results.
 *
 * The three repository calls are independent; they are modelled as the
 * query parameters the service hands to each of them (`FeedPlan`), and the
 * rows they return are inputs of `BuildResponse`.
 */
module FeedService {
  import opened Common
  import opened FeedRepo

  /** The filters a viewer may ask for. */
  datatype FeedFilter = Following | MyCampus | AllCampuses | PublicFilter

  datatype Viewer = Viewer(isAuthenticated: bool, userId: Option<string>, filter: Option<FeedFilter>)

  /** The query object; `None` for `limit` stands for a missing or NaN limit. */
  datatype FeedQuery = FeedQuery(
    limit: Option<int>,
    includeEvents: Option<bool>,
    campusIds: Option<seq<string>>,
    themeIds: Option<seq<string>>,
    cursor: Option<string>)

  // -----------------------------------------------------------------------
  // Limit and slices

  /** `Math.min(Math.max(query.limit || 20, 1), 50)`. */
  function EffectiveLimit(limit: Option<int>): (r: int)
    ensures 1 <= r <= 50
    ensures limit.None? || limit.value == 0 ==> r == 20
    ensures limit.Some? && 1 <= limit.value <= 50 ==> r == limit.value
    ensures limit.Some? && limit.value != 0 && limit.value < 1 ==> r == 1
    ensures limit.Some? && limit.value > 50 ==> r == 50
  {
    var l := if limit.None? || limit.value == 0 then 20 else limit.value;
    if l < 1 then 1 else if l > 50 then 50 else l
  }

  /** `Math.ceil(a / b)` for a non-negative numerator. */
  function CeilDiv(a: nat, b: nat): (r: nat)
    requires b > 0
    ensures r * b >= a && (r == 0 || (r - 1) * b < a)
  {
    (a + b - 1) / b
  }

  datatype Slices = Slices(institutional: nat, publications: nat, city: nat)

  /** About a quarter, a half and a quarter of the limit, capped at 5, 10 and 5. */
  function SliceSizes(limit: int): (s: Slices)
    requires 1 <= limit <= 50
    ensures s.institutional <= 5 && s.institutional <= CeilDiv(limit, 4)
    ensures s.institutional == 5 || s.institutional == CeilDiv(limit, 4)
    ensures s.publications <= 10 && s.publications <= CeilDiv(limit, 2)
    ensures s.publications == 10 || s.publications == CeilDiv(limit, 2)
    ensures s.city == s.institutional
  {
    var quarter := CeilDiv(limit, 4);
    var half := CeilDiv(limit, 2);
    Slices(if quarter < 5 then quarter else 5, if half < 10 then half else 10, if quarter < 5 then quarter else 5)
  }

  /** Every slice asks for at least one row; together they never exceed 20. */
  lemma SliceBounds(limit: int)
    requires 1 <= limit <= 50
    ensures var s := SliceSizes(limit);
      1 <= s.institutional <= 5 && 1 <= s.publications <= 10 && 1 <= s.city <= 5 &&
      s.institutional + s.publications + s.city <= 20
  {
  }

  /**
   * Up to a limit of 20 each slice is exactly the ceiling of its share of
   * the limit; above it the caps 5, 10 and 5 apply.
   */
  lemma SliceShares(limit: int)
    requires 1 <= limit <= 50
    ensures var s := SliceSizes(limit);
      && (limit <= 20 ==> 4 * s.institutional >= limit && 4 * (s.institutional - 1) < limit)
      && (limit <= 20 ==> 2 * s.publications >= limit && 2 * (s.publications - 1) < limit)
      && s.city == s.institutional
    ensures limit >= 20 ==> SliceSizes(limit) == Slices(5, 10, 5)
  {
  }

  // -----------------------------------------------------------------------
  // Visibility mode and the plan of the three queries

  /** The mode a viewer gets: anonymous viewers always get PUBLIC_ONLY. */
  function ModeFor(viewer: Viewer): (m: VisibilityMode)
    ensures !viewer.isAuthenticated ==> m == PUBLIC_ONLY
    ensures m == FOLLOWING <==> viewer.isAuthenticated && viewer.filter == Some(Following)
    ensures m == MY_CAMPUS <==> viewer.isAuthenticated && viewer.filter == Some(MyCampus)
    ensures m == ALL_CAMPUSES <==> viewer.isAuthenticated && viewer.filter == Some(AllCampuses)
  {
    if !viewer.isAuthenticated then PUBLIC_ONLY
    else match viewer.filter
      case Some(Following) => FOLLOWING
      case Some(MyCampus) => MY_CAMPUS
      case Some(AllCampuses) => ALL_CAMPUSES
      case _ => PUBLIC_ONLY
  }

  /** The parameters of the three repository calls. */
  datatype FeedPlan = FeedPlan(
    institutionalLimit: int,
    member: MemberQuery,
    city: string,
    cityLimit: int)

  /** The viewer's campus, looked up only for an authenticated viewer with a user id. */
  function ViewerCampus(viewer: Viewer, dir: FeedDirectory): UserCampus {
    if viewer.isAuthenticated && Truthy(viewer.userId) then GetUserCampus(dir, viewer.userId.value)
    else UserCampus(None, None)
  }

  /** The followed users, fetched only for an authenticated viewer with a user id. */
  function ViewerFollows(viewer: Viewer, dir: FeedDirectory): seq<string> {
    if viewer.isAuthenticated && Truthy(viewer.userId) then GetFollowedUserIds(dir, viewer.userId.value)
    else []
  }

  /** `getFeed`, up to the three repository calls. */
  method GetFeedPlan(query: FeedQuery, viewer: Viewer, dir: FeedDirectory) returns (plan: FeedPlan)
    ensures var s := SliceSizes(EffectiveLimit(query.limit));
      plan.institutionalLimit == s.institutional && plan.member.limit == s.publications &&
      plan.cityLimit == s.city
    ensures plan.member.visibilityMode == ModeFor(viewer)
    ensures plan.member.followedUserIds == Some(ViewerFollows(viewer, dir))
    ensures plan.member.userCampusId == ViewerCampus(viewer, dir).campusId
    ensures plan.member.userId == viewer.userId
    ensures plan.member.includeEvents == (query.includeEvents.None? || query.includeEvents.value)
    ensures plan.member.campusIds == query.campusIds && plan.member.themeIds == query.themeIds
    ensures plan.member.cursor.None?
    ensures plan.city == if ViewerCampus(viewer, dir).city.Some? then ViewerCampus(viewer, dir).city.value else "Paris"
  {
    var limit := EffectiveLimit(query.limit);

    var userCampusId: Option<string> := None;
    var userCity: Option<string> := None;
    if viewer.isAuthenticated && Truthy(viewer.userId) {
      var u := GetUserCampus(dir, viewer.userId.value);
      userCampusId := u.campusId;
      userCity := u.city;
    }
    var effectiveCity := if userCity.Some? then userCity.value else "Paris";

    var visibilityMode := PUBLIC_ONLY;
    var followedUserIds: seq<string> := [];
    if !viewer.isAuthenticated {
      visibilityMode := PUBLIC_ONLY;
    } else {
      followedUserIds := if Truthy(viewer.userId) then GetFollowedUserIds(dir, viewer.userId.value) else [];
      var filter := if viewer.filter.Some? then viewer.filter.value else PublicFilter;
      match filter {
        case Following => visibilityMode := FOLLOWING;
        case MyCampus => visibilityMode := MY_CAMPUS;
        case AllCampuses => visibilityMode := ALL_CAMPUSES;
        case PublicFilter => visibilityMode := PUBLIC_ONLY;
      }
    }

    var slice := SliceSizes(limit);
    var includeEvents := if query.includeEvents.Some? then query.includeEvents.value else true;
    plan := FeedPlan(
      slice.institutional,
      MemberQuery(slice.publications, includeEvents, query.campusIds, query.themeIds, visibilityMode,
                  viewer.userId, None, Some(followedUserIds), userCampusId),
      effectiveCity,
      slice.city);
  }

  /** An anonymous viewer gets PUBLIC_ONLY, nobody followed and no campus, whatever the filter. */
  lemma AnonymousViewer(viewer: Viewer, dir: FeedDirectory)
    requires !viewer.isAuthenticated
    ensures ModeFor(viewer) == PUBLIC_ONLY && ViewerFollows(viewer, dir) == []
    ensures ViewerCampus(viewer, dir) == UserCampus(None, None)
  {
  }

  /** For an anonymous viewer without a user id only PUBLIC posts reach the feed. */
  lemma AnonymousSeesOnlyPublic(q: MemberQuery, p: Publication)
    requires q.visibilityMode == PUBLIC_ONLY && !Truthy(q.userId)
    ensures Admitted(q, p) ==> p.visibility == PUBLIC
  {
  }

  /** The filter an authenticated viewer asked for decides the mode; no filter means PUBLIC_ONLY. */
  lemma AuthenticatedMode(viewer: Viewer)
    requires viewer.isAuthenticated
    ensures viewer.filter == Some(Following) ==> ModeFor(viewer) == FOLLOWING
    ensures viewer.filter == Some(MyCampus) ==> ModeFor(viewer) == MY_CAMPUS
    ensures viewer.filter == Some(AllCampuses) ==> ModeFor(viewer) == ALL_CAMPUSES
    ensures viewer.filter.None? || viewer.filter == Some(PublicFilter) ==> ModeFor(viewer) == PUBLIC_ONLY
  {
  }

  /** Without a campus city the city news is that of Paris. */
  lemma DefaultCity(viewer: Viewer, dir: FeedDirectory)
    ensures !viewer.isAuthenticated ==> ViewerCampus(viewer, dir).city.None?
    ensures Truthy(viewer.userId) && viewer.userId.value !in dir.campusOf ==> ViewerCampus(viewer, dir).city.None?
  {
  }

  // -----------------------------------------------------------------------
  // Projection of the rows

  datatype InstitutionalRow = InstitutionalRow(
    id: string, title: string, excerpt: Option<string>, isFeatured: Option<bool>, publishedAt: string)

  datatype MemberRow = MemberRow(
    id: string, authorId: string, authorDisplayName: string, contentHtml: Option<string>, publishedAt: string)

  datatype CityRow = CityRow(
    id: string, city: string, title: string, excerpt: Option<string>, url: Option<string>, publishedAt: string)

  datatype NewsItem = NewsItem(
    id: string, title: string, summary: Option<string>, imageUrl: Option<string>,
    category: Option<string>, publishedAt: string, isImportant: bool)

  datatype PostAuthor = PostAuthor(id: string, displayName: string, avatarUrl: Option<string>, isFollowed: bool)

  datatype PostItem = PostItem(
    id: string, author: PostAuthor, content: string, imageUrl: Option<string>,
    likesCount: int, commentsCount: int, publishedAt: string, isLiked: bool)

  datatype CityNewsItem = CityNewsItem(
    id: string, title: string, summary: Option<string>, source: Option<string>, city: string,
    publishedAt: string, category: Option<string>, imageUrl: Option<string>, url: Option<string>)

  datatype FeedResponse = FeedResponse(
    institutionalNews: seq<NewsItem>, memberPosts: seq<PostItem>, cityNews: seq<CityNewsItem>)

  /**
   * `extractTextFromHtml`: "" for a null or empty document; otherwise the
   * trimmed result of the two tag-replacing regular expressions, which are
   * given as `stripTags`.
   */
  function ExtractTextFromHtml(html: Option<string>, stripTags: string -> string): (r: string)
    ensures !Truthy(html) ==> r == ""
    ensures IsTrimmed(r)
  {
    if !Truthy(html) then ""
    else
      TrimShape(stripTags(html.value));
      Trim(stripTags(html.value))
  }

  /** `extractFirstImageFromHtml`: null for a null or empty document; `firstImageSrc` is the regex match. */
  function ExtractFirstImageFromHtml(html: Option<string>, firstImageSrc: string -> Option<string>): (r: Option<string>)
    ensures !Truthy(html) ==> r.None?
  {
    if !Truthy(html) then None else firstImageSrc(html.value)
  }

  function ToNewsItem(n: InstitutionalRow): NewsItem {
    NewsItem(n.id, n.title, n.excerpt, None, None, n.publishedAt, n.isFeatured == Some(true))
  }

  function ToPostItem(p: MemberRow, stripTags: string -> string, firstImageSrc: string -> Option<string>): PostItem {
    PostItem(p.id, PostAuthor(p.authorId, p.authorDisplayName, None, false),
             ExtractTextFromHtml(p.contentHtml, stripTags), ExtractFirstImageFromHtml(p.contentHtml, firstImageSrc),
             0, 0, p.publishedAt, false)
  }

  function ToCityNewsItem(n: CityRow): CityNewsItem {
    CityNewsItem(n.id, n.title, n.excerpt, None, n.city, n.publishedAt, None, None, n.url)
  }

  /** The three slices, side by side, each mapped element-wise: no merge, no dedup. */
  function BuildResponse(inst: seq<InstitutionalRow>, pubs: seq<MemberRow>, city: seq<CityRow>,
                         stripTags: string -> string, firstImageSrc: string -> Option<string>): (r: FeedResponse)
    ensures |r.institutionalNews| == |inst| && |r.memberPosts| == |pubs| && |r.cityNews| == |city|
    ensures forall i | 0 <= i < |inst| ::
              && r.institutionalNews[i].id == inst[i].id
              && r.institutionalNews[i].summary == inst[i].excerpt
              && r.institutionalNews[i].isImportant == (inst[i].isFeatured == Some(true))
    ensures forall i | 0 <= i < |pubs| ::
              && r.memberPosts[i].id == pubs[i].id
              && r.memberPosts[i].author.id == pubs[i].authorId
              && r.memberPosts[i].content == ExtractTextFromHtml(pubs[i].contentHtml, stripTags)
              && r.memberPosts[i].imageUrl == ExtractFirstImageFromHtml(pubs[i].contentHtml, firstImageSrc)
    ensures forall i | 0 <= i < |pubs| ::
              !Truthy(pubs[i].contentHtml) ==> r.memberPosts[i].content == "" && r.memberPosts[i].imageUrl.None?
    ensures forall i | 0 <= i < |city| ::
              && r.cityNews[i].id == city[i].id
              && r.cityNews[i].city == city[i].city
              && r.cityNews[i].url == city[i].url
  {
    FeedResponse(
      seq(|inst|, i requires 0 <= i < |inst| => ToNewsItem(inst[i])),
      seq(|pubs|, i requires 0 <= i < |pubs| => ToPostItem(pubs[i], stripTags, firstImageSrc)),
      seq(|city|, i requires 0 <= i < |city| => ToCityNewsItem(city[i])))
  }
}
