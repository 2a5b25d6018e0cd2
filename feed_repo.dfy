/**
 * The query builders of the feed repository: the WHERE clauses and the
 * positional parameter list (`$1`, `$2`, ...) sent to the database for
 * member publications, institutional news and city news, and the two
 * look-ups of a viewer's campus and followed users.
 *
 * Each clause has a denotation, a predicate over a row; a placeholder `$k`
 * denotes `values[k - 1]`.  Timestamps and uuids are compared as canonical
 * text, so the SQL casts `::timestamptz` and `::uuid` are the identity here.
 */
module FeedRepo {
  import opened Common
  import FeedCursor

  type Cursor = FeedCursor.Cursor

  /** The campus and city of a user, as `getUserCampus` returns them. */
  datatype UserCampus = UserCampus(campusId: Option<string>, city: Option<string>)

  /** The database rows read by `getUserCampus` and `getFollowedUserIds`. */
  datatype FeedDirectory = FeedDirectory(campusOf: map<string, UserCampus>, follows: map<string, seq<string>>)

  /** `getUserCampus`: a missing user yields no campus and no city. */
  function GetUserCampus(dir: FeedDirectory, userId: string): (u: UserCampus)
    ensures userId !in dir.campusOf ==> u == UserCampus(None, None)
  {
    if userId in dir.campusOf then dir.campusOf[userId] else UserCampus(None, None)
  }

  /** `getFollowedUserIds`: nobody followed yields the empty list. */
  function GetFollowedUserIds(dir: FeedDirectory, userId: string): (ids: seq<string>)
    ensures userId !in dir.follows ==> ids == []
  {
    if userId in dir.follows then dir.follows[userId] else []
  }

  datatype Visibility = PUBLIC | CAMPUS_ONLY | PRIVATE
  datatype PublicationType = POST | EVENT | CAMPUS_ANNOUNCEMENT

  /** The columns of `publications` that the WHERE clauses read. */
  datatype Publication = Publication(
    id: string,
    kind: PublicationType,
    visibility: Visibility,
    authorUserId: string,
    campusId: Option<string>,
    themeId: Option<string>,
    publishedAt: string)

  datatype VisibilityMode = PUBLIC_ONLY | MY_CAMPUS | ALL_CAMPUSES | FOLLOWING

  /** A bound parameter: text (timestamp, uuid, city), a uuid array, or an integer. */
  datatype SqlValue = Text(text: string) | TextArray(items: seq<string>) | Int(n: int)

  /** The WHERE fragments of `listMemberPublications`; placeholders are 1-based. */
  datatype Clause =
    | KeysetBefore(tIndex: nat, idIndex: nat)        // (p.published_at, p.id) < ($t::timestamptz, $id::uuid)
    | NotEvent                                       // p.type <> 'EVENT'
    | IsPublic                                       // p.visibility = 'PUBLIC'
    | PublicOrAuthor(authorIndex: nat)               // (p.visibility = 'PUBLIC' OR p.author_user_id = $a::uuid)
    | PublicOrCampus(campusIndex: nat)               // (p.visibility = 'PUBLIC' OR (p.visibility = 'CAMPUS_ONLY' AND p.campus_id = $c::uuid))
    | PublicOrCampusOrAuthor(campusIndex: nat, authorIndex: nat)
    | PublicOrCampusOnly                             // p.visibility IN ('PUBLIC', 'CAMPUS_ONLY')
    | PublicOrCampusOnlyOrAuthor(authorIndex: nat)   // (p.visibility IN (...) OR p.author_user_id = $a::uuid)
    | AuthorIs(authorIndex: nat)                     // p.author_user_id = $a::uuid
    | AuthorAmong(authorsIndex: nat)                 // p.author_user_id = ANY($a::uuid[])
    | Never                                          // 1 = 0
    | CampusAmong(campusesIndex: nat)                // p.campus_id = ANY($c::uuid[])
    | ThemeAmong(themesIndex: nat)                   // p.theme_id = ANY($t::uuid[])

  /** The parameters of `listMemberPublications`. */
  datatype MemberQuery = MemberQuery(
    limit: int,
    includeEvents: bool,
    campusIds: Option<seq<string>>,
    themeIds: Option<seq<string>>,
    visibilityMode: VisibilityMode,
    userId: Option<string>,
    cursor: Option<Cursor>,
    followedUserIds: Option<seq<string>>,
    userCampusId: Option<string>)

  // -----------------------------------------------------------------------
  // Denotation of clauses

  /** Lexicographic order on text, as Postgres orders canonical timestamps and uuids. */
  predicate TextLess(a: string, b: string) {
    (|a| < |b| && a == b[..|a|]) ||
    (exists k :: 0 <= k < |a| && k < |b| && a[..k] == b[..k] && a[k] < b[k])
  }

  /** The row comparison `(published_at, id) < (t, id)`. */
  predicate RowBefore(publishedAt: string, id: string, t: string, cursorId: string) {
    TextLess(publishedAt, t) || (publishedAt == t && TextLess(id, cursorId))
  }

  predicate IsTextAt(values: seq<SqlValue>, k: nat) {
    1 <= k <= |values| && values[k - 1].Text?
  }

  predicate IsArrayAt(values: seq<SqlValue>, k: nat) {
    1 <= k <= |values| && values[k - 1].TextArray?
  }

  /** Every placeholder of `c` names an existing value of the right kind. */
  predicate WellFormed(c: Clause, values: seq<SqlValue>) {
    match c
    case KeysetBefore(t, i) => IsTextAt(values, t) && IsTextAt(values, i)
    case PublicOrAuthor(a) => IsTextAt(values, a)
    case PublicOrCampus(k) => IsTextAt(values, k)
    case PublicOrCampusOrAuthor(k, a) => IsTextAt(values, k) && IsTextAt(values, a)
    case PublicOrCampusOnlyOrAuthor(a) => IsTextAt(values, a)
    case AuthorIs(a) => IsTextAt(values, a)
    case AuthorAmong(a) => IsArrayAt(values, a)
    case CampusAmong(k) => IsArrayAt(values, k)
    case ThemeAmong(k) => IsArrayAt(values, k)
    case _ => true
  }

  predicate AllWellFormed(wheres: seq<Clause>, values: seq<SqlValue>) {
    forall i | 0 <= i < |wheres| :: WellFormed(wheres[i], values)
  }

  function TextAt(values: seq<SqlValue>, k: nat): string
    requires IsTextAt(values, k)
  {
    values[k - 1].text
  }

  function ArrayAt(values: seq<SqlValue>, k: nat): seq<string>
    requires IsArrayAt(values, k)
  {
    values[k - 1].items
  }

  /** What a well-formed clause says about a publication row. */
  predicate Holds(c: Clause, values: seq<SqlValue>, p: Publication)
    requires WellFormed(c, values)
  {
    match c
    case KeysetBefore(t, i) => RowBefore(p.publishedAt, p.id, TextAt(values, t), TextAt(values, i))
    case NotEvent => p.kind != EVENT
    case IsPublic => p.visibility == PUBLIC
    case PublicOrAuthor(a) => p.visibility == PUBLIC || p.authorUserId == TextAt(values, a)
    case PublicOrCampus(k) =>
      p.visibility == PUBLIC || (p.visibility == CAMPUS_ONLY && p.campusId == Some(TextAt(values, k)))
    case PublicOrCampusOrAuthor(k, a) =>
      p.visibility == PUBLIC || (p.visibility == CAMPUS_ONLY && p.campusId == Some(TextAt(values, k))) ||
      p.authorUserId == TextAt(values, a)
    case PublicOrCampusOnly => p.visibility == PUBLIC || p.visibility == CAMPUS_ONLY
    case PublicOrCampusOnlyOrAuthor(a) =>
      p.visibility == PUBLIC || p.visibility == CAMPUS_ONLY || p.authorUserId == TextAt(values, a)
    case AuthorIs(a) => p.authorUserId == TextAt(values, a)
    case AuthorAmong(a) => p.authorUserId in ArrayAt(values, a)
    case Never => false
    // a NULL campus or theme is never `= ANY(...)`
    case CampusAmong(k) => p.campusId.Some? && p.campusId.value in ArrayAt(values, k)
    case ThemeAmong(k) => p.themeId.Some? && p.themeId.value in ArrayAt(values, k)
  }

  /** `WHERE c1 AND c2 AND ...`; no clause at all means no WHERE, which admits every row. */
  predicate AdmitsAll(wheres: seq<Clause>, values: seq<SqlValue>, p: Publication)
    requires AllWellFormed(wheres, values)
  {
    forall i | 0 <= i < |wheres| :: Holds(wheres[i], values, p)
  }

  // -----------------------------------------------------------------------
  // What each visibility mode and filter claims to admit

  /** The viewer's own posts are visible when a (truthy) user id is given. */
  predicate OwnPost(q: MemberQuery, p: Publication) {
    Truthy(q.userId) && p.authorUserId == q.userId.value
  }

  predicate PublicOrOwn(q: MemberQuery, p: Publication) {
    p.visibility == PUBLIC || OwnPost(q, p)
  }

  predicate ModeAdmits(q: MemberQuery, p: Publication) {
    match q.visibilityMode
    case PUBLIC_ONLY => PublicOrOwn(q, p)
    case MY_CAMPUS =>
      if Truthy(q.userCampusId) then
        PublicOrOwn(q, p) || (p.visibility == CAMPUS_ONLY && p.campusId == q.userCampusId)
      else PublicOrOwn(q, p)
    case ALL_CAMPUSES => p.visibility != PRIVATE || OwnPost(q, p)
    case FOLLOWING =>
      Truthy(q.userId) &&
      (p.authorUserId == q.userId.value ||
       (q.followedUserIds.Some? && p.authorUserId in q.followedUserIds.value))
  }

  predicate NonEmptyList(o: Option<seq<string>>) {
    o.Some? && |o.value| > 0
  }

  /** The narrowing filters: keyset cursor, events, campuses and themes. */
  predicate FiltersAdmit(q: MemberQuery, p: Publication) {
    (q.cursor.Some? ==> RowBefore(p.publishedAt, p.id, q.cursor.value.publishedAtIso, q.cursor.value.id)) &&
    (!q.includeEvents ==> p.kind != EVENT) &&
    (NonEmptyList(q.campusIds) ==> p.campusId.Some? && p.campusId.value in q.campusIds.value) &&
    (NonEmptyList(q.themeIds) ==> p.themeId.Some? && p.themeId.value in q.themeIds.value)
  }

  predicate Admitted(q: MemberQuery, p: Publication) {
    FiltersAdmit(q, p) && ModeAdmits(q, p)
  }

  /** The number of values the visibility mode binds. */
  function ModeValueCount(q: MemberQuery): nat {
    match q.visibilityMode
    case PUBLIC_ONLY => if Truthy(q.userId) then 1 else 0
    case MY_CAMPUS => (if Truthy(q.userCampusId) then 1 else 0) + (if Truthy(q.userId) then 1 else 0)
    case ALL_CAMPUSES => if Truthy(q.userId) then 1 else 0
    case FOLLOWING => if Truthy(q.userId) then 1 else 0
  }

  /** The number of bound values: cursor pair, mode values, two lists, and the limit. */
  function ValueCount(q: MemberQuery): nat {
    (if q.cursor.Some? then 2 else 0) + ModeValueCount(q) +
    (if NonEmptyList(q.campusIds) then 1 else 0) + (if NonEmptyList(q.themeIds) then 1 else 0) + 1
  }

  // -----------------------------------------------------------------------
  // The builder

  /** Appending values keeps existing placeholders and their meaning. */
  lemma ExtendValues(wheres: seq<Clause>, values: seq<SqlValue>, extra: seq<SqlValue>)
    requires AllWellFormed(wheres, values)
    ensures AllWellFormed(wheres, values + extra)
    ensures forall p :: AdmitsAll(wheres, values + extra, p) == AdmitsAll(wheres, values, p)
  {
    forall i | 0 <= i < |wheres|
      ensures WellFormed(wheres[i], values + extra)
      ensures forall p :: Holds(wheres[i], values + extra, p) == Holds(wheres[i], values, p)
    {
    }
  }

  /** Appending a clause adds one conjunct. */
  lemma AddClause(wheres: seq<Clause>, values: seq<SqlValue>, c: Clause)
    requires AllWellFormed(wheres, values) && WellFormed(c, values)
    ensures AllWellFormed(wheres + [c], values)
    ensures forall p :: AdmitsAll(wheres + [c], values, p) == (AdmitsAll(wheres, values, p) && Holds(c, values, p))
  {
    forall p ensures AdmitsAll(wheres + [c], values, p) == (AdmitsAll(wheres, values, p) && Holds(c, values, p)) {
      if AdmitsAll(wheres, values, p) && Holds(c, values, p) {
        forall i | 0 <= i < |wheres| + 1 ensures Holds((wheres + [c])[i], values, p) {
          if i < |wheres| { assert (wheres + [c])[i] == wheres[i]; }
        }
      }
      if AdmitsAll(wheres + [c], values, p) {
        assert Holds((wheres + [c])[|wheres|], values, p);
        forall i | 0 <= i < |wheres| ensures Holds(wheres[i], values, p) {
          assert (wheres + [c])[i] == wheres[i];
        }
      }
    }
  }

  /** Push `extra` onto `values` and then the clause `c` onto `wheres`. */
  method Push(wheres: seq<Clause>, values: seq<SqlValue>, extra: seq<SqlValue>, c: Clause)
    returns (wheres': seq<Clause>, values': seq<SqlValue>)
    requires AllWellFormed(wheres, values) && WellFormed(c, values + extra)
    ensures wheres' == wheres + [c] && values' == values + extra
    ensures (NotEvent in wheres') == (NotEvent in wheres || c == NotEvent)
    ensures AllWellFormed(wheres', values')
    ensures forall p :: AdmitsAll(wheres', values', p) == (AdmitsAll(wheres, values, p) && Holds(c, values', p))
  {
    ExtendValues(wheres, values, extra);
    AddClause(wheres, values + extra, c);
    wheres', values' := wheres + [c], values + extra;
  }

  /** `wheres'`/`values'` are `wheres`/`values` with the visibility clause of `q`'s mode pushed. */
  ghost predicate VisibilityPushed(q: MemberQuery, wheres: seq<Clause>, values: seq<SqlValue>,
                                   wheres': seq<Clause>, values': seq<SqlValue>)
  {
    && AllWellFormed(wheres, values) && AllWellFormed(wheres', values')
    && |values'| == |values| + ModeValueCount(q) && values'[..|values|] == values
    && |wheres'| == |wheres| + 1 && wheres'[..|wheres|] == wheres
    && (NotEvent in wheres') == (NotEvent in wheres)
    && forall p :: AdmitsAll(wheres', values', p) == (AdmitsAll(wheres, values, p) && ModeAdmits(q, p))
  }

  /** The visibility step (the `switch` on the mode). */
  method PushVisibility(q: MemberQuery, wheres: seq<Clause>, values: seq<SqlValue>)
    returns (wheres': seq<Clause>, values': seq<SqlValue>)
    requires AllWellFormed(wheres, values)
    ensures AllWellFormed(wheres', values')
    ensures |values'| == |values| + ModeValueCount(q) && values'[..|values|] == values
    ensures |wheres'| == |wheres| + 1 && wheres'[..|wheres|] == wheres
    ensures (NotEvent in wheres') == (NotEvent in wheres)
    ensures forall p :: AdmitsAll(wheres', values', p) == (AdmitsAll(wheres, values, p) && ModeAdmits(q, p))
  {
    match q.visibilityMode {
      case PUBLIC_ONLY =>
        wheres', values' := PushPublicOnly(q, wheres, values);
      case MY_CAMPUS =>
        wheres', values' := PushMyCampus(q, wheres, values);
      case ALL_CAMPUSES =>
        wheres', values' := PushAllCampuses(q, wheres, values);
      case FOLLOWING =>
        wheres', values' := PushFollowing(q, wheres, values);
    }
  }

  /** `PUBLIC_ONLY`: public posts, and the viewer's own when there is a user id. */
  method PushPublicOnly(q: MemberQuery, wheres: seq<Clause>, values: seq<SqlValue>)
    returns (wheres': seq<Clause>, values': seq<SqlValue>)
    requires AllWellFormed(wheres, values) && q.visibilityMode == PUBLIC_ONLY
    ensures VisibilityPushed(q, wheres, values, wheres', values')
  {
    if Truthy(q.userId) {
      wheres', values' := Push(wheres, values, [Text(q.userId.value)], PublicOrAuthor(|values| + 1));
    } else {
      wheres', values' := Push(wheres, values, [], IsPublic);
    }
  }

  /** `MY_CAMPUS`: adds the viewer's campus when known, otherwise as `PUBLIC_ONLY`. */
  method PushMyCampus(q: MemberQuery, wheres: seq<Clause>, values: seq<SqlValue>)
    returns (wheres': seq<Clause>, values': seq<SqlValue>)
    requires AllWellFormed(wheres, values) && q.visibilityMode == MY_CAMPUS
    ensures VisibilityPushed(q, wheres, values, wheres', values')
  {
    if Truthy(q.userCampusId) {
      var campusIdx := |values| + 1;
      if Truthy(q.userId) {
        wheres', values' := Push(wheres, values, [Text(q.userCampusId.value), Text(q.userId.value)],
                                 PublicOrCampusOrAuthor(campusIdx, |values| + 2));
      } else {
        wheres', values' := Push(wheres, values, [Text(q.userCampusId.value)], PublicOrCampus(campusIdx));
      }
    } else {
      if Truthy(q.userId) {
        wheres', values' := Push(wheres, values, [Text(q.userId.value)], PublicOrAuthor(|values| + 1));
      } else {
        wheres', values' := Push(wheres, values, [], IsPublic);
      }
    }
  }

  /** `ALL_CAMPUSES`: everything but other people's PRIVATE posts. */
  method PushAllCampuses(q: MemberQuery, wheres: seq<Clause>, values: seq<SqlValue>)
    returns (wheres': seq<Clause>, values': seq<SqlValue>)
    requires AllWellFormed(wheres, values) && q.visibilityMode == ALL_CAMPUSES
    ensures VisibilityPushed(q, wheres, values, wheres', values')
  {
    if Truthy(q.userId) {
      wheres', values' := Push(wheres, values, [Text(q.userId.value)], PublicOrCampusOnlyOrAuthor(|values| + 1));
    } else {
      wheres', values' := Push(wheres, values, [], PublicOrCampusOnly);
    }
  }

  /** `FOLLOWING`: the viewer's and the followed users' posts; nothing without a user id. */
  method PushFollowing(q: MemberQuery, wheres: seq<Clause>, values: seq<SqlValue>)
    returns (wheres': seq<Clause>, values': seq<SqlValue>)
    requires AllWellFormed(wheres, values) && q.visibilityMode == FOLLOWING
    ensures VisibilityPushed(q, wheres, values, wheres', values')
  {
    var followedIds := if q.followedUserIds.Some? then q.followedUserIds.value else [];
    if Truthy(q.userId) {
      if |followedIds| == 0 {
        wheres', values' := Push(wheres, values, [Text(q.userId.value)], AuthorIs(|values| + 1));
      } else {
        wheres', values' := Push(wheres, values, [TextArray(followedIds + [q.userId.value])], AuthorAmong(|values| + 1));
      }
    } else {
      wheres', values' := Push(wheres, values, [], Never);
    }
  }

  /** The `campusIds` and `themeIds` steps: each applies only to a non-empty list. */
  method PushLists(q: MemberQuery, wheres: seq<Clause>, values: seq<SqlValue>)
    returns (wheres': seq<Clause>, values': seq<SqlValue>)
    requires AllWellFormed(wheres, values)
    ensures AllWellFormed(wheres', values')
    ensures |values'| == |values| + (if NonEmptyList(q.campusIds) then 1 else 0) + (if NonEmptyList(q.themeIds) then 1 else 0)
    ensures values'[..|values|] == values
    ensures |wheres'| >= |wheres| && wheres'[..|wheres|] == wheres
    ensures (NotEvent in wheres') == (NotEvent in wheres)
    ensures forall p ::
              AdmitsAll(wheres', values', p) ==
              (AdmitsAll(wheres, values, p) &&
               (NonEmptyList(q.campusIds) ==> p.campusId.Some? && p.campusId.value in q.campusIds.value) &&
               (NonEmptyList(q.themeIds) ==> p.themeId.Some? && p.themeId.value in q.themeIds.value))
  {
    wheres', values' := wheres, values;
    if NonEmptyList(q.campusIds) {
      wheres', values' := Push(wheres', values', [TextArray(q.campusIds.value)], CampusAmong(|values'| + 1));
    }
    if NonEmptyList(q.themeIds) {
      wheres', values' := Push(wheres', values', [TextArray(q.themeIds.value)], ThemeAmong(|values'| + 1));
    }
  }

  /** The first two steps: the keyset cursor, then the event exclusion. */
  method PushCursorAndEvents(q: MemberQuery) returns (wheres: seq<Clause>, values: seq<SqlValue>)
    ensures AllWellFormed(wheres, values)
    ensures |values| == (if q.cursor.Some? then 2 else 0)
    ensures forall p :: AdmitsAll(wheres, values, p) <==>
      (q.cursor.Some? ==> RowBefore(p.publishedAt, p.id, q.cursor.value.publishedAtIso, q.cursor.value.id)) &&
      (!q.includeEvents ==> p.kind != EVENT)
    ensures q.cursor.Some? ==>
              && |wheres| > 0 && wheres[0] == KeysetBefore(1, 2)
              && values[0] == Text(q.cursor.value.publishedAtIso) && values[1] == Text(q.cursor.value.id)
    ensures NotEvent in wheres <==> !q.includeEvents
  {
    wheres, values := [], [];
    if q.cursor.Some? {
      wheres, values := Push(wheres, values, [Text(q.cursor.value.publishedAtIso), Text(q.cursor.value.id)],
                             KeysetBefore(|values| + 1, |values| + 2));
    }
    if !q.includeEvents {
      wheres, values := Push(wheres, values, [], NotEvent);
    }
  }

  /**
   * `listMemberPublications`: the clause list and the values, with the
   * LIMIT placeholder `$|values|` bound to the limit.
   */
  method ListMemberPublications(q: MemberQuery) returns (wheres: seq<Clause>, values: seq<SqlValue>)
    ensures AllWellFormed(wheres, values)
    ensures |values| == ValueCount(q) && values[|values| - 1] == Int(q.limit)
    ensures forall p :: AdmitsAll(wheres, values, p) <==> Admitted(q, p)
    ensures q.cursor.Some? ==>
              && |wheres| > 0 && wheres[0] == KeysetBefore(1, 2)
              && values[0] == Text(q.cursor.value.publishedAtIso) && values[1] == Text(q.cursor.value.id)
    ensures NotEvent in wheres <==> !q.includeEvents
  {
    wheres, values := PushCursorAndEvents(q);
    wheres, values := PushVisibility(q, wheres, values);
    wheres, values := PushLists(q, wheres, values);
    ExtendValues(wheres, values, [Int(q.limit)]);
    values := values + [Int(q.limit)];
  }

  // -----------------------------------------------------------------------
  // Properties of the visibility modes

  /** PUBLIC_ONLY admits public posts and, with a user id, the viewer's own. */
  lemma PublicOnlyAdmits(q: MemberQuery, p: Publication)
    requires q.visibilityMode == PUBLIC_ONLY
    ensures ModeAdmits(q, p) <==> p.visibility == PUBLIC || (Truthy(q.userId) && p.authorUserId == q.userId.value)
  {
  }

  /** MY_CAMPUS without a campus admits exactly what PUBLIC_ONLY admits. */
  lemma MyCampusWithoutCampusIsPublicOnly(q: MemberQuery, p: Publication)
    requires q.visibilityMode == MY_CAMPUS && !Truthy(q.userCampusId)
    ensures ModeAdmits(q, p) <==> ModeAdmits(q.(visibilityMode := PUBLIC_ONLY), p)
  {
  }

  /** MY_CAMPUS with a campus adds the CAMPUS_ONLY posts of that campus and nothing else. */
  lemma MyCampusWithCampus(q: MemberQuery, p: Publication)
    requires q.visibilityMode == MY_CAMPUS && Truthy(q.userCampusId)
    ensures ModeAdmits(q, p) <==>
      ModeAdmits(q.(visibilityMode := PUBLIC_ONLY), p) ||
      (p.visibility == CAMPUS_ONLY && p.campusId == Some(q.userCampusId.value))
  {
  }

  /** ALL_CAMPUSES never shows someone else's PRIVATE post. */
  lemma AllCampusesHidesPrivate(q: MemberQuery, p: Publication)
    requires q.visibilityMode == ALL_CAMPUSES && p.visibility == PRIVATE
    ensures Admitted(q, p) ==> OwnPost(q, p)
  {
  }

  /** No mode shows someone else's PRIVATE post unless FOLLOWING and the author is followed. */
  lemma PrivateVisibleOnlyToOwnerOrFollower(q: MemberQuery, p: Publication)
    requires p.visibility == PRIVATE && Admitted(q, p) && !OwnPost(q, p)
    ensures q.visibilityMode == FOLLOWING && q.followedUserIds.Some? && p.authorUserId in q.followedUserIds.value
  {
  }

  /** FOLLOWING with no viewer admits nothing; with nobody followed, only the viewer's posts. */
  lemma FollowingAdmits(q: MemberQuery, p: Publication)
    requires q.visibilityMode == FOLLOWING
    ensures !Truthy(q.userId) ==> !Admitted(q, p)
    ensures Truthy(q.userId) && (q.followedUserIds.None? || q.followedUserIds.value == []) ==>
      (ModeAdmits(q, p) <==> p.authorUserId == q.userId.value)
  {
  }

  /** Campus and theme lists only narrow, and only when non-empty. */
  lemma ListsOnlyNarrow(q: MemberQuery, p: Publication)
    ensures Admitted(q, p) ==> Admitted(q.(campusIds := None, themeIds := None), p)
    ensures !NonEmptyList(q.campusIds) && !NonEmptyList(q.themeIds) ==>
      (Admitted(q, p) <==> Admitted(q.(campusIds := None, themeIds := None), p))
  {
  }

  /** `includeEvents = true` removes no type; `false` removes exactly the events. */
  lemma IncludeEventsEffect(q: MemberQuery, p: Publication)
    ensures Admitted(q.(includeEvents := false), p) <==> Admitted(q.(includeEvents := true), p) && p.kind != EVENT
  {
  }

  /** `includeEvents` changes no placeholder numbering. */
  lemma IncludeEventsBindsNoValue(q: MemberQuery)
    ensures ValueCount(q.(includeEvents := false)) == ValueCount(q.(includeEvents := true))
  {
  }

  // -----------------------------------------------------------------------
  // Institutional and city news

  /** The columns of the news tables the WHERE clauses read. */
  datatype NewsRow = NewsRow(id: string, city: string, publishedAt: string)

  /** A news query: optional city and keyset placeholders and the LIMIT placeholder. */
  datatype NewsQuery = NewsQuery(
    values: seq<SqlValue>,
    cityIndex: Option<nat>,
    keyset: Option<(nat, nat)>,
    limitIndex: nat)

  predicate NewsQueryWellFormed(nq: NewsQuery) {
    (nq.cityIndex.Some? ==> IsTextAt(nq.values, nq.cityIndex.value)) &&
    (nq.keyset.Some? ==> IsTextAt(nq.values, nq.keyset.value.0) && IsTextAt(nq.values, nq.keyset.value.1)) &&
    1 <= nq.limitIndex <= |nq.values| && nq.values[nq.limitIndex - 1].Int?
  }

  predicate NewsAdmits(nq: NewsQuery, r: NewsRow)
    requires NewsQueryWellFormed(nq)
  {
    (nq.cityIndex.Some? ==> r.city == TextAt(nq.values, nq.cityIndex.value)) &&
    (nq.keyset.Some? ==>
      RowBefore(r.publishedAt, r.id, TextAt(nq.values, nq.keyset.value.0), TextAt(nq.values, nq.keyset.value.1)))
  }

  predicate CursorAdmits(cursor: Option<Cursor>, r: NewsRow) {
    cursor.Some? ==> RowBefore(r.publishedAt, r.id, cursor.value.publishedAtIso, cursor.value.id)
  }

  /** `listInstitutionalNews`: `LIMIT $1`, and the cursor as `$2`, `$3`. */
  method ListInstitutionalNews(limit: int, cursor: Option<Cursor>) returns (nq: NewsQuery)
    ensures NewsQueryWellFormed(nq)
    ensures nq.limitIndex == 1 && nq.values[0] == Int(limit) && nq.cityIndex.None?
    ensures |nq.values| == if cursor.Some? then 3 else 1
    ensures cursor.Some? ==>
              nq.keyset == Some((2, 3)) &&
              nq.values[1] == Text(cursor.value.publishedAtIso) && nq.values[2] == Text(cursor.value.id)
    ensures forall r :: NewsAdmits(nq, r) <==> CursorAdmits(cursor, r)
  {
    var values := [Int(limit)];
    var keyset: Option<(nat, nat)> := None;
    if cursor.Some? {
      values := values + [Text(cursor.value.publishedAtIso), Text(cursor.value.id)];
      keyset := Some((2, 3));
    }
    nq := NewsQuery(values, None, keyset, 1);
  }

  /** `listCityNews`: `city = $1`, `LIMIT $2`, and the cursor as `$3`, `$4`. */
  method ListCityNews(city: string, limit: int, cursor: Option<Cursor>) returns (nq: NewsQuery)
    ensures NewsQueryWellFormed(nq)
    ensures nq.limitIndex == 2 && nq.values[1] == Int(limit)
    ensures nq.cityIndex == Some(1) && nq.values[0] == Text(city)
    ensures |nq.values| == if cursor.Some? then 4 else 2
    ensures cursor.Some? ==>
              nq.keyset == Some((3, 4)) &&
              nq.values[2] == Text(cursor.value.publishedAtIso) && nq.values[3] == Text(cursor.value.id)
    ensures forall r :: NewsAdmits(nq, r) <==> r.city == city && CursorAdmits(cursor, r)
  {
    var values := [Text(city), Int(limit)];
    var keyset: Option<(nat, nat)> := None;
    if cursor.Some? {
      values := values + [Text(cursor.value.publishedAtIso), Text(cursor.value.id)];
      keyset := Some((3, 4));
    }
    nq := NewsQuery(values, Some(1), keyset, 2);
  }
}
