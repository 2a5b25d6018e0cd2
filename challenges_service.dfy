/**
 * Challenge proposals: the checks and defaults of `createChallenge`, and
 * the moderation step that approves or rejects a pending challenge.
 */
module ChallengesService {
  import opened Common

  const Categories: seq<string> := ["creation", "nourriture", "photo", "groupe", "style", "autre"]
  const Difficulties: seq<string> := ["facile", "moyen", "difficile"]

  /** The result of `Number(...)`: a finite value, or NaN / an infinity. */
  datatype Num = Finite(v: int) | NotFinite

  /** The fields of the request body; `None` is a missing or null field. */
  datatype ChallengeBody = ChallengeBody(
    title: Option<string>,
    description: Option<string>,
    category: Option<string>,
    difficulty: Option<string>,
    points: Option<Num>,
    durationMin: Option<Num>)

  datatype ChallengeStatus = PENDING | APPROVED | REJECTED

  /** A `challenges` row. */
  datatype Challenge = Challenge(
    title: string,
    description: string,
    category: string,
    difficulty: string,
    points: int,
    durationMin: int,
    status: ChallengeStatus,
    createdBy: string,
    moderatedBy: Option<string>,
    rejectionReason: Option<string>)

  function OrEmpty(o: Option<string>): string {
    if o.None? then "" else o.value
  }

  /** The category as stored: the given one when it is known, "autre" otherwise. */
  function CategoryOf(raw: Option<string>): (c: string)
    ensures c in Categories
    ensures raw.Some? && raw.value in Categories ==> c == raw.value
    ensures raw.None? || raw.value !in Categories ==> c == "autre"
  {
    if raw.Some? && raw.value in Categories then raw.value else "autre"
  }

  /** The difficulty as stored: the given one when it is known, "moyen" otherwise. */
  function DifficultyOf(raw: Option<string>): (d: string)
    ensures d in Difficulties
    ensures raw.Some? && raw.value in Difficulties ==> d == raw.value
    ensures raw.None? || raw.value !in Difficulties ==> d == "moyen"
  {
    if raw.Some? && raw.value in Difficulties then raw.value else "moyen"
  }

  /** `Number(body.x ?? fallback)`. */
  function NumberOr(raw: Option<Num>, fallback: int): Num {
    if raw.None? then Finite(fallback) else raw.value
  }

  /** All the checks of `createChallenge` pass. */
  predicate ValidChallengeBody(b: ChallengeBody) {
    && |Trim(OrEmpty(b.title))| >= 3
    && |Trim(OrEmpty(b.description))| >= 10
    && NumberOr(b.points, 0).Finite? && 0 <= NumberOr(b.points, 0).v <= 5000
    && NumberOr(b.durationMin, 60).Finite? && 5 <= NumberOr(b.durationMin, 60).v <= 24 * 60
  }

  /** `createChallenge`: the row to insert, or the first failing check. */
  function CreateChallenge(userId: string, b: ChallengeBody): (r: Result<Challenge>)
    ensures r.Ok? <==> ValidChallengeBody(b)
    ensures r.Ok? ==>
      && r.value.status == PENDING && r.value.createdBy == userId
      && r.value.moderatedBy.None? && r.value.rejectionReason.None?
      && r.value.title == Trim(OrEmpty(b.title)) && r.value.description == Trim(OrEmpty(b.description))
      && r.value.category == CategoryOf(b.category) && r.value.difficulty == DifficultyOf(b.difficulty)
      && 0 <= r.value.points <= 5000 && 5 <= r.value.durationMin <= 1440
      && (b.points.None? ==> r.value.points == 0)
      && (b.durationMin.None? ==> r.value.durationMin == 60)
    ensures r == Err("title invalid") <==> |Trim(OrEmpty(b.title))| < 3
    ensures r == Err("description invalid") <==>
      |Trim(OrEmpty(b.title))| >= 3 && |Trim(OrEmpty(b.description))| < 10
    ensures r == Err("points invalid") <==>
      && |Trim(OrEmpty(b.title))| >= 3 && |Trim(OrEmpty(b.description))| >= 10
      && !(NumberOr(b.points, 0).Finite? && 0 <= NumberOr(b.points, 0).v <= 5000)
    ensures r == Err("durationMin invalid") <==>
      && |Trim(OrEmpty(b.title))| >= 3 && |Trim(OrEmpty(b.description))| >= 10
      && NumberOr(b.points, 0).Finite? && 0 <= NumberOr(b.points, 0).v <= 5000
      && !(NumberOr(b.durationMin, 60).Finite? && 5 <= NumberOr(b.durationMin, 60).v <= 24 * 60)
  {
    CreateFrom(userId, Trim(OrEmpty(b.title)), Trim(OrEmpty(b.description)), CategoryOf(b.category),
               DifficultyOf(b.difficulty), NumberOr(b.points, 0), NumberOr(b.durationMin, 60))
  }

  /** The checks of `createChallenge`, in order, on the values read from the body. */
  function CreateFrom(userId: string, title: string, description: string, category: string, difficulty: string,
                      points: Num, duration: Num)
    : (r: Result<Challenge>)
    ensures r.Ok? <==>
      |title| >= 3 && |description| >= 10 && points.Finite? && 0 <= points.v <= 5000
      && duration.Finite? && 5 <= duration.v <= 24 * 60
    ensures r == Err("title invalid") <==> |title| < 3
    ensures r == Err("description invalid") <==> |title| >= 3 && |description| < 10
    ensures r == Err("points invalid") <==>
      |title| >= 3 && |description| >= 10 && !(points.Finite? && 0 <= points.v <= 5000)
    ensures r == Err("durationMin invalid") <==>
      && |title| >= 3 && |description| >= 10 && points.Finite? && 0 <= points.v <= 5000
      && !(duration.Finite? && 5 <= duration.v <= 24 * 60)
    ensures r.Ok? ==>
      r.value == Challenge(title, description, category, difficulty, points.v, duration.v, PENDING, userId, None, None)
  {
    if title == "" || |title| < 3 then Err("title invalid")
    else if description == "" || |description| < 10 then Err("description invalid")
    else if !points.Finite? || points.v < 0 || points.v > 5000 then Err("points invalid")
    else if !duration.Finite? || duration.v < 5 || duration.v > 24 * 60 then Err("durationMin invalid")
    else Ok(Challenge(title, description, category, difficulty, points.v, duration.v, PENDING, userId, None, None))
  }

  /** Surrounding white space in the title does not matter. */
  lemma CreateIgnoresTitlePadding(userId: string, b: ChallengeBody, w1: string, w2: string)
    requires AllSpace(w1) && AllSpace(w2) && b.title.Some?
    ensures CreateChallenge(userId, b.(title := Some(w1 + b.title.value + w2))) == CreateChallenge(userId, b)
  {
    TrimSurrounding(w1, b.title.value, w2);
  }

  /** The moderation body: `action` and `reason`, `None` when missing or null. */
  datatype ModerationBody = ModerationBody(action: Option<string>, reason: Option<string>)

  /** `body.reason ? String(body.reason).trim() : null`. */
  function ModerationReason(b: ModerationBody): (r: Option<string>)
    ensures r.Some? <==> b.reason.Some? && b.reason.value != ""
    ensures r.Some? ==> IsTrimmed(r.value) && r.value == Trim(b.reason.value)
  {
    TrimShape(if b.reason.Some? then b.reason.value else "");
    if Truthy(b.reason) then Some(Trim(b.reason.value)) else None
  }

  /** The action is one of the two the endpoint knows. */
  predicate ActionValid(b: ModerationBody) {
    OrEmpty(b.action) in {"approve", "reject"}
  }

  /** A rejection comes with a trimmed reason of at least three characters. */
  predicate ReasonSufficient(b: ModerationBody) {
    OrEmpty(b.action) == "reject" ==> ModerationReason(b).Some? && |ModerationReason(b).value| >= 3
  }

  /**
   * `moderateChallenge`: check the action and the reason, then set status,
   * moderator and reason on the challenge `id` of `table`.
   */
  function ModerateChallenge(moderatorId: string, id: string, b: ModerationBody, table: map<string, Challenge>)
    : (r: Result<map<string, Challenge>>)
    ensures r.Ok? <==> ActionValid(b) && ReasonSufficient(b) && id in table
    ensures r == Err("action invalid") <==> !ActionValid(b)
    ensures r == Err("reason required") <==> ActionValid(b) && !ReasonSufficient(b)
    ensures r == Err("challenge not found") <==> ActionValid(b) && ReasonSufficient(b) && id !in table
    ensures r.Ok? ==>
      && r.value.Keys == table.Keys
      && (forall k | k in table && k != id :: r.value[k] == table[k])
      && r.value[id] == table[id].(status := if OrEmpty(b.action) == "approve" then APPROVED else REJECTED,
                                   moderatedBy := Some(moderatorId),
                                   rejectionReason := ModerationReason(b))
  {
    var action := OrEmpty(b.action);
    var reason := ModerationReason(b);
    if action != "approve" && action != "reject" then Err("action invalid")
    else if action == "reject" && (reason.None? || reason.value == "" || |reason.value| < 3) then Err("reason required")
    else
      var status := if action == "approve" then APPROVED else REJECTED;
      if id !in table then Err("challenge not found")
      else Ok(table[id := table[id].(status := status, moderatedBy := Some(moderatorId), rejectionReason := reason)])
  }

  /** An approval needs no reason, and records whatever reason was sent. */
  lemma ApproveNeedsNoReason(moderatorId: string, id: string, reason: Option<string>, table: map<string, Challenge>)
    requires id in table
    ensures var r := ModerateChallenge(moderatorId, id, ModerationBody(Some("approve"), reason), table);
      r.Ok? && r.value[id].status == APPROVED
  {
  }

  /** A rejection with a missing, blank or too short reason fails with 'reason required'. */
  lemma RejectNeedsReason(moderatorId: string, id: string, reason: Option<string>, table: map<string, Challenge>)
    requires reason.None? || |Trim(reason.value)| < 3
    ensures ModerateChallenge(moderatorId, id, ModerationBody(Some("reject"), reason), table) == Err("reason required")
  {
  }

  /** An unknown id fails with 'challenge not found' once the checks on the body pass. */
  lemma UnknownChallenge(moderatorId: string, id: string, b: ModerationBody, table: map<string, Challenge>)
    requires id !in table && OrEmpty(b.action) in {"approve", "reject"}
    requires OrEmpty(b.action) == "reject" ==> ModerationReason(b).Some? && |ModerationReason(b).value| >= 3
    ensures ModerateChallenge(moderatorId, id, b, table) == Err("challenge not found")
  {
  }
}
