/**
 * The request-body validators of the publication endpoints: creation
 * (defaults and checks, first failure reported) and patch (normalise only
 * the keys that are present).
 */
module PublicationsValidators {
  import opened Common

  const AllowedTypes: set<string> := {"POST", "EVENT", "CAMPUS_ANNOUNCEMENT"}
  const AllowedVisibility: set<string> := {"PUBLIC", "CAMPUS_ONLY", "PRIVATE"}

  /** The body of `POST /publications`. */
  datatype CreateBody = CreateBody(
    kind: Field,
    title: Field,
    contentHtml: Field,
    visibility: Field,
    campusId: Field,
    themeId: Field,
    eventStartAt: Field,
    eventEndAt: Field)

  /** The validated publication. */
  datatype NewPublication = NewPublication(
    kind: string,
    title: string,
    contentHtml: string,
    visibility: string,
    campusId: Option<string>,
    themeId: Option<string>,
    eventStartAt: Option<string>,
    eventEndAt: Option<string>)

  /** `String(v || '')`. */
  function OrEmpty(f: Field): (r: string)
    ensures FieldTruthy(f) ==> r == f.s
    ensures !FieldTruthy(f) ==> r == ""
  {
    if FieldTruthy(f) then f.s else ""
  }

  /** `String(v || '').trim()`. */
  function TrimmedText(f: Field): (r: string)
    ensures IsTrimmed(r)
    ensures r != "" ==> FieldTruthy(f) && r == Trim(f.s)
    ensures f.Given? && AllSpace(f.s) ==> r == ""
  {
    TrimShape(OrEmpty(f));
    TrimEmptyIffAllSpace(OrEmpty(f));
    Trim(OrEmpty(f))
  }

  /** The checks of `validateCreatePublication`, each named after the message it throws. */
  datatype CreateError = InvalidType | TitleRequired | ContentHtmlRequired | InvalidVisibility | EventDatesRequired

  function CreateMessage(e: CreateError): string {
    match e
    case InvalidType => "Invalid type"
    case TitleRequired => "Title required"
    case ContentHtmlRequired => "contentHtml required"
    case InvalidVisibility => "Invalid visibility"
    case EventDatesRequired => "Event start/end required"
  }

  /** The validated publication, or the first failed check. */
  datatype CreateOutcome = Created(value: NewPublication) | Refused(error: CreateError)

  /** `validateCreatePublication`: the normalised record, or the first failing check. */
  function ValidateCreatePublication(b: CreateBody): (r: CreateOutcome)
    ensures r == Refused(InvalidType) <==> OrEmpty(b.kind) !in AllowedTypes
    ensures r == Refused(TitleRequired) <==> OrEmpty(b.kind) in AllowedTypes && TrimmedText(b.title) == ""
    ensures r == Refused(ContentHtmlRequired) <==>
      OrEmpty(b.kind) in AllowedTypes && TrimmedText(b.title) != "" && TrimmedText(b.contentHtml) == ""
    ensures r == Refused(InvalidVisibility) <==>
      && OrEmpty(b.kind) in AllowedTypes && TrimmedText(b.title) != "" && TrimmedText(b.contentHtml) != ""
      && FieldTruthy(b.visibility) && b.visibility.s !in AllowedVisibility
    ensures r == Refused(EventDatesRequired) <==>
      && OrEmpty(b.kind) in AllowedTypes && TrimmedText(b.title) != "" && TrimmedText(b.contentHtml) != ""
      && (!FieldTruthy(b.visibility) || b.visibility.s in AllowedVisibility)
      && OrEmpty(b.kind) == "EVENT" && (!FieldTruthy(b.eventStartAt) || !FieldTruthy(b.eventEndAt))
    ensures r.Created? ==>
      && r.value.kind in AllowedTypes && r.value.visibility in AllowedVisibility
      && r.value.title == TrimmedText(b.title) != "" && r.value.contentHtml == TrimmedText(b.contentHtml) != ""
      && r.value.kind == OrEmpty(b.kind)
      && (FieldTruthy(b.visibility) ==> r.value.visibility == b.visibility.s)
      && (!FieldTruthy(b.visibility) ==> r.value.visibility == "PUBLIC")
      && r.value.campusId == FieldOrNull(b.campusId) && r.value.themeId == FieldOrNull(b.themeId)
      && r.value.eventStartAt == FieldOrNull(b.eventStartAt) && r.value.eventEndAt == FieldOrNull(b.eventEndAt)
      && (r.value.kind == "EVENT" ==> r.value.eventStartAt.Some? && r.value.eventEndAt.Some?)
  {
    var kind := OrEmpty(b.kind);
    var title := TrimmedText(b.title);
    var contentHtml := TrimmedText(b.contentHtml);
    var visibility := if FieldTruthy(b.visibility) then b.visibility.s else "PUBLIC";
    var eventStartAt := FieldOrNull(b.eventStartAt);
    var eventEndAt := FieldOrNull(b.eventEndAt);
    if kind !in AllowedTypes then Refused(InvalidType)
    else if title == "" then Refused(TitleRequired)
    else if contentHtml == "" then Refused(ContentHtmlRequired)
    else if visibility !in AllowedVisibility then Refused(InvalidVisibility)
    else if kind == "EVENT" && (eventStartAt.None? || eventEndAt.None?) then Refused(EventDatesRequired)
    else
      Created(NewPublication(kind, title, contentHtml, visibility, FieldOrNull(b.campusId), FieldOrNull(b.themeId),
                             eventStartAt, eventEndAt))
  }

  /** Only an EVENT needs dates: a POST without them passes the date check. */
  lemma PostNeedsNoDates(b: CreateBody)
    requires OrEmpty(b.kind) == "POST" && !FieldTruthy(b.eventStartAt) && !FieldTruthy(b.eventEndAt)
    ensures ValidateCreatePublication(b) != Refused(EventDatesRequired)
  {
  }

  /** A white-space-only title is rejected like a missing one. */
  lemma BlankTitleRejected(b: CreateBody)
    requires OrEmpty(b.kind) in AllowedTypes && b.title.Given? && AllSpace(b.title.s)
    ensures ValidateCreatePublication(b) == Refused(TitleRequired)
  {
    TrimEmptyIffAllSpace(b.title.s);
  }

  // -----------------------------------------------------------------------
  // Patch

  /** The body of `PATCH /publications/:id`. */
  datatype PatchBody = PatchBody(
    title: Field,
    contentHtml: Field,
    visibility: Field,
    campusId: Field,
    themeId: Field,
    eventStartAt: Field,
    eventEndAt: Field)

  /** The keys the patch validator looks at. */
  datatype PatchKey = Title | ContentHtml | Visibility | CampusId | ThemeId | EventStartAt | EventEndAt

  /** The key as it appears in the body and in the output object. */
  function KeyName(k: PatchKey): string {
    match k
    case Title => "title"
    case ContentHtml => "contentHtml"
    case Visibility => "visibility"
    case CampusId => "campusId"
    case ThemeId => "themeId"
    case EventStartAt => "eventStartAt"
    case EventEndAt => "eventEndAt"
  }

  function FieldOf(b: PatchBody, k: PatchKey): Field {
    match k
    case Title => b.title
    case ContentHtml => b.contentHtml
    case Visibility => b.visibility
    case CampusId => b.campusId
    case ThemeId => b.themeId
    case EventStartAt => b.eventStartAt
    case EventEndAt => b.eventEndAt
  }

  /** How one present value is normalised: texts trimmed, visibility as is, ids and dates falsy-to-null. */
  function NormalizePatchValue(k: PatchKey, f: Field): Option<string>
    requires !f.Omitted?
  {
    if k == Title || k == ContentHtml then Some(Trim(FieldString(f)))
    else if k == Visibility then Some(FieldString(f))
    else FieldOrNull(f)
  }

  /** The entry the output holds for `k`: `None` when the key is absent from the body. */
  function Expected(b: PatchBody, k: PatchKey): Option<Option<string>> {
    if FieldOf(b, k).Omitted? then None else Some(NormalizePatchValue(k, FieldOf(b, k)))
  }

  /** `out` agrees with the reference on the keys `done` and has no other key. */
  predicate OutputOn(b: PatchBody, out: map<PatchKey, Option<string>>, done: set<PatchKey>) {
    forall k: PatchKey ::
      && (k in out <==> k in done && Expected(b, k).Some?)
      && (k in out ==> out[k] == Expected(b, k).value)
  }

  /** The reference output: one entry per present key, normalised, and nothing else. */
  predicate IsPatchOutput(b: PatchBody, out: map<PatchKey, Option<string>>) {
    OutputOn(b, out, {Title, ContentHtml, Visibility, CampusId, ThemeId, EventStartAt, EventEndAt})
  }

  /** One conditional assignment: `if (body.k !== undefined) out.k = ...`. */
  method AssignIfPresent(b: PatchBody, out: map<PatchKey, Option<string>>, done: set<PatchKey>, k: PatchKey)
    returns (out': map<PatchKey, Option<string>>)
    requires OutputOn(b, out, done) && k !in done
    ensures OutputOn(b, out', done + {k})
  {
    out' := out;
    if !FieldOf(b, k).Omitted? {
      out' := out[k := NormalizePatchValue(k, FieldOf(b, k))];
    }
  }

  /** `validatePatchPublication`: one conditional assignment per key, in the source's order. */
  method ValidatePatchPublication(b: PatchBody) returns (out: map<PatchKey, Option<string>>)
    ensures IsPatchOutput(b, out)
  {
    out := map[];
    out := AssignIfPresent(b, out, {}, Title);
    out := AssignIfPresent(b, out, {Title}, ContentHtml);
    out := AssignIfPresent(b, out, {Title, ContentHtml}, Visibility);
    out := AssignIfPresent(b, out, {Title, ContentHtml, Visibility}, CampusId);
    out := AssignIfPresent(b, out, {Title, ContentHtml, Visibility, CampusId}, ThemeId);
    out := AssignIfPresent(b, out, {Title, ContentHtml, Visibility, CampusId, ThemeId}, EventStartAt);
    out := AssignIfPresent(b, out, {Title, ContentHtml, Visibility, CampusId, ThemeId, EventStartAt}, EventEndAt);
    assert {Title, ContentHtml, Visibility, CampusId, ThemeId, EventStartAt} + {EventEndAt} ==
           {Title, ContentHtml, Visibility, CampusId, ThemeId, EventStartAt, EventEndAt};
  }

  /** The reference output at one key: present exactly when the body has the key, with its normalised value. */
  lemma PatchOutputAt(b: PatchBody, out: map<PatchKey, Option<string>>, k: PatchKey)
    requires IsPatchOutput(b, out)
    ensures k in out <==> !FieldOf(b, k).Omitted?
    ensures k in out ==> out[k] == NormalizePatchValue(k, FieldOf(b, k))
  {
    assert k in {Title, ContentHtml, Visibility, CampusId, ThemeId, EventStartAt, EventEndAt};
  }

  /** Visibility is copied without any check; a null or empty id becomes null; an absent title stays absent. */
  lemma PatchOutputValues(b: PatchBody, out: map<PatchKey, Option<string>>)
    requires IsPatchOutput(b, out)
    ensures !b.visibility.Omitted? ==> Visibility in out && out[Visibility] == Some(FieldString(b.visibility))
    ensures b.campusId == Null || b.campusId == Given("") ==> CampusId in out && out[CampusId] == None
    ensures b.title.Omitted? ==> Title !in out
  {
    PatchOutputAt(b, out, Visibility);
    PatchOutputAt(b, out, CampusId);
    PatchOutputAt(b, out, Title);
  }

  /** `String(null)` is the text "null": a null title is stored as that text. */
  lemma NullTitleBecomesText(b: PatchBody, out: map<PatchKey, Option<string>>)
    requires IsPatchOutput(b, out) && b.title == Null
    ensures Title in out && out[Title] == Some("null")
  {
    NullTitleNormalized();
  }

  lemma NullTitleNormalized()
    ensures NormalizePatchValue(Title, Null) == Some("null")
  {
    NullTextIsTrimmed();
  }

  lemma NullTextIsTrimmed()
    ensures Trim("null") == "null"
  {
    var s := "null";
    assert s[0] == 'n' && s[|s| - 1] == 'l';
    assert IsTrimmed(s);
    TrimOfTrimmed(s);
  }
}
