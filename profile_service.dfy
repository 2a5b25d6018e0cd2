/**
 * The profile service: the role label, the date-shape checks, the age
 * computation, and `patchMyProfile` (normalise, validate, then update the
 * `users` row and upsert the `user_profile` row with per-field merge rules).
 */
module ProfileService {
  import opened Common

  // -----------------------------------------------------------------------
  // Role label

  const StudentLabel := "\U{00C9}tudiant \U{00B7} MediaSchool"
  const StaffLabel := "Intervenant / \U{00C9}quipe p\U{00E9}dagogique"
  const BdeLabel := "BDE"
  const ExternalLabel := "Externe"

  /** `roleLabel`: student wins over staff, staff over bde, and anything else is external. */
  function RoleLabel(roles: seq<string>): (r: string)
    ensures r == StudentLabel <==> "student" in roles
    ensures r == StaffLabel <==> "student" !in roles && "staff" in roles
    ensures r == BdeLabel <==> "student" !in roles && "staff" !in roles && "bde" in roles
    ensures r == ExternalLabel <==> "student" !in roles && "staff" !in roles && "bde" !in roles
  {
    if "student" in roles then StudentLabel
    else if "staff" in roles then StaffLabel
    else if "bde" in roles then BdeLabel
    else ExternalLabel
  }

  /** The label depends only on which roles are held, not on their order or repetition. */
  lemma RoleLabelIgnoresOrder(a: seq<string>, b: seq<string>)
    requires forall x :: x in a <==> x in b
    ensures RoleLabel(a) == RoleLabel(b)
  {
  }

  // -----------------------------------------------------------------------
  // Date shapes

  /** `\d`: an ASCII digit. */
  predicate IsDigit(c: char) {
    '0' <= c <= '9'
  }

  predicate AllDigits(s: string) {
    forall i | 0 <= i < |s| :: IsDigit(s[i])
  }

  /** A digit at every position of `v` except the separator positions 4 and 7. */
  predicate DigitsBesideSeparators(v: string) {
    forall i | 0 <= i < |v| && i != 4 && i != 7 :: IsDigit(v[i])
  }

  /** `/^(\d{4})-(\d{2})(-(\d{2}))?$/`: YYYY-MM or YYYY-MM-DD. */
  function IsValidSinceDate(v: string): (r: bool)
    ensures r <==>
      && (|v| == 7 || |v| == 10) && v[4] == '-' && (|v| == 10 ==> v[7] == '-')
      && DigitsBesideSeparators(v)
  {
    (|v| == 7 || (|v| == 10 && v[7] == '-' && AllDigits(v[8..10]))) &&
    AllDigits(v[0..4]) && v[4] == '-' && AllDigits(v[5..7])
  }

  /** `/^(\d{4})-(\d{2})-(\d{2})$/`: YYYY-MM-DD only. */
  function IsValidBirthDate(v: string): (r: bool)
    ensures r <==> |v| == 10 && v[4] == '-' && v[7] == '-' && DigitsBesideSeparators(v)
  {
    |v| == 10 && AllDigits(v[0..4]) && v[4] == '-' && AllDigits(v[5..7]) && v[7] == '-' && AllDigits(v[8..10])
  }

  /** Every valid birth date is a valid since date; the converse fails on YYYY-MM. */
  lemma BirthDateIsSinceDate(v: string)
    ensures IsValidBirthDate(v) ==> IsValidSinceDate(v)
    ensures IsValidSinceDate(v) && |v| == 7 ==> !IsValidBirthDate(v)
  {
  }

  /** The shapes are checks of form only: any digits are accepted, with no range check on month or day. */
  lemma DigitsMakeDates(y: string, m: string, d: string)
    requires |y| == 4 && |m| == 2 && |d| == 2 && AllDigits(y) && AllDigits(m) && AllDigits(d)
    ensures IsValidSinceDate(y + "-" + m)
    ensures IsValidSinceDate(y + "-" + m + "-" + d) && IsValidBirthDate(y + "-" + m + "-" + d)
  {
    var v := y + "-" + m;
    assert v[0..4] == y && v[5..7] == m;
    var w := y + "-" + m + "-" + d;
    assert w[0..4] == y && w[5..7] == m && w[8..10] == d;
  }

  /** Nothing may come before the year: a leading space or sign is rejected. */
  lemma LeadingNonDigitRejected(v: string)
    requires v != [] && !IsDigit(v[0])
    ensures !IsValidSinceDate(v) && !IsValidBirthDate(v)
  {
    if |v| >= 4 {
      assert v[0..4][0] == v[0];
    }
  }

  // -----------------------------------------------------------------------
  // Age

  /** A calendar date; the clock reading `now` is passed in as one. */
  datatype Date = Date(year: int, month: int, day: int)

  /** Chronological order of calendar dates. */
  predicate DateLe(a: Date, b: Date) {
    a.year < b.year || (a.year == b.year && (a.month < b.month || (a.month == b.month && a.day <= b.day)))
  }

  /** The `n`-th anniversary of `b`. */
  function Anniversary(b: Date, n: int): Date {
    Date(b.year + n, b.month, b.day)
  }

  /**
   * `computeAge`: the number of anniversaries reached by `now`, or null for a
   * missing date or an age outside [0, 120]. `birth` is `None` when the
   * stored date is missing or does not parse.
   */
  method ComputeAge(birth: Option<Date>, now: Date) returns (r: Option<int>)
    ensures birth.None? ==> r.None?
    ensures birth.Some? ==>
              exists n ::
                && DateLe(Anniversary(birth.value, n), now)
                && !DateLe(Anniversary(birth.value, n + 1), now)
                && r == (if 0 <= n <= 120 then Some(n) else None)
  {
    if birth.None? {
      return None;
    }
    var d := birth.value;
    var age := now.year - d.year;
    var m := now.month - d.month;
    if m < 0 || (m == 0 && now.day < d.day) {
      age := age - 1;
    }
    assert DateLe(Anniversary(d, age), now) && !DateLe(Anniversary(d, age + 1), now);
    if age < 0 || age > 120 {
      return None;
    }
    return Some(age);
  }

  /** There is only one number of completed years, so the age above is determined. */
  lemma AnniversaryCountUnique(b: Date, now: Date, n: int, k: int)
    requires DateLe(Anniversary(b, n), now) && !DateLe(Anniversary(b, n + 1), now)
    requires DateLe(Anniversary(b, k), now) && !DateLe(Anniversary(b, k + 1), now)
    ensures n == k
  {
  }

  // -----------------------------------------------------------------------
  // emptyToNull

  /** `emptyToNull`: null for a missing or all-white-space value, otherwise the value itself (untrimmed). */
  function EmptyToNull(v: Option<string>): (r: Option<string>)
    ensures r.None? <==> v.None? || AllSpace(v.value)
    ensures r.Some? ==> r == v
  {
    if v.None? then None
    else
      TrimEmptyIffAllSpace(v.value);
      if Trim(v.value) == "" then None else v
  }

  // -----------------------------------------------------------------------
  // The patch and its normalisation

  /** The JSON body of `PATCH /me/profile`; `Field` distinguishes a missing key from `null`. */
  datatype ProfilePatch = ProfilePatch(
    displayName: Option<string>,
    firstName: Option<string>,
    lastName: Option<string>,
    lastNameVisibility: Option<string>,
    birthDate: Field,
    showEmail: Option<bool>,
    showBirthDate: Option<bool>,
    showAge: Option<bool>,
    profileVisibility: Option<string>,
    showSocials: Option<bool>,
    instagramHandle: Option<string>,
    linkedinUrl: Option<string>,
    websiteUrl: Option<string>,
    bio: Option<string>,
    city: Option<string>,
    schoolLine: Option<string>,
    sinceDate: Option<string>,
    avatarText: Option<string>,
    avatarUrl: Field)

  /** The patch after normalisation: `None` still means "not provided". */
  datatype Normalized = Normalized(
    dn: Option<string>,
    firstName: Option<string>,
    lastName: Option<string>,
    lastNameVisibility: Option<string>,
    bio: Option<string>,
    city: Option<string>,
    schoolLine: Option<string>,
    sinceDate: Option<string>,
    avatarText: Option<string>,
    avatarUrl: Option<Option<string>>,
    birthDate: Option<string>,
    showEmail: Option<bool>,
    showBirthDate: Option<bool>,
    showAge: Option<bool>,
    profileVisibility: Option<string>,
    showSocials: Option<bool>,
    instagramHandle: Option<string>,
    linkedinUrl: Option<string>,
    websiteUrl: Option<string>)

  function TrimOpt(o: Option<string>): (r: Option<string>)
    ensures r.Some? <==> o.Some?
    ensures r.Some? ==> r.value == Trim(o.value) && IsTrimmed(r.value)
  {
    if o.None? then None else TrimShape(o.value); Some(Trim(o.value))
  }

  /** `r` is the provided text `o` trimmed, and absent exactly when `o` is. */
  predicate TrimmedCopy(o: Option<string>, r: Option<string>) {
    && (r.Some? <==> o.Some?)
    && (r.Some? ==> IsTrimmed(r.value) && r.value == Trim(o.value))
  }

  /** The normalisation step: trims every text field except `bio`. */
  function Normalize(p: ProfilePatch): (n: Normalized)
    ensures TrimmedCopy(p.displayName, n.dn) && TrimmedCopy(p.firstName, n.firstName)
    ensures TrimmedCopy(p.lastName, n.lastName) && TrimmedCopy(p.city, n.city)
    ensures TrimmedCopy(p.schoolLine, n.schoolLine) && TrimmedCopy(p.sinceDate, n.sinceDate)
    ensures TrimmedCopy(p.avatarText, n.avatarText) && TrimmedCopy(p.instagramHandle, n.instagramHandle)
    ensures TrimmedCopy(p.linkedinUrl, n.linkedinUrl) && TrimmedCopy(p.websiteUrl, n.websiteUrl)
    ensures n.bio == p.bio && n.lastNameVisibility == p.lastNameVisibility
    ensures n.profileVisibility == p.profileVisibility
    ensures n.showEmail == p.showEmail && n.showBirthDate == p.showBirthDate
    ensures n.showAge == p.showAge && n.showSocials == p.showSocials
    ensures n.avatarUrl.Some? <==> !p.avatarUrl.Omitted?
    ensures FieldTruthy(p.avatarUrl) ==> n.avatarUrl == Some(Some(p.avatarUrl.s))
    ensures !p.avatarUrl.Omitted? && !FieldTruthy(p.avatarUrl) ==> n.avatarUrl == Some(None)
    ensures n.birthDate.Some? <==> !p.birthDate.Omitted?
    ensures n.birthDate.Some? ==> IsTrimmed(n.birthDate.value)
    ensures FieldTruthy(p.birthDate) ==> n.birthDate == Some(Trim(p.birthDate.s))
    ensures !p.birthDate.Omitted? && !FieldTruthy(p.birthDate) ==> n.birthDate == Some("")
  {
    Normalized(
      TrimOpt(p.displayName), TrimOpt(p.firstName), TrimOpt(p.lastName), p.lastNameVisibility,
      p.bio, TrimOpt(p.city), TrimOpt(p.schoolLine), TrimOpt(p.sinceDate),
      TrimOpt(p.avatarText),
      if p.avatarUrl.Omitted? then None else Some(FieldOrNull(p.avatarUrl)),
      if p.birthDate.Omitted? then None else if FieldTruthy(p.birthDate) then TrimShape(p.birthDate.s); Some(Trim(p.birthDate.s)) else Some(""),
      p.showEmail, p.showBirthDate, p.showAge, p.profileVisibility, p.showSocials,
      TrimOpt(p.instagramHandle), TrimOpt(p.linkedinUrl), TrimOpt(p.websiteUrl))
  }

  // -----------------------------------------------------------------------
  // Validation

  predicate AtMost(o: Option<string>, n: int) {
    o.None? || |o.value| <= n
  }

  /** A provided, non-empty value must satisfy `ok`. */
  predicate BlankOr(o: Option<string>, ok: string -> bool) {
    o.None? || o.value == "" || ok(o.value)
  }

  predicate OneOf(o: Option<string>, allowed: set<string>) {
    o.None? || o.value in allowed
  }

  /** Every rule of the validation block, independently of the order it checks them in. */
  predicate ValidNormalized(n: Normalized) {
    && (n.dn.None? || 2 <= |n.dn.value| <= 40)
    && AtMost(n.firstName, 40) && AtMost(n.lastName, 40)
    && AtMost(n.bio, 280) && AtMost(n.city, 60) && AtMost(n.schoolLine, 80)
    && BlankOr(n.sinceDate, IsValidSinceDate)
    && BlankOr(n.avatarText, s => |s| <= 3)
    && BlankOr(n.birthDate, IsValidBirthDate)
    && AtMost(n.instagramHandle, 50) && AtMost(n.linkedinUrl, 200) && AtMost(n.websiteUrl, 200)
    && OneOf(n.lastNameVisibility, {"FULL", "INITIAL", "HIDDEN"})
    && OneOf(n.profileVisibility, {"CAMPUS", "PRIVATE"})
  }

  /** The checks of the validation block, each named after the message it throws. */
  datatype ProfileError =
    | DisplayNameTooShort | DisplayNameTooLong | FirstNameTooLong | LastNameTooLong | BioTooLong
    | CityTooLong | SchoolLineTooLong | SinceDateInvalid | AvatarTextTooLong | BirthDateInvalid
    | InstagramHandleTooLong | LinkedinUrlTooLong | WebsiteUrlTooLong | LastNameVisibilityInvalid
    | ProfileVisibilityInvalid

  /** The message of the `Error` thrown for a failed check. */
  function Message(e: ProfileError): string {
    match e
    case DisplayNameTooShort => "displayName too short"
    case DisplayNameTooLong => "displayName too long"
    case FirstNameTooLong => "firstName too long"
    case LastNameTooLong => "lastName too long"
    case BioTooLong => "bio too long"
    case CityTooLong => "city too long"
    case SchoolLineTooLong => "schoolLine too long"
    case SinceDateInvalid => "sinceDate invalid"
    case AvatarTextTooLong => "avatarText too long"
    case BirthDateInvalid => "birthDate invalid"
    case InstagramHandleTooLong => "instagramHandle too long"
    case LinkedinUrlTooLong => "linkedinUrl too long"
    case WebsiteUrlTooLong => "websiteUrl too long"
    case LastNameVisibilityInvalid => "lastNameVisibility invalid"
    case ProfileVisibilityInvalid => "profileVisibility invalid"
  }

  /** The position of each check in the validation block. */
  function Rank(e: ProfileError): nat {
    match e
    case DisplayNameTooShort => 0
    case DisplayNameTooLong => 1
    case FirstNameTooLong => 2
    case LastNameTooLong => 3
    case BioTooLong => 4
    case CityTooLong => 5
    case SchoolLineTooLong => 6
    case SinceDateInvalid => 7
    case AvatarTextTooLong => 8
    case BirthDateInvalid => 9
    case InstagramHandleTooLong => 10
    case LinkedinUrlTooLong => 11
    case WebsiteUrlTooLong => 12
    case LastNameVisibilityInvalid => 13
    case ProfileVisibilityInvalid => 14
  }

  /** The rule the check named `e` enforces holds of `n`. */
  predicate Passes(n: Normalized, e: ProfileError) {
    match e
    case DisplayNameTooShort => n.dn.None? || |n.dn.value| >= 2
    case DisplayNameTooLong => n.dn.None? || |n.dn.value| <= 40
    case FirstNameTooLong => AtMost(n.firstName, 40)
    case LastNameTooLong => AtMost(n.lastName, 40)
    case BioTooLong => AtMost(n.bio, 280)
    case CityTooLong => AtMost(n.city, 60)
    case SchoolLineTooLong => AtMost(n.schoolLine, 80)
    case SinceDateInvalid => BlankOr(n.sinceDate, IsValidSinceDate)
    case AvatarTextTooLong => BlankOr(n.avatarText, s => |s| <= 3)
    case BirthDateInvalid => BlankOr(n.birthDate, IsValidBirthDate)
    case InstagramHandleTooLong => AtMost(n.instagramHandle, 50)
    case LinkedinUrlTooLong => AtMost(n.linkedinUrl, 200)
    case WebsiteUrlTooLong => AtMost(n.websiteUrl, 200)
    case LastNameVisibilityInvalid => OneOf(n.lastNameVisibility, {"FULL", "INITIAL", "HIDDEN"})
    case ProfileVisibilityInvalid => OneOf(n.profileVisibility, {"CAMPUS", "PRIVATE"})
  }

  /**
   * The validation block: the first failing check, in the order the service
   * tests them, or `None` when the patch is acceptable.
   */
  function Validate(n: Normalized): (err: Option<ProfileError>)
    ensures err.None? <==> ValidNormalized(n)
    ensures err == Some(DisplayNameTooShort) <==> n.dn.Some? && |n.dn.value| < 2
    ensures err == Some(DisplayNameTooLong) <==> n.dn.Some? && |n.dn.value| > 40
  {
    if n.dn.Some? && |n.dn.value| < 2 then Some(DisplayNameTooShort)
    else if n.dn.Some? && |n.dn.value| > 40 then Some(DisplayNameTooLong)
    else if !AtMost(n.firstName, 40) then Some(FirstNameTooLong)
    else if !AtMost(n.lastName, 40) then Some(LastNameTooLong)
    else if !AtMost(n.bio, 280) then Some(BioTooLong)
    else if !AtMost(n.city, 60) then Some(CityTooLong)
    else if !AtMost(n.schoolLine, 80) then Some(SchoolLineTooLong)
    else if !BlankOr(n.sinceDate, IsValidSinceDate) then Some(SinceDateInvalid)
    else if !BlankOr(n.avatarText, s => |s| <= 3) then Some(AvatarTextTooLong)
    else if !BlankOr(n.birthDate, IsValidBirthDate) then Some(BirthDateInvalid)
    else if !AtMost(n.instagramHandle, 50) then Some(InstagramHandleTooLong)
    else if !AtMost(n.linkedinUrl, 200) then Some(LinkedinUrlTooLong)
    else if !AtMost(n.websiteUrl, 200) then Some(WebsiteUrlTooLong)
    else if !OneOf(n.lastNameVisibility, {"FULL", "INITIAL", "HIDDEN"}) then Some(LastNameVisibilityInvalid)
    else if !OneOf(n.profileVisibility, {"CAMPUS", "PRIVATE"}) then Some(ProfileVisibilityInvalid)
    else None
  }

  /**
   * The check reported is the first that fails: `e` is reported exactly when
   * its rule fails and every check before it passes.
   */
  lemma ValidateReportsFirstFailure(n: Normalized, e: ProfileError)
    ensures Validate(n) == Some(e) <==> !Passes(n, e) && forall e': ProfileError | Rank(e') < Rank(e) :: Passes(n, e')
  {
    forall e': ProfileError | !Passes(n, e')
      ensures Validate(n).Some? && Rank(Validate(n).value) <= Rank(e')
    {
      FailureIsReported(n, e');
    }
    if Validate(n).Some? {
      var v := Validate(n).value;
      assert !Passes(n, v);
      RankInjective(v, e);
    }
  }

  /** A failing rule makes the block report a check no later than its own. */
  lemma FailureIsReported(n: Normalized, e: ProfileError)
    requires !Passes(n, e)
    ensures Validate(n).Some? && Rank(Validate(n).value) <= Rank(e)
  {
    match e {
      case DisplayNameTooShort =>
      case DisplayNameTooLong =>
      case FirstNameTooLong =>
      case LastNameTooLong =>
      case BioTooLong =>
      case CityTooLong =>
      case SchoolLineTooLong =>
      case SinceDateInvalid =>
      case AvatarTextTooLong =>
      case BirthDateInvalid =>
      case InstagramHandleTooLong =>
      case LinkedinUrlTooLong =>
      case WebsiteUrlTooLong =>
      case LastNameVisibilityInvalid =>
      case ProfileVisibilityInvalid =>
    }
  }

  lemma RankInjective(a: ProfileError, b: ProfileError)
    ensures Rank(a) == Rank(b) ==> a == b
  {
  }

  /** The display-name checks come first: a bad display name is reported whatever else is wrong. */
  lemma DisplayNameReportedFirst(p: ProfilePatch)
    requires p.displayName.Some? && (|Trim(p.displayName.value)| < 2 || |Trim(p.displayName.value)| > 40)
    ensures Validate(Normalize(p)) ==
      Some(if |Trim(p.displayName.value)| < 2 then DisplayNameTooShort else DisplayNameTooLong)
  {
  }

  /** A display name of white space only trims to "" and is too short. */
  lemma BlankDisplayNameRejected(p: ProfilePatch)
    requires p.displayName.Some? && AllSpace(p.displayName.value)
    ensures Validate(Normalize(p)) == Some(DisplayNameTooShort)
  {
    TrimEmptyIffAllSpace(p.displayName.value);
  }

  /** Blank since dates, avatar texts and birth dates are accepted: they mean "clear". */
  lemma BlankValuesPassShapeChecks(p: ProfilePatch)
    requires p.sinceDate.Some? ==> AllSpace(p.sinceDate.value)
    requires p.avatarText.Some? ==> AllSpace(p.avatarText.value)
    requires !FieldTruthy(p.birthDate)
    ensures var n := Normalize(p);
      BlankOr(n.sinceDate, IsValidSinceDate) && BlankOr(n.avatarText, s => |s| <= 3) &&
      BlankOr(n.birthDate, IsValidBirthDate)
  {
    if p.sinceDate.Some? { TrimEmptyIffAllSpace(p.sinceDate.value); }
    if p.avatarText.Some? { TrimEmptyIffAllSpace(p.avatarText.value); }
  }

  // -----------------------------------------------------------------------
  // The upsert

  /** A `user_profile` row; `None` is SQL NULL. */
  datatype ProfileRow = ProfileRow(
    firstName: Option<string>,
    lastName: Option<string>,
    lastNameVisibility: Option<string>,
    bio: Option<string>,
    city: Option<string>,
    schoolLine: Option<string>,
    sinceDate: Option<string>,
    avatarText: Option<string>,
    avatarUrl: Option<string>,
    birthDate: Option<string>,
    showEmail: Option<bool>,
    showBirthDate: Option<bool>,
    showAge: Option<bool>,
    profileVisibility: Option<string>,
    showSocials: Option<bool>,
    instagramHandle: Option<string>,
    linkedinUrl: Option<string>,
    websiteUrl: Option<string>)

  /** The parameters `$2` .. `$26` of the upsert: the row to insert, and the seven "provided" flags. */
  datatype UpsertParams = UpsertParams(
    row: ProfileRow,
    birthDateGiven: bool,
    showEmailGiven: bool,
    showBirthDateGiven: bool,
    showAgeGiven: bool,
    profileVisibilityGiven: bool,
    showSocialsGiven: bool,
    lastNameVisibilityGiven: bool)

  /** Parameters that provide nothing: every value NULL and every flag false. */
  const NothingGiven := UpsertParams(
    ProfileRow(None, None, None, None, None, None, None, None, None, None, None, None, None, None, None, None, None, None),
    false, false, false, false, false, false, false)

  /** `hasAnyProfileField`: some field other than the display name is provided. */
  predicate HasAnyProfileField(n: Normalized) {
    n.firstName.Some? || n.lastName.Some? || n.lastNameVisibility.Some? || n.bio.Some? ||
    n.city.Some? || n.schoolLine.Some? || n.sinceDate.Some? || n.avatarText.Some? ||
    n.avatarUrl.Some? || n.birthDate.Some? || n.showEmail.Some? || n.showBirthDate.Some? ||
    n.showAge.Some? || n.profileVisibility.Some? || n.showSocials.Some? ||
    n.instagramHandle.Some? || n.linkedinUrl.Some? || n.websiteUrl.Some?
  }

  /** The parameter array of the upsert; a blank or absent birth date is NULL. */
  function Params(n: Normalized): (p: UpsertParams)
    ensures p.row.birthDate.Some? <==> n.birthDate.Some? && n.birthDate.value != ""
    ensures p.birthDateGiven <==> n.birthDate.Some?
    ensures p.row.firstName.Some? ==> n.firstName == p.row.firstName
    ensures p.row.avatarUrl.Some? ==> n.avatarUrl == Some(p.row.avatarUrl)
  {
    var birthDateDb := if n.birthDate.None? || n.birthDate.value == "" then None else n.birthDate;
    UpsertParams(
      ProfileRow(
        EmptyToNull(n.firstName), EmptyToNull(n.lastName), n.lastNameVisibility,
        EmptyToNull(n.bio), EmptyToNull(n.city), EmptyToNull(n.schoolLine), EmptyToNull(n.sinceDate),
        EmptyToNull(n.avatarText), if n.avatarUrl.None? then None else n.avatarUrl.value,
        birthDateDb, n.showEmail, n.showBirthDate, n.showAge, n.profileVisibility, n.showSocials,
        EmptyToNull(n.instagramHandle), EmptyToNull(n.linkedinUrl), EmptyToNull(n.websiteUrl)),
      n.birthDate.Some?, n.showEmail.Some?, n.showBirthDate.Some?, n.showAge.Some?,
      n.profileVisibility.Some?, n.showSocials.Some?, n.lastNameVisibility.Some?)
  }

  /** `case when $k is not null then $k else old end`. */
  function IfNotNull<T>(v: Option<T>, prev: Option<T>): (r: Option<T>)
    ensures v.Some? ==> r == v
    ensures v.None? ==> r == prev
  {
    if v.Some? then v else prev
  }

  /** `case when $flag = true then $k else old end`. */
  function IfGiven<T>(given: bool, v: Option<T>, prev: Option<T>): (r: Option<T>)
    ensures given ==> r == v
    ensures !given ==> r == prev
  {
    if given then v else prev
  }

  /** `insert ... on conflict (user_id) do update set ...`: the row after the upsert. */
  function Merge(existing: Option<ProfileRow>, p: UpsertParams): (r: ProfileRow)
    ensures existing.None? ==> r == p.row
    ensures existing.Some? && p == NothingGiven ==> r == existing.value
  {
    if existing.None? then p.row
    else
      var o := existing.value;
      var v := p.row;
      ProfileRow(
        IfNotNull(v.firstName, o.firstName),
        IfNotNull(v.lastName, o.lastName),
        IfGiven(p.lastNameVisibilityGiven, v.lastNameVisibility, o.lastNameVisibility),
        IfNotNull(v.bio, o.bio),
        IfNotNull(v.city, o.city),
        IfNotNull(v.schoolLine, o.schoolLine),
        IfNotNull(v.sinceDate, o.sinceDate),
        IfNotNull(v.avatarText, o.avatarText),
        IfNotNull(v.avatarUrl, o.avatarUrl),
        IfGiven(p.birthDateGiven, v.birthDate, o.birthDate),
        IfGiven(p.showEmailGiven, v.showEmail, o.showEmail),
        IfGiven(p.showBirthDateGiven, v.showBirthDate, o.showBirthDate),
        IfGiven(p.showAgeGiven, v.showAge, o.showAge),
        IfGiven(p.profileVisibilityGiven, v.profileVisibility, o.profileVisibility),
        IfGiven(p.showSocialsGiven, v.showSocials, o.showSocials),
        IfNotNull(v.instagramHandle, o.instagramHandle),
        IfNotNull(v.linkedinUrl, o.linkedinUrl),
        IfNotNull(v.websiteUrl, o.websiteUrl))
  }

  /** The new value of a trimmed text column: kept when omitted or blank, else the trimmed value. */
  function TextMerge(given: Option<string>, prev: Option<string>): Option<string> {
    if given.None? || AllSpace(given.value) then prev else Some(Trim(given.value))
  }

  lemma TrimmedTextMerge(given: Option<string>, prev: Option<string>)
    ensures IfNotNull(EmptyToNull(TrimOpt(given)), prev) == TextMerge(given, prev)
  {
    if given.Some? {
      TrimEmptyIffAllSpace(given.value);
      TrimShape(given.value);
      if !AllSpace(given.value) {
        TrimmedNonEmptyHasNonSpace(Trim(given.value));
        TrimEmptyIffAllSpace(Trim(given.value));
      }
    }
  }

  /**
   * On an existing row the text columns change only to a non-blank new
   * value: omitted or blank values keep the old one. This includes
   * `avatarUrl: null`, which leaves the stored URL as it was.
   */
  lemma {:induction false} MergeTextColumns(o: ProfileRow, p: ProfilePatch)
    ensures var r := Merge(Some(o), Params(Normalize(p)));
      && r.firstName == TextMerge(p.firstName, o.firstName)
      && r.lastName == TextMerge(p.lastName, o.lastName)
      && r.city == TextMerge(p.city, o.city)
      && r.schoolLine == TextMerge(p.schoolLine, o.schoolLine)
      && r.sinceDate == TextMerge(p.sinceDate, o.sinceDate)
      && r.avatarText == TextMerge(p.avatarText, o.avatarText)
      && r.instagramHandle == TextMerge(p.instagramHandle, o.instagramHandle)
      && r.linkedinUrl == TextMerge(p.linkedinUrl, o.linkedinUrl)
      && r.websiteUrl == TextMerge(p.websiteUrl, o.websiteUrl)
      && r.bio == (if p.bio.None? || AllSpace(p.bio.value) then o.bio else p.bio)
      && r.avatarUrl == (if FieldTruthy(p.avatarUrl) then Some(p.avatarUrl.s) else o.avatarUrl)
  {
    TrimmedTextMerge(p.firstName, o.firstName);
    TrimmedTextMerge(p.lastName, o.lastName);
    TrimmedTextMerge(p.city, o.city);
    TrimmedTextMerge(p.schoolLine, o.schoolLine);
    TrimmedTextMerge(p.sinceDate, o.sinceDate);
    TrimmedTextMerge(p.avatarText, o.avatarText);
    TrimmedTextMerge(p.instagramHandle, o.instagramHandle);
    TrimmedTextMerge(p.linkedinUrl, o.linkedinUrl);
    TrimmedTextMerge(p.websiteUrl, o.websiteUrl);
  }

  /**
   * On an existing row the flag-guarded columns are replaced exactly when
   * provided, and a provided birth date that is null or blank clears it.
   */
  lemma MergeGuardedColumns(o: ProfileRow, p: ProfilePatch)
    ensures var r := Merge(Some(o), Params(Normalize(p)));
      && r.showEmail == (if p.showEmail.Some? then p.showEmail else o.showEmail)
      && r.showBirthDate == (if p.showBirthDate.Some? then p.showBirthDate else o.showBirthDate)
      && r.showAge == (if p.showAge.Some? then p.showAge else o.showAge)
      && r.showSocials == (if p.showSocials.Some? then p.showSocials else o.showSocials)
      && r.profileVisibility == (if p.profileVisibility.Some? then p.profileVisibility else o.profileVisibility)
      && r.lastNameVisibility == (if p.lastNameVisibility.Some? then p.lastNameVisibility else o.lastNameVisibility)
      && r.birthDate == (if p.birthDate.Omitted? then o.birthDate
                         else if FieldTruthy(p.birthDate) && Trim(p.birthDate.s) != "" then Some(Trim(p.birthDate.s))
                         else None)
  {
  }

  /**
   * Without an existing row, the insert writes what the merge would give on
   * a row of NULLs: every omitted or blank field is NULL, and every other
   * field holds its normalised value.
   */
  lemma InsertWritesGivenValues(p: ProfilePatch)
    ensures Merge(None, Params(Normalize(p))) == Merge(Some(NothingGiven.row), Params(Normalize(p)))
    ensures var r := Merge(None, Params(Normalize(p)));
      && r.firstName == TextMerge(p.firstName, None)
      && r.lastName == TextMerge(p.lastName, None)
      && r.city == TextMerge(p.city, None)
      && r.schoolLine == TextMerge(p.schoolLine, None)
      && r.sinceDate == TextMerge(p.sinceDate, None)
      && r.avatarText == TextMerge(p.avatarText, None)
      && r.instagramHandle == TextMerge(p.instagramHandle, None)
      && r.linkedinUrl == TextMerge(p.linkedinUrl, None)
      && r.websiteUrl == TextMerge(p.websiteUrl, None)
      && r.bio == (if p.bio.None? || AllSpace(p.bio.value) then None else p.bio)
      && r.avatarUrl == (if FieldTruthy(p.avatarUrl) then Some(p.avatarUrl.s) else None)
      && r.showEmail == p.showEmail && r.showBirthDate == p.showBirthDate && r.showAge == p.showAge
      && r.showSocials == p.showSocials && r.profileVisibility == p.profileVisibility
      && r.lastNameVisibility == p.lastNameVisibility
      && r.birthDate == (if FieldTruthy(p.birthDate) && Trim(p.birthDate.s) != "" then Some(Trim(p.birthDate.s))
                         else None)
  {
    MergeTextColumns(NothingGiven.row, p);
    MergeGuardedColumns(NothingGiven.row, p);
  }

  // -----------------------------------------------------------------------
  // patchMyProfile

  datatype PatchOutcome = Patched | Rejected(message: string)

  /** The two tables the patch writes. */
  class ProfileTables {
    /** `users.display_name` by user id. */
    var displayNames: map<string, string>
    /** `user_profile` rows by user id. */
    var profiles: map<string, ProfileRow>

    constructor(displayNames: map<string, string>, profiles: map<string, ProfileRow>)
      ensures this.displayNames == displayNames && this.profiles == profiles
    {
      this.displayNames := displayNames;
      this.profiles := profiles;
    }

    /** The row the upsert finds for `userId`, if any. */
    function Existing(userId: string): Option<ProfileRow>
      reads this
    {
      if userId in profiles then Some(profiles[userId]) else None
    }

    /**
     * `patchMyProfile`: normalise, validate everything, then update the
     * display name (only when one is provided) and upsert the profile row
     * (only when some profile field is provided).
     */
    method PatchMyProfile(userId: string, patch: ProfilePatch) returns (outcome: PatchOutcome)
      modifies this
      ensures var n := Normalize(patch);
        outcome == (if Validate(n).Some? then Rejected(Message(Validate(n).value)) else Patched)
      ensures outcome.Rejected? ==> displayNames == old(displayNames) && profiles == old(profiles)
      ensures outcome.Patched? ==>
        displayNames == (if patch.displayName.Some? && userId in old(displayNames)
                        then old(displayNames)[userId := Trim(patch.displayName.value)]
                        else old(displayNames))
      ensures outcome.Patched? ==>
        var n := Normalize(patch);
        profiles == (if HasAnyProfileField(n)
                     then old(profiles)[userId := Merge(old(Existing(userId)), Params(n))]
                     else old(profiles))
    {
      var n := Normalize(patch);
      var err := Validate(n);
      if err.Some? {
        return Rejected(Message(err.value));
      }
      if n.dn.Some? {
        UpdateDisplayName(userId, n.dn.value);
      }
      if HasAnyProfileField(n) {
        UpsertProfile(userId, Params(n));
      }
      return Patched;
    }

    /** `update users set display_name=$2 where id=$1`: no row changes for an unknown id. */
    method UpdateDisplayName(userId: string, dn: string)
      modifies this
      ensures displayNames == if userId in old(displayNames) then old(displayNames)[userId := dn] else old(displayNames)
      ensures profiles == old(profiles)
    {
      if userId in displayNames {
        displayNames := displayNames[userId := dn];
      }
    }

    /** The upsert: insert the parameter row, or merge it into the existing one. */
    method UpsertProfile(userId: string, p: UpsertParams)
      modifies this
      ensures profiles == old(profiles)[userId := Merge(old(Existing(userId)), p)]
      ensures displayNames == old(displayNames)
    {
      var merged := Merge(Existing(userId), p);
      profiles := profiles[userId := merged];
    }

    /**
     * `setMyAvatarUrl`: insert or overwrite the avatar URL; unlike the patch,
     * null here removes it. A fresh row has every other column NULL.
     */
    method SetMyAvatarUrl(userId: string, avatarUrl: Option<string>)
      modifies this
      ensures displayNames == old(displayNames)
      ensures userId in profiles && profiles[userId].avatarUrl == avatarUrl
      ensures old(Existing(userId)).Some? ==> profiles[userId] == old(profiles[userId]).(avatarUrl := avatarUrl)
      ensures forall u | u in old(profiles) && u != userId :: u in profiles && profiles[u] == old(profiles[u])
      ensures profiles.Keys == old(profiles.Keys) + {userId}
    {
      var row := if userId in profiles then profiles[userId].(avatarUrl := avatarUrl)
                 else ProfileRow(None, None, None, None, None, None, None, None, avatarUrl,
                                 None, None, None, None, None, None, None, None, None);
      profiles := profiles[userId := row];
    }
  }

  /** The patch touches no profile row when only the display name (or nothing) is given. */
  lemma DisplayNameOnlyPatch(p: ProfilePatch)
    requires p.firstName.None? && p.lastName.None? && p.lastNameVisibility.None? && p.bio.None?
    requires p.city.None? && p.schoolLine.None? && p.sinceDate.None? && p.avatarText.None?
    requires p.avatarUrl.Omitted? && p.birthDate.Omitted? && p.showEmail.None? && p.showBirthDate.None?
    requires p.showAge.None? && p.profileVisibility.None? && p.showSocials.None?
    requires p.instagramHandle.None? && p.linkedinUrl.None? && p.websiteUrl.None?
    ensures !HasAnyProfileField(Normalize(p))
  {
  }

  /**
   * Skipping the upsert when no profile field is provided loses nothing for
   * an existing row: the parameters would provide nothing, and merging them
   * keeps the row as it is.
   */
  lemma SkippedUpsertKeepsRow(n: Normalized, existing: ProfileRow)
    requires !HasAnyProfileField(n)
    ensures Params(n) == NothingGiven
    ensures Merge(Some(existing), Params(n)) == existing
  {
  }
}
