# campus-poc core rules in Dafny

This project models the rules at the core of the campus-poc application. The application is a campus social network: an Express/Postgres API and a Vue web client. The model covers:

- **The member feed.** The request parameters are parsed, and the viewer and filter choose a visibility mode. The limit and the three slice sizes are computed. The repository then builds the WHERE clauses and the positional parameter list. Each clause gets a meaning, so the proofs can say which publications a query admits. The keyset cursor is framed as `t|id` and wrapped in base64.
- **Validators and normalisers.** These cover the profile patch, challenge creation and moderation, and publication create and patch. Each is a total function from a raw body to either the first failing check or the normalised record.
- **The profile upsert.** For every column, it gives the old row together with the patch, then the new row.
- **The publication SET-clause builder.** This is a loop that numbers the placeholders one after another.
- **Authorisation.** This covers ownership checks and the `requirePerm` middleware.
- **The web client's session.** This covers the auth store as a class whose state includes local storage as a map, and the router guard's decision together with the route table it guards.

There is one module per source file, and every module imports `Common`. `Common` holds the JavaScript notions the rules rely on:

- truthiness of optional strings;
- fields that may be absent, null or given;
- ECMAScript `trim` over its white-space set;
- ASCII case mapping;
- `split` and `join`.

Code in the source that updates state step by step is modelled as methods:

- the clause builders in `FeedRepo`;
- `GetFeedPlan`;
- `ComputeAge`;
- `PatchPublication` and its loop;
- `ValidatePatchPublication`;
- the `ProfileTables` and `AuthStore` classes;
- the guard's `BeforeEach`.

Pure code is modelled as functions with named results.

## Model

| member | source | states |
|---|---|---|
| FeedCursor.EncodeCursor | apps/api/src/feed/feed.cursor.ts:1-3 | the payload before base64 is exactly the timestamp, the separator character and the id, with the separator right after the timestamp |
| FeedCursor.DecodeCursor | apps/api/src/feed/feed.cursor.ts:5-10 | a decoded cursor has a non-empty timestamp and a non-empty id, and the timestamp holds no separator |
| FeedCursor.CursorRoundTrip | apps/api/src/feed/feed.cursor.ts:1-10 | decoding an encoded cursor gives back `(t, id)` when both are non-empty and contain no separator |
| FeedCursor.NoSeparatorIsInvalid | apps/api/src/feed/feed.cursor.ts:7-8 | a payload without the separator is 'Invalid cursor' |
| FeedCursor.EmptyPartIsInvalid | apps/api/src/feed/feed.cursor.ts:7-8 | an empty timestamp part or an empty id part is 'Invalid cursor' |
| FeedCursor.ExtraSegmentsIgnored | apps/api/src/feed/feed.cursor.ts:7 | segments after a second separator are ignored; the first two are returned |
| FeedCursor.DecodeCharacterization | apps/api/src/feed/feed.cursor.ts:5-10 | a payload decodes to `(t, id)` iff it is t, separator, id, or starts with t, separator, id, separator, where `t` and `id` are non-empty and free of the separator |
| FeedRepo.Push | apps/api/src/feed/feed.repo.ts:105-106 | pushing values and then a clause keeps every placeholder valid, and the admitted set becomes the old one intersected with the clause's meaning |
| FeedRepo.PushCursorAndEvents | apps/api/src/feed/feed.repo.ts:108-117 | with a cursor, the values are `$1 = t` and `$2 = id` and the first clause is the keyset `(published_at, id) < ($1, $2)`; `type <> 'EVENT'` is present iff `includeEvents` is false and binds no value |
| FeedRepo.PushVisibility | apps/api/src/feed/feed.repo.ts:119-185 | the mode step appends exactly the mode's number of values and one clause, and it narrows the admitted set to what the mode claims |
| FeedRepo.PushPublicOnly | apps/api/src/feed/feed.repo.ts:123-132 | PUBLIC_ONLY pushes `visibility = 'PUBLIC'`, or `PUBLIC OR author = $k` when a user id is given |
| FeedRepo.PushMyCampus | apps/api/src/feed/feed.repo.ts:134-159 | MY_CAMPUS binds the campus and then the user when each is given, and admits exactly the mode's claimed set |
| FeedRepo.PushAllCampuses | apps/api/src/feed/feed.repo.ts:161-170 | ALL_CAMPUSES admits every non-PRIVATE post, plus the viewer's own posts when a user id is given |
| FeedRepo.PushFollowing | apps/api/src/feed/feed.repo.ts:172-184 | FOLLOWING admits posts by the followed users or by the viewer, only the viewer's posts when nobody is followed, and nothing (`1 = 0`) without a user |
| FeedRepo.PushLists | apps/api/src/feed/feed.repo.ts:187-194 | `campusIds`/`themeIds` each add one array value and one `= ANY` clause, only when the list is non-empty |
| FeedRepo.ListMemberPublications | apps/api/src/feed/feed.repo.ts:94-232 | every placeholder names an existing value of the right kind; the number of values is as counted, and the last value is the LIMIT equal to `limit`; the conjunction of the clauses admits exactly the publications the mode and filters claim; the cursor occupies `$1`/`$2`; the event exclusion is present iff `includeEvents` is false |
| FeedRepo.ExtendValues | apps/api/src/feed/feed.repo.ts:105-106 | appending values changes neither the validity nor the meaning of clauses already pushed |
| FeedRepo.AddClause | apps/api/src/feed/feed.repo.ts:196 | the WHERE is the conjunction of the pushed clauses: one more clause is one more conjunct |
| FeedRepo.PublicOnlyAdmits | apps/api/src/feed/feed.repo.ts:123-132 | PUBLIC_ONLY admits a post iff it is PUBLIC or the given viewer wrote it |
| FeedRepo.MyCampusWithoutCampusIsPublicOnly | apps/api/src/feed/feed.repo.ts:149-158 | MY_CAMPUS without a campus admits exactly what PUBLIC_ONLY admits |
| FeedRepo.MyCampusWithCampus | apps/api/src/feed/feed.repo.ts:135-148 | MY_CAMPUS with a campus admits PUBLIC posts, CAMPUS_ONLY posts of that campus, and the viewer's own posts |
| FeedRepo.AllCampusesHidesPrivate | apps/api/src/feed/feed.repo.ts:161-170 | ALL_CAMPUSES never admits a PRIVATE post unless the viewer wrote it |
| FeedRepo.PrivateVisibleOnlyToOwnerOrFollower | apps/api/src/feed/feed.repo.ts:120-185 | another user's PRIVATE post is admitted only in FOLLOWING mode, and only when its author is followed |
| FeedRepo.FollowingAdmits | apps/api/src/feed/feed.repo.ts:172-184 | FOLLOWING admits nothing without a viewer, and only the viewer's posts when nobody is followed |
| FeedRepo.ListsOnlyNarrow | apps/api/src/feed/feed.repo.ts:187-194 | the campus and theme lists only remove posts, and an empty list changes nothing |
| FeedRepo.IncludeEventsEffect | apps/api/src/feed/feed.repo.ts:115-117 | `includeEvents = false` admits exactly what `true` admits, minus the EVENTs |
| FeedRepo.IncludeEventsBindsNoValue | apps/api/src/feed/feed.repo.ts:115-117 | `includeEvents` changes no placeholder numbering |
| FeedRepo.ListInstitutionalNews | apps/api/src/feed/feed.repo.ts:26-47 | `LIMIT $1` is bound to the limit, and the cursor is `$2`/`$3`; the query admits exactly the rows before the cursor |
| FeedRepo.ListCityNews | apps/api/src/feed/feed.repo.ts:49-70 | `city = $1` and `LIMIT $2`, with the cursor as `$3`/`$4`; the query admits exactly the rows of that city before the cursor |
| FeedRepo.GetUserCampus | apps/api/src/feed/feed.repo.ts:6-18 | an unknown user has neither campus nor city |
| FeedRepo.GetFollowedUserIds | apps/api/src/feed/feed.repo.ts:20-24 | a user who follows nobody gets the empty list |
| FeedService.EffectiveLimit | apps/api/src/feed/feed.service.ts:8 | the limit is always in [1, 50]; a missing or 0 limit becomes 20; values below the range become 1 and values above it become 50 |
| FeedService.CeilDiv | apps/api/src/feed/feed.service.ts:52-56 | the result is the least `r` with `r * b >= a`, which is `Math.ceil(a / b)` |
| FeedService.SliceSizes | apps/api/src/feed/feed.service.ts:52-56 | each slice is the smaller of its cap (5, 10, 5) and the ceiling of its share (a quarter, a half, a quarter) of the limit |
| FeedService.SliceBounds | apps/api/src/feed/feed.service.ts:52-56 | each slice is at least 1; they are capped at 5, 10 and 5, and their sum is at most 20 |
| FeedService.SliceShares | apps/api/src/feed/feed.service.ts:52-56 | up to a limit of 20, each slice is exactly the least count whose quadruple (institutional, city) or double (publications) reaches the limit; the city slice equals the institutional one; a limit of 20 or more gives 5/10/5 |
| FeedService.ModeFor | apps/api/src/feed/feed.service.ts:21-49 | an anonymous viewer gets PUBLIC_ONLY; FOLLOWING, MY_CAMPUS and ALL_CAMPUSES are chosen iff the viewer is authenticated and asked for that filter |
| FeedService.GetFeedPlan | apps/api/src/feed/feed.service.ts:7-71 | the three calls get the slice sizes; the member query gets the viewer's mode, followed users and campus; `includeEvents` defaults to true; the lists are passed through; the cursor is not forwarded; the city defaults to 'Paris' |
| FeedService.AnonymousViewer | apps/api/src/feed/feed.service.ts:14-28 | an unauthenticated viewer gets PUBLIC_ONLY, an empty followed list and no campus, whatever the filter |
| FeedService.AnonymousSeesOnlyPublic | apps/api/src/feed/feed.repo.ts:123-132 | a PUBLIC_ONLY query without a user id admits only PUBLIC posts |
| FeedService.AuthenticatedMode | apps/api/src/feed/feed.service.ts:33-49 | for an authenticated viewer, following maps to FOLLOWING, my_campus to MY_CAMPUS and all_campuses to ALL_CAMPUSES; null or public maps to PUBLIC_ONLY |
| FeedService.DefaultCity | apps/api/src/feed/feed.service.ts:11-19 | an anonymous viewer, or a user without a campus row, has no campus city, so the city is 'Paris' |
| FeedService.ExtractTextFromHtml | apps/api/src/feed/feed.service.ts:118-124 | a null or empty document gives ""; the result is always trimmed |
| FeedService.ExtractFirstImageFromHtml | apps/api/src/feed/feed.service.ts:126-130 | a null or empty document gives null |
| FeedService.BuildResponse | apps/api/src/feed/feed.service.ts:73-114 | the three slices are side by side, each mapped element-wise with the same length; a post with null HTML has content "" and image null |
| FeedController.ParseMulti | apps/api/src/feed/feed.controller.ts:5-9 | a falsy input gives undefined; a list stays the same list; a scalar becomes a one-element list |
| FeedController.ParseFilter | apps/api/src/feed/feed.controller.ts:11-16 | exactly the four names of the whitelist are accepted, each mapped to its own filter |
| FeedController.ParseFeedRequest | apps/api/src/feed/feed.controller.ts:21-45 | the limit defaults to 20; the cursor is present iff the parameter is truthy; `includeEvents` is false iff the parameter is present and its text is 'false'; `isAuthenticated` holds iff a user is attached, and `userId` equals the user's id; the filter is non-null iff a user is present and the name is whitelisted |
| FeedController.AnonymousRequestIsPublicOnly | apps/api/src/feed/feed.controller.ts:31-45 | a request without a user has no filter and is served in PUBLIC_ONLY mode |
| FeedController.UnknownFilterFallsBack | apps/api/src/feed/feed.controller.ts:33-39 | an unknown filter name from a signed-in user falls back to PUBLIC_ONLY |
| FeedController.DefaultLimit | apps/api/src/feed/feed.controller.ts:22 | without a limit parameter the effective limit is 20 |
| FeedController.IncludeEventsText | apps/api/src/feed/feed.controller.ts:27-29 | only the text 'false' switches events off; '0' and a repeated 'false' (joined as 'false,false') do not |
| ProfileService.RoleLabel | apps/api/src/profile/profile.service.ts:39-44 | student wins over staff, staff over bde, and otherwise the label is 'Externe'; each label is given iff its condition holds |
| ProfileService.RoleLabelIgnoresOrder | apps/api/src/profile/profile.service.ts:39-44 | the label depends only on which roles are held |
| ProfileService.IsValidSinceDate | apps/api/src/profile/profile.service.ts:46-48 | a since date has length 7 or 10, '-' at position 4 (and 7 when 10 long), and a digit everywhere else |
| ProfileService.IsValidBirthDate | apps/api/src/profile/profile.service.ts:50-52 | a birth date has length 10, '-' at positions 4 and 7, and a digit everywhere else |
| ProfileService.BirthDateIsSinceDate | apps/api/src/profile/profile.service.ts:46-52 | every valid birth date is a valid since date; YYYY-MM is a since date but not a birth date |
| ProfileService.DigitsMakeDates | apps/api/src/profile/profile.service.ts:46-52 | any digits of the shape YYYY-MM and YYYY-MM-DD pass, with no range check |
| ProfileService.LeadingNonDigitRejected | apps/api/src/profile/profile.service.ts:46-52 | the patterns are anchored: a leading non-digit fails both |
| ProfileService.ComputeAge | apps/api/src/profile/profile.service.ts:54-65 | a missing date gives null; otherwise the result is the number of birthdays reached by `now`, or null when that number is outside [0, 120] |
| ProfileService.AnniversaryCountUnique | apps/api/src/profile/profile.service.ts:60-62 | the number of completed years is unique, so the age is determined |
| ProfileService.EmptyToNull | apps/api/src/profile/profile.service.ts:433-437 | the result is null iff the input is undefined or white space only; otherwise it is the input unchanged |
| ProfileService.TrimOpt | apps/api/src/profile/profile.service.ts:254-279 | a provided text is trimmed; an absent one stays absent |
| ProfileService.Normalize | apps/api/src/profile/profile.service.ts:254-279 | presence is kept per field; every text field except `bio` is trimmed; `bio`, the visibilities and the flags are copied; a truthy avatar URL is kept and a falsy provided one becomes null; a truthy birth date is trimmed and a falsy provided one becomes "" |
| ProfileService.Validate | apps/api/src/profile/profile.service.ts:282-308 | no error iff every bound and shape rule holds; the display-name errors are reported iff the trimmed name is shorter than 2 or longer than 40 |
| ProfileService.ValidateReportsFirstFailure | apps/api/src/profile/profile.service.ts:282-308 | each of the fifteen errors is reported iff its rule fails and every check before it, in the source's order, passes |
| ProfileService.FailureIsReported | apps/api/src/profile/profile.service.ts:282-308 | a failing rule makes the block report an error, and one no later than that rule's own check |
| ProfileService.DisplayNameReportedFirst | apps/api/src/profile/profile.service.ts:282-285 | a bad display name is the error reported, whatever else is wrong |
| ProfileService.BlankDisplayNameRejected | apps/api/src/profile/profile.service.ts:254-283 | a white-space-only display name is too short |
| ProfileService.BlankValuesPassShapeChecks | apps/api/src/profile/profile.service.ts:294-298 | blank since dates, avatar texts and birth dates skip the shape checks |
| ProfileService.HasAnyProfileField | apps/api/src/profile/profile.service.ts:316-336 | some field other than the display name is provided |
| ProfileService.Params | apps/api/src/profile/profile.service.ts:338-426 | a blank or absent birth date is NULL, and the birth-date flag is exactly "provided"; the parameter row holds the given values |
| ProfileService.IfNotNull | apps/api/src/profile/profile.service.ts:363-373 | a non-null new value replaces the column and a null keeps the old value |
| ProfileService.IfGiven | apps/api/src/profile/profile.service.ts:375-383 | the column takes the new value, null included, exactly when its flag says provided |
| ProfileService.Merge | apps/api/src/profile/profile.service.ts:342-388 | without an existing row the inserted row is the parameter row; parameters that provide nothing keep an existing row |
| ProfileService.TrimmedTextMerge | apps/api/src/profile/profile.service.ts:363-402 | trim, then emptyToNull, then the not-null case keeps the old value for an omitted or blank input and otherwise writes the trimmed value |
| ProfileService.MergeTextColumns | apps/api/src/profile/profile.service.ts:363-403 | on an existing row, names, bio, city, school line, since date, avatar text, socials and avatar URL change only to a non-blank new value; `avatarUrl: null` keeps the stored URL |
| ProfileService.MergeGuardedColumns | apps/api/src/profile/profile.service.ts:365-425 | the flag-guarded columns are replaced exactly when provided; a provided null or blank birth date clears the column |
| ProfileService.InsertWritesGivenValues | apps/api/src/profile/profile.service.ts:340-361 | without an existing row, the insert writes what the merge gives on a row of NULLs: every text column holds its trimmed non-blank value or NULL, `bio` its non-blank value or NULL, the avatar URL its truthy value or NULL, every flag and visibility its given value or NULL, and the birth date its trimmed non-blank value or NULL |
| ProfileService.DisplayNameOnlyPatch | apps/api/src/profile/profile.service.ts:316-336 | a patch that carries only the display name, or nothing, has no profile field |
| ProfileService.SkippedUpsertKeepsRow | apps/api/src/profile/profile.service.ts:316-388 | without any profile field the parameters provide nothing, so skipping the upsert leaves an existing row as the upsert would |
| ProfileService.ProfileTables.PatchMyProfile | apps/api/src/profile/profile.service.ts:252-431 | the outcome is the first validation error or success; a rejected patch changes neither table; the display name is written only when provided; the profile row is upserted with the merge rules only when some profile field is provided |
| ProfileService.ProfileTables.UpdateDisplayName | apps/api/src/profile/profile.service.ts:311-313 | the display name of an existing user is set, and nothing else changes |
| ProfileService.ProfileTables.UpsertProfile | apps/api/src/profile/profile.service.ts:340-427 | the user's row becomes the merge of the old row (if any) with the parameters |
| ProfileService.ProfileTables.SetMyAvatarUrl | apps/api/src/profile/profile.service.ts:439-452 | the avatar URL is inserted or overwritten, with null removing it; every other column and every other row is kept |
| UsersService.TrimmedOrEmpty | apps/api/src/users/users.service.ts:70-71 | `(v ?? '').trim()` is trimmed, and "" for a missing value |
| UsersService.BuildPublicName | apps/api/src/users/users.service.ts:70-73 | when both trimmed names are empty, the result is the display name |
| UsersService.PublicNameHidden | apps/api/src/users/users.service.ts:75 | HIDDEN gives the first name, or the display name when there is none |
| UsersService.PublicNameInitial | apps/api/src/users/users.service.ts:76-79 | INITIAL with a last name gives "First L." with the upper-cased initial; without one it gives the first name or the display name |
| UsersService.PublicNameFull | apps/api/src/users/users.service.ts:80 | any other value gives the two names joined by one space and trimmed |
| UsersService.PublicNameNonEmpty | apps/api/src/users/users.service.ts:70-80 | the result is non-empty whenever the display name is |
| UsersService.JoinTrimmed | apps/api/src/users/users.service.ts:77-80 | `${a} ${b}`.trim() of trimmed parts is `a b`, or the non-empty one alone |
| ChallengesService.CategoryOf | apps/api/src/challenges/challenges.service.ts:3-20 | a known category is kept and anything else becomes "autre" |
| ChallengesService.DifficultyOf | apps/api/src/challenges/challenges.service.ts:4-21 | a known difficulty is kept and anything else becomes "moyen" |
| ChallengesService.CreateFrom | apps/api/src/challenges/challenges.service.ts:26-36 | the checks succeed iff the title is at least 3 long, the description at least 10, points are in [0, 5000] and the duration is in [5, 1440]; each of 'title invalid', 'description invalid', 'points invalid' and 'durationMin invalid' is reported iff its check is the first to fail; an accepted row is PENDING and created by the caller |
| ChallengesService.CreateChallenge | apps/api/src/challenges/challenges.service.ts:16-38 | a row is produced iff every check passes on the trimmed texts and the defaulted numbers (points 0, duration 60); each of the four error messages is reported iff its check is the first to fail on those values; the row is PENDING, created by the caller and not moderated, with the category and difficulty whitelisted |
| ChallengesService.CreateIgnoresTitlePadding | apps/api/src/challenges/challenges.service.ts:17 | white space around the title does not change the outcome |
| ChallengesService.ModerationReason | apps/api/src/challenges/challenges.service.ts:54 | a reason is kept iff it is truthy, and then it is trimmed |
| ChallengesService.ModerateChallenge | apps/api/src/challenges/challenges.service.ts:52-73 | moderation succeeds iff the action is approve or reject, a reject has a trimmed reason of at least 3, and the id exists; 'action invalid', 'reason required' and 'challenge not found' are each reported iff their check is the first to fail; approve gives APPROVED and reject gives REJECTED, with the moderator and reason recorded and no other row changed |
| ChallengesService.ApproveNeedsNoReason | apps/api/src/challenges/challenges.service.ts:56-59 | approving an existing challenge succeeds without a reason |
| ChallengesService.RejectNeedsReason | apps/api/src/challenges/challenges.service.ts:54-57 | a reject whose reason is missing or trims to under 3 fails with 'reason required' |
| ChallengesService.UnknownChallenge | apps/api/src/challenges/challenges.service.ts:56-71 | an unknown id fails with 'challenge not found' for an approval, and for a rejection with a sufficient reason |
| PublicationsValidators.OrEmpty | apps/api/src/publications/publications.validators.ts:3-5 | a falsy value becomes "" and a truthy text is kept |
| PublicationsValidators.TrimmedText | apps/api/src/publications/publications.validators.ts:3-4 | the result is trimmed; it is non-empty only for a truthy value, and "" for a white-space-only one |
| PublicationsValidators.ValidateCreatePublication | apps/api/src/publications/publications.validators.ts:1-37 | the checks run in order (type, title, content, visibility, event dates), and each error is reported iff its check is the first to fail; an accepted record has the given type, which is whitelisted, a non-empty trimmed title and content, and the given visibility, defaulting to PUBLIC; falsy campus, theme and dates become null; an EVENT has both dates |
| PublicationsValidators.PostNeedsNoDates | apps/api/src/publications/publications.validators.ts:22-25 | a POST without dates never fails the date check |
| PublicationsValidators.BlankTitleRejected | apps/api/src/publications/publications.validators.ts:17 | a white-space-only title is 'Title required' |
| PublicationsValidators.AssignIfPresent | apps/api/src/publications/publications.validators.ts:42-52 | one conditional assignment adds the key exactly when it appears in the body, with its normalised value |
| PublicationsValidators.ValidatePatchPublication | apps/api/src/publications/publications.validators.ts:39-54 | the output has exactly the keys present in the body, each normalised (texts trimmed, visibility unchecked, ids and dates falsy-to-null) |
| PublicationsValidators.PatchOutputAt | apps/api/src/publications/publications.validators.ts:39-54 | a key is in the output iff the body has it, with its normalised value |
| PublicationsValidators.PatchOutputValues | apps/api/src/publications/publications.validators.ts:44-47 | visibility is copied without any check; a null or empty campus id becomes null; an absent title stays absent |
| PublicationsValidators.NullTitleBecomesText | apps/api/src/publications/publications.validators.ts:42 | `String(null).trim()` is the text "null" |
| PublicationsRepo.Provided | apps/api/src/publications/publications.repo.ts:59-74 | the emitted entries are table entries whose key is provided, in table order |
| PublicationsRepo.Assignments | apps/api/src/publications/publications.repo.ts:69-72 | the k-th emitted column gets placeholder `start + k` |
| PublicationsRepo.ValuesOf | apps/api/src/publications/publications.repo.ts:69-73 | `values[k]` is the patch value of the k-th emitted field |
| PublicationsRepo.PatchPublication | apps/api/src/publications/publications.repo.ts:54-86 | no query iff no mapped key is provided; otherwise the fields are `col = $1..$n` in table order followed by `updated_at = now()`, the values are the patch values followed by the id, and the id is placeholder n+1 = the last value |
| PublicationsRepo.SetClauses | apps/api/src/publications/publications.repo.ts:69-74 | the loop emits exactly the assignments and the values of the provided keys |
| PublicationsRepo.AddColumnIfProvided | apps/api/src/publications/publications.repo.ts:70-73 | one turn of the loop pushes one field and one value iff the key is not undefined, numbering it `values.length + 1` |
| PublicationsRepo.ProvidedExactly | apps/api/src/publications/publications.repo.ts:59-74 | an entry is emitted iff it is in the table and its key is provided; a provided null counts |
| PublicationsRepo.OtherKeysIgnored | apps/api/src/publications/publications.repo.ts:59-74 | keys outside the table make no difference |
| PublicationsRepo.AllKeysProvided | apps/api/src/publications/publications.repo.ts:59-74 | with every key provided, all seven columns are emitted in table order |
| AuthService.NormalizeEmail | apps/api/src/auth/auth.service.ts:71 | the normal form is trimmed and lower-case |
| AuthService.RoleFromEmail | apps/api/src/auth/auth.service.ts:70-76 | student iff the normal form ends with '@mediaschool.me'; staff iff it ends with '@mediaschool.eu' and not the former; external otherwise |
| AuthService.NormalizeEmailIdempotent | apps/api/src/auth/auth.service.ts:71 | normalising twice is normalising once |
| AuthService.NormalizeIgnoresPadding | apps/api/src/auth/auth.service.ts:71 | surrounding white space does not matter |
| AuthService.NormalizeIgnoresCase | apps/api/src/auth/auth.service.ts:71 | letter case does not matter |
| AuthService.RoleFromEmailInvariant | apps/api/src/auth/auth.service.ts:70-76 | the role is invariant under case changes and surrounding white space |
| AuthService.StudentAddress | apps/api/src/auth/auth.service.ts:73 | any lower-case local part at '@mediaschool.me' is a student |
| AuthService.StaffAddress | apps/api/src/auth/auth.service.ts:74 | any lower-case local part at '@mediaschool.eu' is staff |
| AuthService.StaffIsNotStudent | apps/api/src/auth/auth.service.ts:73-74 | no address is at both domains |
| AuthService.OtherEndingIsExternal | apps/api/src/auth/auth.service.ts:75 | an address ending in a letter other than either domain's last letter is external |
| AuthService.LookAlikeDomainIsExternal | apps/api/src/auth/auth.service.ts:73-75 | '@mediaschool.me.org' is external: only a true suffix counts |
| AuthService.FindUserByEmail | apps/api/src/auth/auth.service.ts:11-20 | the lookup key is the normalised address |
| AuthService.CreateUser | apps/api/src/auth/auth.service.ts:22-60 | the row is stored under the normalised address with the caller's id and hash, and no other row changes; 'Role not found: code' is thrown iff the role is unknown, after the row is written |
| AuthService.CreatedUserIsFound | apps/api/src/auth/auth.service.ts:11-29 | a user created under one spelling of an address is found under any other spelling that differs in case and surrounding white space |
| AuthService.VerifyPassword | apps/api/src/auth/auth.service.ts:62-68 | false for an account without a hash; otherwise the hash comparison's answer |
| Ownership.CanActOnOwnedResource | apps/api/src/auth/ownership.ts:8-14 | for a non-owner, granted iff `domain:moderate` is held; for the owner, iff `domain:moderate` or the action's own permission is held |
| Ownership.ModerateGrants | apps/api/src/auth/ownership.ts:10 | `domain:moderate` grants the action whoever owns the resource |
| Ownership.OwnerWithPermissionGranted | apps/api/src/auth/ownership.ts:12 | the owner holding `domain:action` is granted |
| Ownership.NonOwnerDenied | apps/api/src/auth/ownership.ts:12-14 | a non-owner without `domain:moderate` is denied |
| Ownership.CanActCharacterization | apps/api/src/auth/ownership.ts:1-15 | access is granted iff the user is a moderator, or is the owner holding the action's own permission |
| Ownership.PermissionsDistinct | apps/api/src/auth/ownership.ts:10-12 | different action names give different permission strings in one domain |
| Ownership.UpdateDoesNotGrantDelete | apps/api/src/auth/ownership.ts:12 | `domain:update` alone does not authorise delete, and `domain:delete` alone does not authorise update |
| Ownership.EmptyPermissionsDenied | apps/api/src/auth/ownership.ts:8-14 | an empty permission list is always denied |
| RequirePerm.RequestPermissions | apps/api/src/auth/requirePerm.ts:6 | a request without a user has no permissions; otherwise the user's list |
| RequirePerm.RequirePerm | apps/api/src/auth/requirePerm.ts:4-14 | a refusal is 403 'Forbidden' naming the missing permission |
| RequirePerm.PassesIffHeld | apps/api/src/auth/requirePerm.ts:6-12 | `next` is called iff the user holds the permission; otherwise the response is 403 |
| RequirePerm.NoUserForbidden | apps/api/src/auth/requirePerm.ts:6 | a request without a user is refused |
| RequirePerm.OnlyMembershipMatters | apps/api/src/auth/requirePerm.ts:7 | the outcome depends only on whether the permission is in the list |
| AuthStore.ErrorMessage | apps/web/src/stores/auth.ts:114-115 | the thrown ApiError's body message if any, otherwise the fallback |
| AuthStore.WritesOnlyOwnKeys | apps/web/src/stores/auth.ts:49-59 | setToken and setGuest touch only their own storage keys |
| AuthStore.TokenReadsBack | apps/web/src/stores/auth.ts:49-53 | after setToken, the key holds a truthy token and is absent otherwise |
| AuthStore.AuthStore.constructor | apps/web/src/stores/auth.ts:33-39 | the token and the guest flag are read from storage; there is no user, the store is not loading and there is no error |
| AuthStore.AuthStore.IsAuthenticated | apps/web/src/stores/auth.ts:42 | authenticated iff a user is loaded and the token is non-empty |
| AuthStore.AuthStore.IsGuest | apps/web/src/stores/auth.ts:43 | in a consistent store, a guest iff local storage holds the guest flag "1" |
| AuthStore.AuthStore.Can | apps/web/src/stores/auth.ts:68-70 | false without a user; otherwise membership in the user's permissions |
| AuthStore.AuthStore.HasRole | apps/web/src/stores/auth.ts:72-74 | false without a user; otherwise membership in the user's roles |
| AuthStore.AuthStore.SetToken | apps/web/src/stores/auth.ts:49-53 | the field equals `t`; the storage key is written iff `t` is truthy and removed otherwise; the storage invariant is kept |
| AuthStore.AuthStore.SetGuest | apps/web/src/stores/auth.ts:55-59 | `guest` and the storage value "1" agree |
| AuthStore.AuthStore.EnterAsGuest | apps/web/src/stores/auth.ts:61-66 | token null, user null, guest true and error null |
| AuthStore.AuthStore.Logout | apps/web/src/stores/auth.ts:149-154 | token null, user null, guest false and error null; both keys removed; no permission is held |
| AuthStore.AuthStore.Bootstrap | apps/web/src/stores/auth.ts:76-95 | without a token it only clears the user and makes no request; with one it leaves guest mode; success loads the user; failure clears both the token and the user; loading ends false |
| AuthStore.AuthStore.Fail | apps/web/src/stores/auth.ts:110-116 | the catch block clears the token and the user and records the message |
| AuthStore.AuthStore.Authenticate | apps/web/src/stores/auth.ts:97-147 | shared by login and register: success stores the token and the user; a failure of either call clears both, records the error and is rethrown; loading ends false |
| AuthStore.AuthStore.Login | apps/web/src/stores/auth.ts:97-121 | it succeeds iff both calls succeed; a failure leaves token and user null with an error (fallback 'Login failed') and rethrows the failing call's error; a failed login call keeps the guest flag and only removes the token key; once the login call succeeds, guest mode is left, and local storage holds the token on success and loses it when `/me` fails, all other keys kept |
| AuthStore.AuthStore.Register | apps/web/src/stores/auth.ts:123-147 | the same as Login, with fallback 'Register failed', including the guest flag and the full local storage in each of the three outcomes |
| Guard.RequiresAuth | apps/web/src/router/guard.ts:12-14 | true iff some matched record has `requiresAuth === true` |
| Guard.Decide | apps/web/src/router/guard.ts:16-24 | allowed iff the route does not require auth, the user is authenticated, or it is 'feed' and the user is a guest; otherwise redirect to 'login' |
| Guard.ShouldBootstrap | apps/web/src/router/guard.ts:8 | a truthy token, no user and no request in flight |
| Guard.BeforeEach | apps/web/src/router/guard.ts:5-25 | it bootstraps iff there is a token, no user and no request in flight, and otherwise changes nothing; a bootstrap leaves guest mode, clears the error, and either loads the user or drops the token, with local storage following; the decision is taken on the settled session; an authenticated user is allowed |
| Guard.NamedRoute | apps/web/src/router/index.ts:21-48 | the auth pages sit under the guest-only `/auth` layout and the app pages under the `/app` layout that requires auth |
| Guard.PagesRequiringAuth | apps/web/src/router/index.ts:21-48 | the `/app` pages require auth and the `/auth` pages do not |
| Guard.GuestReachesOnlyFeed | apps/web/src/router/guard.ts:19 | an unauthenticated guest reaches the feed and no other `/app` page |
| Guard.VisitorRedirected | apps/web/src/router/guard.ts:21 | an unauthenticated non-guest is sent to 'login' from every `/app` page |
| Guard.AuthPagesOpenToEveryone | apps/web/src/router/guard.ts:12-24 | `guestOnly` is declared but never consulted: everyone reaches the `/auth` pages |

## Left out

- SQL execution itself is not modelled: ordering, `LIMIT` truncation, joins and the selected columns. Clauses are given a meaning over one row, and the uuid and timestamptz casts are treated as the identity on canonical text.
- `FeedRepo.listChallenges` (apps/api/src/feed/feed.repo.ts:72-92) is not modelled. The feed service never calls it.
- `listApprovedChallenges`, `listPendingChallenges`, `getMyProfile` and the other read queries are not modelled: they are plain selects.
- Base64 is an abstract bijection (`Base64Of` and `utf8`). UTF-8 transcoding is not modelled.
- The two regular expressions of the HTML helpers are parameters (`stripTags`, `firstImageSrc`). Only their null and empty cases are fixed.
- `ComputeAge` takes the birth date already parsed and `now` as a calendar date. `new Date` parsing, time zones and the clock are not modelled. An unparsable date is passed as `None`.
- `Number(...)` coercions are not modelled: the limit is an integer or absent (absent covers NaN). Challenge numbers are `Finite(v)` or `NotFinite`, with integer values only.
- String lengths are lengths of `seq<char>`. JavaScript counts UTF-16 code units.
- `toLowerCase`/`toUpperCase` are ASCII-only.
- JSON bodies whose fields are not strings are not modelled, because `String(x)` of numbers and objects is left out. The one exception is `String(null)` in the publication patch, which is modelled.
- bcrypt hashing and comparison (the comparison is a parameter of `VerifyPassword`) are not modelled; neither is JWT, nor the `user_roles` insert of `createUser`.
- `CreateUser` does not model the database's unique constraint on the address, nor the 'User creation failed' path that follows it. Inserting an existing address overwrites the row in the map.
- CreateUser: the `campus_id` column of the insert (`params.campusId ?? null`) is not modelled; user rows hold only id, address, display name and password hash.
- Database defaults, constraints and `updated_at`/`moderated_at` timestamps are not modelled. `ModerateChallenge` records the status, the moderator and the reason only.
- HTTP plumbing is not modelled: routes, middlewares that attach the user, error-to-status mapping and the web fetch client. API outcomes are parameters of the store's actions.
- The three repository calls under `Promise.all` become one plan of three independent queries.
- The store's actions are modelled as atomic, because interleavings of concurrent async actions are not modelled.
- The `roles` and `permissions` getters of the store are not modelled separately. They are covered through `Can` and `HasRole`.
- The toast store (`flash.ts`) is not modelled.
- The route table is modelled only in the layout and meta flags that the guard reads.
- The duplicate route table apps/web/web/src/router/index.ts is not part of this model.
