# member_app in Dafny

A verified model of the membership back end of member_app and of its paged
table component:

- the spreadsheet import (`POST /api/file-imports/:id/process`): every row is
  read through its header spellings, its club found or created by charter
  number, its member matched (contact id, then names in the club with email
  or phone), merged, created or left alone, and one audit row written per
  sheet row; the job records its counters and errors;
- the older upload importer (`POST /api/uploads/nfrw_import`), which only fills
  the empty fields of a matched member;
- the member, club, admin and member-payment routes (validators, role and
  club scoping, uniqueness checks, the Dec 31 expiration rule, the unpaid
  query);
- the export that turns an import's audit rows into spreadsheet rows and a
  file name;
- the `checkRole` middleware, the phone backfill script and the `DataGrid`
  pagination.

The database is a `class Database` whose tables are maps from identities to
records, with a retrieval-order sequence beside each table that Mongo
queries return. Route handlers that write are methods over it, each proved
against a pure function of the old tables; the loops (the import's row loop,
the upload's row loop, the export's row loop, the backfill loop, the
candidate searches) are `while`/`for` loops with their invariants. Reading
the workbook, the clock, the date parser, `isEmail`/`isURL`, database
failures such as a lost connection and the `Date.now()` timestamp are
parameters; a save refused for an empty required path or a
duplicate key (E11000) is worked out from the stored tables.

## Model

| member | source | states |
|---|---|---|
| Access.CheckRole | server/middleware/checkRole.js:1-18 | 401 exactly when there is no user; `next()` exactly when no roles are listed or the user's role is listed; 403 exactly otherwise |
| Access.CheckRoleWidening | server/middleware/checkRole.js:8-14 | listing more roles never turns away a request that was let through |
| Access.CheckRoleByRole | server/middleware/checkRole.js:12 | the gate looks only at the role: two users with the same role get the same decision |
| Models.MembersOkStore | server/models/Member.js:3-42 | storing a member the schema accepts keeps every stored member passing the schema |
| Models.MissingMemberPaths | server/models/Member.js:5-39 | the required paths (first name, last name, email, club) that a member leaves empty, in schema order |
| Models.MemberWriteError | server/models/Member.js:19-25 | a member save fails exactly when a required path is empty or its email is another member's |
| Models.MemberWriteKeepsEmailsUnique | server/models/Member.js:22 | a member write the schema accepts keeps emails unique |
| Models.ClubWriteError | server/models/Club.js:5-10 | a club save fails exactly when its name is empty or another club has it |
| Models.ClubWriteKeepsNamesUnique | server/models/Club.js:8 | a club write the schema accepts keeps club names unique |
| Models.NewFileImport | server/models/FileImport.js:34-58 | a new import is Uploaded, with zero counters and no errors |
| Models.NewFileImportRow | server/models/FileImportRow.js:11-33 | an audit row stores its row id and exception trimmed |
| Text.Trim | server/routes/fileImports.js:198 | `trim()` gives the infix left after removing white space at both ends, with no white space at either end |
| Text.TrimIdempotent | server/routes/fileImports.js:198 | trimming twice is trimming once |
| Text.BlankIffAllSpace | server/routes/fileImports.js:198 | a text trims to nothing exactly when it is all white space |
| Text.ToLower | server/routes/fileImports.js:292 | lower-casing keeps the length and lower-cases each character |
| Text.ToLowerIdempotent | server/routes/fileImports.js:292 | lower-casing twice is lower-casing once |
| Text.DigitsOf | server/routes/fileImports.js:293 | `replace(/\D/g, '')` leaves digits only and is never longer than the text |
| Text.DigitsOfDigits | server/routes/fileImports.js:293 | a digit string is left as it is |
| Text.DigitsOfIdempotent | server/routes/fileImports.js:293 | stripping non-digits twice is stripping them once |
| Text.DigitsOfKeepsDigitCount | server/routes/uploads.js:147 | every digit of the phone survives the stripping |
| Text.NatToString | server/routes/fileExports.js:153-156 | the decimal text of a number: digits only, at least one, no leading zero from 10 on |
| Text.ParseNatToString | server/routes/fileExports.js:153-156 | reading back the decimal text of a number gives the number |
| Text.NatToStringInjective | server/routes/fileExports.js:153-156 | different numbers are written differently |
| Text.PadTwo | server/routes/fileExports.js:153-154 | `padStart(2, '0')`: at least two characters, the original at the end, zeros before it |
| Text.BeforeFirst | server/routes/members.js:138 | `split('T')[0]`: a prefix of the text without the separator, and all of it when the separator is absent |
| Text.CleanFileName | server/routes/fileExports.js:210 | same length, every character in `[a-zA-Z0-9._-]`, allowed characters kept and others replaced by `_` |
| Text.CleanFileNameIdempotent | server/routes/fileImports.js:34 | cleaning a name twice is cleaning it once |
| Dates.ParseIntText | server/routes/members.js:323 | `parseInt(s, 10)` gives none (NaN) exactly when the text does not start with a digit |
| Dates.SplitOfJoin | server/routes/members.js:322 | splitting a joined text gives back its first piece and then the rest |
| Dates.SplitThree | server/routes/members.js:322 | splitting three pieces joined by `-` gives them back |
| Dates.December31RoundTrip | server/routes/members.js:321-323 | for a year from 100 on, the text `${y}-12-31` is stored as local midnight of December 31 of that year |
| Normalize.ParseDateCell | server/routes/fileImports.js:296-306 | an empty cell or one the parser rejects gives no date; otherwise the parser's date |
| Normalize.UploadDeceasedOf | server/routes/uploads.js:193-196 | yes/y/true/1 give true, no/n/false/0 give false, any other text gives no value |
| Normalize.MembershipTypeIgnoresCase | server/routes/fileImports.js:312-316 | upper-case letters in a name do not change its bucket |
| Normalize.MembershipTypeOfName | server/routes/fileImports.js:312-316 | reading back a stored membership type's own name gives that type |
| Normalize.DeceasedOfExported | server/routes/fileImports.js:309 | the exported 'Yes'/'No' reads back as the flag |
| Normalize.PhoneTypeOfName | server/routes/fileImports.js:319-325 | reading back a stored phone type's own name gives that type |
| Fields.GetField | server/routes/fileImports.js:195-202 | the trimmed value of the first header spelling whose cell is not blank, or '' when none is |
| Fields.GetRawField | server/routes/uploads.js:71-76 | the same search, returning the cell untrimmed: trimmed, it is what `Fields.GetField` reads |
| Fields.GetFieldIsTrimmed | server/routes/fileImports.js:195-202 | the value read is already trimmed |
| Fields.FirstNonEmpty | server/routes/fileImports.js:106-111 | the trimmed cell of some spelling whose cell is non-empty, or none when every spelling's cell is missing or empty |
| Fields.ExportSetIdOf | server/routes/fileImports.js:100-113 | the ExportSetID comes from the first row only, from the first spelling whose cell is non-empty (every earlier spelling missing or empty), trimmed; none for an empty sheet or when no spelling has a value |
| ImportSpec.FirstWhere | server/routes/fileImports.js:330-350 | the result satisfies the test and is in the order; none exactly when nothing in the order does |
| ImportSpec.Filter | server/routes/fileImports.js:336 | holds exactly the elements of the order that pass, and no more of them than the order |
| ImportSpec.Normalise | server/routes/fileImports.js:292-325 | email lower-cased and empty exactly when the cell is; the normalised phone is digits only; empty date cells give no date; deceased exactly for yes/y/true/1 in any case |
| ImportSpec.Match | server/routes/fileImports.js:330-350 | the member a row resolves to is a stored member (which one is `ImportMerge.MatchCharacterised`) |
| ImportSpec.Keep | server/routes/fileImports.js:352-370 | `incoming \|\| existing`: the incoming value when present, the stored one otherwise |
| ImportSpec.ErrorReason | server/routes/fileImports.js:497-511 | the reason recorded for a failed row is never empty |
| ImportSpec.ReadSheet | server/routes/fileImports.js:252-274 | one extracted row per sheet row, in order |
| ImportSpec.ErrorTexts | server/routes/fileImports.js:514-521 | one `Row N: reason` text per recorded error, in order |
| ImportMerge.HasChangesIffMergeDiffers | server/routes/fileImports.js:385-412 | the field-by-field comparison finds a change exactly when the merged member differs from the stored one |
| ImportMerge.MergeIdempotent | server/routes/fileImports.js:352-412 | merging a row twice is merging it once, and after a merge the comparison finds nothing |
| ImportMerge.NewMemberUnchanged | server/routes/fileImports.js:451-486 | a member the row creates already holds what the row says |
| ImportMerge.MergeKeeps | server/routes/fileImports.js:352-384 | the merge never writes the normalised phone and keeps the stored value where the row's cell is empty |
| ImportMerge.MatchCharacterised | server/routes/fileImports.js:330-350 | the match stated without the candidate list: the first member with the row's contact id, else the first in order with its names in the club whose email or phone agrees |
| ImportMerge.MatchAfterUpdate | server/routes/fileImports.js:414-450 | after the merged member is saved, the same row matches that member again |
| ImportMerge.MatchAfterCreate | server/routes/fileImports.js:451-486 | after a row creates its member, the same row matches that member |
| ImportEngine.FindByContact | server/routes/fileImports.js:337-348 | the candidate loop returns the first candidate whose email matches ignoring case or whose normalised phone matches |
| ImportEngine.FindMember | server/routes/fileImports.js:330-350 | the matching code returns the member `ImportSpec.Match` names |
| ImportEngine.AppendAudit | server/routes/fileImports.js:489-496 | one audit record is appended under the next identity, last in order |
| ImportEngine.ResolveClubM | server/routes/fileImports.js:235-249 | the club lookup: the first club with the charter number, or one new club stored last |
| ImportEngine.UpdateStepM | server/routes/fileImports.js:414-450 | the matched member is saved merged only when something differs; Unchanged otherwise |
| ImportEngine.CreateStepM | server/routes/fileImports.js:451-486 | a new member is stored under the next identity, or the save's error skips the row |
| ImportEngine.ProcessRow | server/routes/fileImports.js:204-511 | the loop body, catch included, leaves the tables and outcome that `StepRow` gives |
| ImportEngine.ProcessRows | server/routes/fileImports.js:204-512 | the row loop leaves the tables and counters of running every row in order |
| ImportEngine.RunJob | server/routes/fileImports.js:181-543 | the job is marked Processing, then Failed with the reader's error or Completed with the run's counters |
| ImportEngine.ProcessImport | server/routes/fileImports.js:165-543 | 403 for other roles, 404 for an unknown import, 500 without the Excel library, each changing nothing; otherwise the run above |
| ImportInvariants.ResolveClubSpec | server/routes/fileImports.js:235-249 | the lookup finds the first club with the charter number and changes nothing, or adds exactly one club with it, last in order |
| ImportInvariants.UpdateStepShape | server/routes/fileImports.js:414-450 | after a matched member's step the tables are unchanged or hold the merged member, which the schema accepts |
| ImportInvariants.CreateStepShape | server/routes/fileImports.js:451-486 | after an unmatched row the tables are unchanged or hold one new member under the next identity, which the schema accepts |
| ImportInvariants.SameTablesKeep | server/routes/fileImports.js:489-496 | tables that differ only in audit records are equally sound |
| ImportInvariants.StepKeeps | server/routes/fileImports.js:204-511 | one row keeps sound tables sound and only adds to them |
| ImportInvariants.RunKeeps | server/routes/fileImports.js:204-512 | every prefix of a sheet keeps sound tables sound and only adds to them |
| ImportInvariants.ImportKeeps | server/routes/fileImports.js:204-521 | importing a sheet keeps the orders exact, emails and club names unique and every member passing the schema; no club changes and no member's normalised phone changes |
| ImportProperties.FirstWhereIsFirst | server/routes/fileImports.js:337-348 | a search returns the earliest element that passes |
| ImportProperties.FirstOfFilter | server/routes/fileImports.js:336-348 | searching the filtered candidates is searching the whole order for an element that passes both tests |
| ImportProperties.StepAudits | server/routes/fileImports.js:489-511 | every row appends exactly one audit record for this job under its RowID, whose result is the outcome and whose exception is the skip reason or the row's Exception |
| ImportProperties.RunAudits | server/routes/fileImports.js:204-512 | after `n` rows exactly `n` records were appended, the i-th for this job under the i-th row's trimmed RowID |
| ImportProperties.RunCountsAudited | server/routes/fileImports.js:204-512 | each counter is the number of appended records with that result |
| ImportProperties.RunErrorsTied | server/routes/fileImports.js:204-512 | row `i` is skipped with a reason exactly when an error entry at line `i + 2` carries that reason, and every entry is such a row's |
| ImportProperties.ImportTally | server/routes/fileImports.js:204-521 | the counters add up to the rows, the error entries are exactly the skipped rows with their reasons, one audit record per row in row order |
| ImportProperties.CompletedJobCounts | server/routes/fileImports.js:514-521 | the completed job is Completed with every row processed, each counted once, and one `Row N: reason` per skipped row in row order, N the row's line and reason the one it was skipped for; no other row has an error |
| ImportRows.StepMembers | server/routes/fileImports.js:414-486 | what each outcome says about the members; a row without an email never creates one |
| ImportRows.StepClubs | server/routes/fileImports.js:235-249 | a row keeps the clubs or adds exactly one with its charter number, only when none had it |
| ImportRows.MissingCharterSkips | server/routes/fileImports.js:221-233 | a row without a charter number is skipped and only the audit table changes |
| ImportRows.MissingNameSkips | server/routes/fileImports.js:276-290 | a row without a first or last name writes no member and its audit record names its club |
| ImportRows.ResolveAgain | server/routes/fileImports.js:235-249 | the club lookup of a row again finds the club it resolved and creates nothing |
| ImportRows.UnchangedStep | server/routes/fileImports.js:438-450 | a matched member with nothing to change gets one Unchanged record and no write |
| ImportRows.ReimportUnchanged | server/routes/fileImports.js:204-511 | importing a written row again finds the same club and member, reports Unchanged and writes only the audit record |
| LegacySpec.ReadUploadSheet | server/routes/uploads.js:97-117 | one extracted row per sheet row, in order |
| LegacySpec.NormaliseUpload | server/routes/uploads.js:125-142 | email lower-cased, the phone's digits, the type bucketed, the expiration parsed and the deceased flag read as yes, no or nothing |
| LegacySpec.UploadMatch | server/routes/uploads.js:146-172 | the member a row merges into is a stored member (which one is `LegacyProperties.UploadMatchCharacterised`) |
| LegacySpec.Fill | server/routes/uploads.js:176-196 | `if (!existing.f && f) existing.f = f`: a non-empty stored value is kept, an empty one takes the row's |
| LegacyEngine.FindByEmailOrPhone | server/routes/uploads.js:155-170 | the first candidate whose email matches ignoring case or whose phone has the row's digits |
| LegacyEngine.FindUploadMember | server/routes/uploads.js:146-172 | the search code returns the member `LegacySpec.UploadMatch` names |
| LegacyEngine.FillFields | server/routes/uploads.js:173-196 | the fill statements give the filled member and the `changed` flag |
| LegacyEngine.UploadRowM | server/routes/uploads.js:97-230 | the loop body, catch included, leaves the table and outcome that `UploadStep` gives |
| LegacyEngine.UploadRowsM | server/routes/uploads.js:97-231 | the row loop leaves the table and results of running every row in order |
| LegacyEngine.UploadMembers | server/routes/uploads.js:39-238 | 403 for other roles, 400 without clubId or file, a note without the Excel library, 500 for an unreadable workbook, each writing nothing; otherwise the run's results |
| LegacyProperties.FillNeverOverwrites | server/routes/uploads.js:176-196 | each of the seventeen filled fields keeps a non-empty value and takes the row's value when empty (the club the row's club); email, contact id, normalised phone, phone type, membership type, gender and date of birth are untouched |
| LegacyProperties.ChangedIffFillDiffers | server/routes/uploads.js:173-203 | `changed` is set exactly when the fill gives a different member |
| LegacyProperties.FillIdempotent | server/routes/uploads.js:176-196 | filling twice is filling once |
| LegacyProperties.NewUploadMemberComplete | server/routes/uploads.js:204-225 | a created member has nothing the same row could fill |
| LegacyProperties.UploadMatchCharacterised | server/routes/uploads.js:146-172 | the match is the first member with the row's email, else the first in order with its names in the club whose email or phone agrees |
| LegacyProperties.UploadMatchAfterFill | server/routes/uploads.js:173-203 | after the fill, the same row matches the same member |
| LegacyProperties.UploadMatchAfterCreate | server/routes/uploads.js:204-225 | after a row creates its member, the same row finds it by email |
| LegacyProperties.UploadStepWrites | server/routes/uploads.js:173-230 | a skipped or failed row writes nothing; a filled row replaces its member; a created row adds one member last |
| LegacyProperties.UploadMissingNameSkips | server/routes/uploads.js:119-123 | a row without a first or last name is skipped for that reason and writes nothing |
| LegacyProperties.UploadAgainSkips | server/routes/uploads.js:173-203 | uploading a row again right after it wrote finds the member with nothing to fill and writes nothing |
| LegacyProperties.UploadStepSound | server/routes/uploads.js:173-225 | a row keeps the table exact, emails unique and every member passing the schema |
| LegacyProperties.UploadSheetSound | server/routes/uploads.js:97-231 | uploading a sheet keeps a sound member table sound |
| LegacyProperties.UploadRunCounts | server/routes/uploads.js:97-231 | created, updated and skipped add up to the rows processed |
| LegacyProperties.UploadRunErrors | server/routes/uploads.js:227-230 | row `i` is recorded at line `i + 2` with its reason exactly when it failed |
| MemberRoutes.DecYear | server/routes/members.js:12-17 | the offered year is the reference year or the next one |
| MemberRoutes.PhoneTypeNamed | server/routes/members.js:99 | the phone type named by a text is the one whose name it is, none for any other text |
| MemberRoutes.MembershipTypeNamed | server/routes/members.js:103-106 | the membership type named by a text is the one whose name it is, none for any other text |
| MemberRoutes.CheckCreate | server/routes/members.js:134-167 | the early returns of the create handler, in order, after every validator including the phone type, membership type and club checks |
| MemberRoutes.CreateMemberM | server/routes/members.js:124-196 | a created member is stored under the next identity and last in order; a refusal, including an invalid phone type, membership type or club, changes nothing |
| MemberRoutes.ApplyPatch | server/routes/members.js:302-325 | the assignments give the patched member |
| MemberRoutes.UpdateMemberM | server/routes/members.js:238-331 | the member is replaced by the update's result, or nothing changes on a refusal, including an invalid phone type, membership type or club |
| MemberRoutes.DeleteMemberM | server/routes/members.js:338-362 | the member and its place in the order are removed, or nothing changes on a refusal |
| MemberProperties.Dec31Rule | server/routes/members.js:12-17 | before the cut-off the offered expiration is Dec 31 of the reference year, from it on Dec 31 of the next; never in the past |
| MemberProperties.DecYearMonotone | server/routes/members.js:12-17 | a later sign-up day never gets an earlier Dec 31 |
| MemberProperties.StoredAsDec31 | server/routes/members.js:188 | an expiration whose day part is the offered one is stored as local midnight of that Dec 31 |
| MemberProperties.CreateOnlyIfChecked | server/routes/members.js:78-192 | a created member passed the validators, the Dec 31 rule, the club checks and the email check |
| MemberProperties.CreateWhenChecked | server/routes/members.js:134-192 | a request passing every check is created as the handler's document under the next identity |
| MemberProperties.SavedWhenComplete | server/routes/members.js:192 | the save of a complete document with a free email and a readable expiration goes through |
| MemberProperties.CreateDefaults | server/routes/members.js:169-190 | the created member has the offered Dec 31 when one was given, none otherwise, the phone type and membership type named (Full when absent, no phone type when absent) and the club given |
| MemberProperties.CreateChoiceRefused | server/routes/members.js:99-107 | a create is refused with "Invalid phone type" exactly when the phone type is null or not Home, Cell or Work, with "Invalid membership type" exactly when it is null or not Full, Associate, Honorary or Inactive, and with "Valid club ID" exactly when the club is null |
| MemberProperties.UpdateChoiceRefused | server/routes/members.js:225-233 | the same three refusals for an update |
| MemberProperties.MemberAdminCreatesInOwnClub | server/routes/members.js:146-154 | a Member Admin creates members only in their own club |
| MemberProperties.CreateKeepsTableSound | server/routes/members.js:169-192 | creating keeps every member passing the schema and emails unique |
| MemberProperties.UpdateOnlyIfAllowed | server/routes/members.js:203-251 | an update goes through only for a valid body and a caller who may access the member |
| MemberProperties.UpdateOnlySupplied | server/routes/members.js:302-325 | only the supplied fields change; a given phone type, membership type or club is stored as named |
| MemberProperties.UpdateExpirationRule | server/routes/members.js:276-324 | an expiration cannot be cleared, and is stored only when its day is the offered Dec 31 or the stored one |
| MemberProperties.UpdateToDec31 | server/routes/members.js:319-324 | choosing the offered day stores that Dec 31 |
| MemberProperties.ClearingRefused | server/routes/members.js:279-281 | null or an empty expiration is refused with "cannot be cleared" |
| MemberProperties.UpdateEmailRule | server/routes/members.js:293-300 | the email changes only to one no member has; a taken one is refused |
| MemberProperties.UpdateKeepsTableSound | server/routes/members.js:293-327 | updating keeps every member passing the schema and emails unique |
| MemberProperties.MemberAdminMovesMemberOut | server/routes/members.js:325 | as written, a Member Admin can move a member of their club to any club, even one that does not exist |
| MemberProperties.ScopedUpdateKeepsClub | server/routes/members.js:325 | with the create handler's club checks, a Member Admin's update keeps the member in their club and any club named exists |
| MemberProperties.AccessUniform | server/routes/members.js:61-354 | read, update and delete refuse the same callers with the same 403 |
| MemberProperties.ListMembersScoped | server/routes/members.js:29-45 | a Member Admin lists exactly their club's members; others list all, in stored order |
| MemberProperties.MemberAdminReadsWhatTheyList | server/routes/members.js:33-68 | a Member Admin can read exactly the members they list |
| MemberProperties.DeleteKeepsTable | server/routes/members.js:338-362 | deleting removes exactly that member and keeps the order exact |
| ClubRoutes.StatusOf | server/routes/clubs.js:72-98 | the stored status is the body's value, Active when absent |
| ClubRoutes.CreateClubValidation | server/routes/clubs.js:58-67 | no message exactly when the name is given, the home page is empty or a URL once trimmed (so a blank one is refused), the status is absent or valid, and the member admin is not null |
| ClubRoutes.FieldValidation | server/routes/clubs.js:111-114 | no message exactly when a supplied name is not empty, a supplied home page is empty or a URL once trimmed, and the status is absent or valid |
| ClubRoutes.UpdateClubValidation | server/routes/clubs.js:107-115 | no message exactly when each supplied field is valid and the member admin is not null |
| ClubRoutes.CreateClubM | server/routes/clubs.js:72-98 | a created club is stored under the next identity, last in order; a refusal, including a null member admin, changes nothing |
| ClubRoutes.ApplyClubPatch | server/routes/clubs.js:135-162 | the assignments give the patched club |
| ClubRoutes.UpdateClubM | server/routes/clubs.js:120-168 | the club is replaced by the update's result, or nothing changes on a refusal, including a null member admin |
| ClubRoutes.DeleteClubM | server/routes/clubs.js:174-188 | the club is removed and with it every member of the club |
| ClubProperties.CreateOnlyIfChecked | server/routes/clubs.js:58-98 | a club is created only for a System or Club Admin, with a free name and a member admin that is not null and, when given, is stored |
| ClubProperties.CreateWhenChecked | server/routes/clubs.js:72-98 | a request passing those checks is stored with the home page trimmed, the member admin given or none, and Active when no status is given |
| ClubProperties.CreateKeepsClubsSound | server/routes/clubs.js:72-98 | creating keeps names unique and the order exact |
| ClubProperties.RenameRule | server/routes/clubs.js:139-141 | renaming to another club's name is refused; the current name is never refused |
| ClubProperties.UpdateOnlySupplied | server/routes/clubs.js:135-162 | only supplied fields change, the home page stored trimmed; an update that goes through never had a null member admin, and a given one is a stored member |
| ClubProperties.NullAdminRefused | server/routes/clubs.js:115 | as written, an update with a null member admin is refused with "Invalid member ID" |
| ClubProperties.NullableClearsAdmin | server/routes/clubs.js:151-153 | with the validator nullable, a permitted null member admin clears the admin and other bodies are answered as before |
| ClubProperties.UpdateKeepsClubsSound | server/routes/clubs.js:135-163 | a valid permitted update is never refused by the save and keeps the table sound |
| ClubProperties.MemberAdminOwnClub | server/routes/clubs.js:41-133 | a Member Admin reads and updates exactly their own club; other roles reach every club |
| ClubProperties.DeleteCascade | server/routes/clubs.js:174-188 | deleting a club leaves no member of it, keeps every other member, and keeps both tables exact |
| AdminRoutes.View | server/routes/admins.js:20-48 | the admin as sent: username, role and member, never the password |
| AdminRoutes.CreateAdminValidation | server/routes/admins.js:53-65 | no message exactly when the username is given, the password has six characters or more, the role is valid and the member is given |
| AdminRoutes.UpdateAdminValidation | server/routes/admins.js:111-124 | no message exactly when a supplied role is valid and a supplied password is long enough |
| AdminRoutes.CreateAdminM | server/routes/admins.js:73-103 | a created admin is stored under the next identity; a refusal changes nothing |
| AdminRoutes.UpdateAdminM | server/routes/admins.js:128-149 | the admin is replaced by the update's result, or nothing changes |
| AdminRoutes.DeleteAdminM | server/routes/admins.js:157-168 | the admin is removed, or nothing changes on a refusal |
| AdminProperties.ReservedToSystemAdmin | server/routes/admins.js:20-168 | every admin route answers 401 without a user and 403 to any role but System Admin |
| AdminProperties.CreateAdminRule | server/routes/admins.js:53-103 | an admin is created exactly for an existing member without a role, under a free username, with a valid role and password |
| AdminProperties.CreateKeepsAdminsSound | server/routes/admins.js:73-103 | creating keeps usernames unique and one admin per member |
| AdminProperties.UpdateOnlySupplied | server/routes/admins.js:128-149 | an update keeps username and member and changes only what is supplied |
| AdminProperties.CreateResponseHidesPassword | server/routes/admins.js:89-103 | two creates differing only in an acceptable password get the same answer |
| AdminProperties.GetHidesPassword | server/routes/admins.js:34-48 | reading an admin back gives the same view whatever its password |
| PaymentRoutes.Paid | server/routes/memberPayments.js:90-91 | exactly the members with a payment for the club and year |
| PaymentRoutes.ListMemberPayments | server/routes/memberPayments.js:17-27 | exactly the payments matching the given club and club payment filters |
| PaymentRoutes.FieldMessages | server/routes/memberPayments.js:39-43 | a missing value fails both validators; a given one fails only the check |
| PaymentRoutes.PaymentValidation | server/routes/memberPayments.js:35-44 | no message exactly when every field is given, the amount is positive and the year is at least 1900 |
| PaymentRoutes.CreateMemberPaymentM | server/routes/memberPayments.js:48-61 | a recorded payment is stored under the next identity; a refusal changes nothing |
| PaymentProperties.InYearIsYear | server/routes/memberPayments.js:77-85 | the range from January 1 of the year to January 1 of the next holds exactly the dates of that year |
| PaymentProperties.UnpaidNeedsBoth | server/routes/memberPayments.js:74 | without clubId or clubYear the answer is 400 |
| PaymentProperties.UnpaidMembership | server/routes/memberPayments.js:83-93 | a member is unpaid exactly when stored, in the club, expiring in the year, not an Associate and without a payment for the club and year |
| PaymentProperties.UnpaidOrdered | server/routes/memberPayments.js:83-93 | the unpaid list keeps stored order and lists no member twice |
| PaymentProperties.CreatePaymentRule | server/routes/memberPayments.js:35-61 | a payment is recorded exactly when the body is valid and the member and club payment exist |
| PaymentProperties.PaymentMarksPaid | server/routes/memberPayments.js:58-93 | recording a payment takes its member off the unpaid list of its club and year and adds no one |
| ExportRoutes.ExportRowOf | server/routes/fileExports.js:159-194 | one output row of 34 columns for an audit row and its populated club and member |
| ExportRoutes.Populate | server/routes/fileExports.js:137-139 | a reference gives the record when it is still stored, none otherwise |
| ExportRoutes.RowsOfImport | server/routes/fileExports.js:137-140 | exactly the audit rows of the import |
| ExportProperties.RowsOfImportCounts | server/routes/fileExports.js:137-140 | each audit row of the import is kept as often as it is stored |
| ExportProperties.RowsOfImportAppend | server/routes/fileExports.js:137-140 | the rows keep the stored (creation) order: those of a later part of the table come after those of an earlier part |
| ExportRoutes.ExportRows | server/routes/fileExports.js:143-197 | one output row per audit row, in order |
| ExportRoutes.GatherRows | server/routes/fileExports.js:143-197 | the row loop pushes the rows `ExportRows` gives |
| ExportRoutes.CreateExportM | server/routes/fileExports.js:54-89 | a created export is stored under the next identity; a refusal changes nothing |
| ExportRoutes.DeleteExportM | server/routes/fileExports.js:92-110 | the export is removed, or nothing changes on a refusal |
| ExportRoutes.ProcessExportM | server/routes/fileExports.js:113-242 | the export record and answer are those of the process handler |
| ExportProperties.FormatDateReadsBack | server/routes/fileExports.js:150-157 | no date gives ''; otherwise splitting at `/` and reading each piece gives back month, day and year |
| ExportProperties.DeceasedYesNo | server/routes/fileExports.js:191 | `Deceased?` is Yes exactly for a deceased member, No otherwise, a missing member included |
| ExportProperties.UnmappedBlank | server/routes/fileExports.js:186-192 | the unmapped columns are always blank |
| ExportProperties.MissingClubBlank | server/routes/fileExports.js:163-165 | the club columns are blank when the row has no club |
| ExportProperties.ClubColumnsOf | server/routes/fileExports.js:163-165 | the club columns hold the club's name, charter number and state |
| ExportProperties.MissingMemberBlank | server/routes/fileExports.js:162-190 | every member column is blank when the row has no member |
| ExportProperties.RowColumnsOf | server/routes/fileExports.js:160-193 | row id, exception and export set are copied as they are |
| ExportProperties.MemberNamesOf | server/routes/fileExports.js:167-179 | the last name, first name and email columns hold the member's |
| ExportProperties.MemberExpirationOf | server/routes/fileExports.js:180 | the expiration column is the member's expiration, formatted |
| ExportProperties.MemberTypeOf | server/routes/fileExports.js:181 | the type column is the member's membership type |
| ExportProperties.ExportFileNameShape | server/routes/fileExports.js:209-212 | the name is timestamp, dash and cleaned name, `.xlsx` added only when missing, every character allowed |
| ExportProperties.ExportFileNameOfClean | server/routes/fileExports.js:210 | a cleaned name gives the same output name |
| ExportProperties.CreateExportRule | server/routes/fileExports.js:56-75 | an export is created exactly for an existing import and a given name, stored trimmed, Pending, with nothing exported |
| ExportProperties.ProcessLifecycle | server/routes/fileExports.js:131-236 | once started, the export ends Completed with its path and one record per audit row, or Failed with the error as only message; nothing else changes |
| ExportProperties.ProcessRefused | server/routes/fileExports.js:115-129 | a refused request changes nothing |
| PhoneBackfill.Loaded | server/scripts/update_phone_normalized.js:8-12 | with `.select('phone')` the normalised phone reads as nothing; with it selected, the stored value |
| PhoneBackfill.Fix | server/scripts/update_phone_normalized.js:13-14 | the saved member's normalised phone is its phone's digits; nothing else changes |
| PhoneBackfill.Visit | server/scripts/update_phone_normalized.js:11-16 | a member is changed only when it is saved |
| PhoneBackfill.Backfilled | server/scripts/update_phone_normalized.js:9-17 | the pass keeps the identities and changes no member not yet visited |
| PhoneBackfill.VisitMember | server/scripts/update_phone_normalized.js:10-16 | the loop body saves exactly when the value read differs from the phone's digits |
| PhoneBackfill.Backfill | server/scripts/update_phone_normalized.js:8-18 | the loop leaves every member visited and returns the number of saves |
| PhoneBackfillProperties.SaveCountIsSaved | server/scripts/update_phone_normalized.js:15-18 | the counter is the number of members saved, each visited once |
| PhoneBackfillProperties.UpdatedCountsSaves | server/scripts/update_phone_normalized.js:9-18 | `updated` is the number of stored members whose value read differs from their phone's digits |
| PhoneBackfillProperties.PassChangesOnlyNormalized | server/scripts/update_phone_normalized.js:12-16 | a pass changes at most the normalised phone, and sets it to the digits wherever it saved |
| PhoneBackfillProperties.PassNormalizesAll | server/scripts/update_phone_normalized.js:9-17 | reading the stored value, every member agrees with its phone afterwards |
| PhoneBackfillProperties.RerunSavesNothing | server/scripts/update_phone_normalized.js:9-18 | reading the stored value, a second pass saves nobody and changes nothing |
| PhoneBackfillProperties.AsWrittenRerunSavesAgain | server/scripts/update_phone_normalized.js:8-12 | as written, a second pass saves every member whose phone has a digit again |
| PhoneBackfillProperties.AsWrittenLeavesStale | server/scripts/update_phone_normalized.js:8-12 | as written, a stale normalised phone beside a phone without digits is never corrected |
| DataGrid.TotalPages | client/src/components/DataGrid.js:14 | `Math.ceil`: the pages hold all rows, the last page is not empty, and no rows means no pages |
| DataGrid.PageRows | client/src/components/DataGrid.js:15-16 | the page's rows are the rows from `page * pageSize` on, at most a page of them, none past the end |
| DataGrid.FirstPagesArePrefix | client/src/components/DataGrid.js:15-16 | the first `n` pages in turn are the first `n * pageSize` rows |
| DataGrid.PagesCoverRows | client/src/components/DataGrid.js:14-16 | all pages in turn are exactly the rows |
| DataGrid.Render | client/src/components/DataGrid.js:26-93 | loading message, empty state exactly for no rows, else the page's rows with the bar exactly when there is more than one page |
| DataGrid.MoreThanOnePage | client/src/components/DataGrid.js:14-74 | there is more than one page, and so a pagination bar, exactly when the rows overflow one page |
| DataGrid.RenderInRange | client/src/components/DataGrid.js:34-93 | on a page that exists the table shows at least one row |
| DataGrid.Grid.constructor | client/src/components/DataGrid.js:12 | the grid starts on the first page |
| DataGrid.Grid.View | client/src/components/DataGrid.js:26-93 | the loading message exactly while loading, the empty state exactly without rows, otherwise exactly the current page's slice of the rows, never none while the page exists, and the page bar exactly when the rows overflow one page, numbered from 1 with Previous disabled on the first page and Next on the last |
| DataGrid.Grid.Previous | client/src/components/DataGrid.js:18-20 | one page back, never below the first; a page in range stays in range |
| DataGrid.Grid.Next | client/src/components/DataGrid.js:22-24 | one page on, never past the last |
| DataGrid.Grid.SetRows | client/src/components/DataGrid.js:12-16 | new rows replace the old; the current page is kept |
| DataGrid.StalePageShowsNothing | client/src/components/DataGrid.js:12-74 | as written, a kept page past the end of fewer rows renders an empty table without a bar |
| DataGrid.StalePageScenario | client/src/components/DataGrid.js:12-24 | eleven rows by ten, Next, then ten rows: an empty table without a bar |
| DataGrid.RenderClamped | client/src/components/DataGrid.js:12-93 | with the page clamped, rows that are there are always shown, and a page in range renders as before |
| DataGrid.StalePageClamped | client/src/components/DataGrid.js:12-24 | with the page clamped, the same scenario shows the ten rows |

## Left out

- Mongoose strict mode: Member.js declares only some of the fields the routes write, and Club.js declares neither `charterNumber` nor `state`. The model stores every field the routes write and does not drop the undeclared ones. Under strict mode the import's `Club.findOne({ charterNumber })` would find no club and each row would try to create its club again; the model finds the club by its stored charter number.
- Date parsing of cell text (`new Date(text)`) is a parameter. JavaScript's normalisation of off-calendar dates is left out: an off-calendar month or day reads as no date.
- `toLowerCase` is modelled on ASCII letters only.
- Database failures other than the schema's own refusals, such as a lost connection, come as a per-row `fault` parameter. A save refused for an empty required path or a duplicate key (E11000) is worked out from the stored tables, not taken from a parameter.
- Reading and writing workbooks (XLSX), the upload itself (multer), the file system and the `Date.now()` timestamp are left out or are parameters.
- Concurrency between requests is left out: each handler runs alone.
- LegacySpec.Fill: the older importer's membership type is never filled, because the stored one is never empty.
- The cut-off month and day of `computeDec31Iso` are a parameter, not read from the environment.
- `String(date)` in the member update is a rendering parameter.
- `normalizeEmail`, `isEmail` and `isURL` are parameters.
- Password length is counted in characters, not UTF-16 code units.
- Admin password hashing is left out, as are schema save failures of admins.
- Malformed ObjectIds (`isMongoId`) are left out: identities are well-formed.
- PaymentProperties.UnpaidMembership: `parseInt` of the year is taken on a plain decimal year. Leading white space and signs are left out, as are years outside four digits and time-zone offsets in the range.
- The GET list endpoints' `populate` and `sort` are reduced to the records they return, in stored order.
- The export GET endpoints are left out.
- Payment identifiers and server/routes/payments.js (club payments) are not part of this model.
- ClubRoutes.PatchClub: a null home page, which the optional check skips, is stored as the empty string rather than null.
- ImportEngine.RunJob: the audit records of an earlier run of the same import are kept when it is processed again, as in the source.
- ExportRoutes.ProcessExport: the `details` text of the 500 answer (the exception's message) is left out; the answer carries only its error.
- Text.CleanFileName: works on characters, so a character outside the Basic Multilingual Plane becomes one `_`, where JavaScript replaces each of its two UTF-16 code units.
- PhoneBackfill.Backfill: requires that the member order lists exactly the stored members. The script's save failures and `process.exit` are left out.
- DataGrid.Grid.constructor: requires a positive page size. The component assumes one and does not check it.
- DataGrid.Grid.Next: requires more than one page, because the button is only rendered then.
- DataGrid rendering of cells, the edit and delete buttons and the Actions column are left out.

## Findings

| source | as written | input that shows it | evidently intended | confidence | as-written member | corrected member |
|---|---|---|---|---|---|---|
| server/routes/members.js:325 | the update assigns `member.club = club \|\| null` with no club check | a Member Admin of club A updates a member of A with `club` set to club B, or to an id no club has | the create handler's checks (146-161): a Member Admin keeps the member in their own club, and the club named exists | not executed | MemberProperties.MemberAdminMovesMemberOut | MemberProperties.ScopedUpdateKeepsClub |
| server/scripts/update_phone_normalized.js:8-12 | members are read with `.select('phone')`, so the stored normalised phone is never loaded and compares as '' | a member with phone "555-1234" and normalised phone "5551234": a re-run saves it again and counts 1; a member with phone "n/a" and a stale normalised phone "123" is never corrected | read the normalised phone too, so a re-run saves nobody and every member agrees with its phone | not executed | PhoneBackfillProperties.AsWrittenRerunSavesAgain | PhoneBackfillProperties.RerunSavesNothing |
| server/routes/clubs.js:151-153 | the update validator `body('memberAdmin').optional().isMongoId()` lets null reach `isMongoId`, which refuses it, so the handler's branch that clears the member admin is never reached | a Club Admin updates a club with `{ "memberAdmin": null }`: 400 "Invalid member ID" and the admin is kept | `optional({ nullable: true })`, so null clears the member admin | not executed | ClubProperties.NullAdminRefused | ClubProperties.NullableClearsAdmin |
| client/src/components/DataGrid.js:12-74 | `currentPage` is kept when the parent passes fewer rows | 11 rows by 10, Next, then 10 rows: an empty table with no pagination bar | clamp the page to the last one that exists, so the remaining rows are shown | not executed | DataGrid.StalePageScenario | DataGrid.RenderClamped |
