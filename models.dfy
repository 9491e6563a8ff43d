/** The stored records of the application (the files under server/models): their enums,
    their defaults and the fields the schema requires. Identities are natural
    numbers handed out by the store; an optional text field that is absent is
    the empty string, because every reader treats `undefined` and `''` alike
    (`x || ...`, `!x`). */
module Models {
  import opened Wrappers
  import opened Text

  type Id = nat

  /** A moment in local time: the calendar day and the milliseconds since
      local midnight. Values are kept normalised (month 1..12, day within the
      month), so two dates are the same instant exactly when they are equal. */
  datatype Date = Date(year: nat, month: nat, day: nat, msOfDay: nat)

  // ---------------------------------------------------------------------------
  // Member (server/models/Member.js and the fields the routes read and write)
  // ---------------------------------------------------------------------------

  datatype MembershipType = Full | Associate | Honorary | Inactive {
    function Name(): string {
      match this
      case Full => "Full"
      case Associate => "Associate"
      case Honorary => "Honorary"
      case Inactive => "Inactive"
    }
  }

  datatype PhoneType = Home | Cell | Work {
    function Name(): string {
      match this
      case Home => "Home"
      case Cell => "Cell"
      case Work => "Work"
    }
  }

  datatype Member = Member(
    nfrwContactId: string,
    prefix: string,
    firstName: string,
    middleName: string,
    lastName: string,
    badgeNickname: string,
    suffix: string,
    streetAddress: string,
    address2: string,
    city: string,
    state: string,
    zip: string,
    phone: string,
    phoneNormalized: string,
    phoneType: Option<PhoneType>,
    email: string,
    membershipType: MembershipType,
    membershipExpiration: Option<Date>,
    associatePrimaryMember: string,
    gender: string,
    occupation: string,
    employer: string,
    dateOfBirth: Option<Date>,
    deceased: Option<bool>,
    club: Option<Id>)

  /** What Member.js demands of a stored member: first and last name present
      and trimmed, an email present and lower-cased, and a club. */
  predicate MemberSchemaOk(m: Member) {
    && m.firstName != [] && Trim(m.firstName) == m.firstName
    && m.lastName != [] && Trim(m.lastName) == m.lastName
    && m.email != [] && ToLower(m.email) == m.email
    && m.club.Some?
  }

  /** Every stored member passes the schema. */
  predicate MembersOk(members: map<Id, Member>) {
    forall id :: id in members ==> MemberSchemaOk(members[id])
  }

  /** Storing a member the schema accepts keeps every member passing it. */
  lemma MembersOkStore(members: map<Id, Member>, id: Id, m: Member)
    requires MembersOk(members) && MemberSchemaOk(m)
    ensures MembersOk(members[id := m])
  {
  }

  /** Email is unique across the stored members. */
  predicate EmailsUnique(members: map<Id, Member>) {
    forall a, b :: a in members && b in members && a != b && members[a].email != [] ==>
      members[a].email != members[b].email
  }

  /** The required paths of Member.js that `m` leaves empty, in schema order. */
  function MissingMemberPaths(m: Member): (paths: seq<string>)
    ensures paths == [] <==> m.firstName != [] && m.lastName != [] && m.email != [] && m.club.Some?
  {
    (if m.firstName == [] then ["firstName"] else [])
    + (if m.lastName == [] then ["lastName"] else [])
    + (if m.email == [] then ["email"] else [])
    + (if m.club.None? then ["club"] else [])
  }

  /** Mongoose's validation message: one "path: Path `path` is required." per
      missing path, joined by ", ". */
  function RequiredMessage(model: string, paths: seq<string>): string {
    model + " validation failed: " + JoinRequired(paths)
  }

  function JoinRequired(paths: seq<string>): string {
    if paths == [] then []
    else if |paths| == 1 then paths[0] + ": Path `" + paths[0] + "` is required."
    else paths[0] + ": Path `" + paths[0] + "` is required., " + JoinRequired(paths[1..])
  }

  /** The leading text of the error the database raises when a unique index
      would hold the same key twice. */
  const DuplicateKeyError: string := "E11000 duplicate key error"

  /** Some member other than `id` already stores `email`. */
  predicate EmailTaken(members: map<Id, Member>, id: Id, email: string) {
    exists o :: o in members && o != id && members[o].email == email
  }

  /** Why saving `m` under `id` fails by the Member schema: a required path is
      empty, or the email is already another member's; none when it is saved. */
  function MemberWriteError(members: map<Id, Member>, id: Id, m: Member): (err: Option<string>)
    ensures err.None? <==> MissingMemberPaths(m) == [] && !EmailTaken(members, id, m.email)
    ensures err.Some? ==> err.value != []
  {
    var missing := MissingMemberPaths(m);
    if missing != [] then Some(RequiredMessage("Member", missing))
    else if EmailTaken(members, id, m.email) then Some(DuplicateKeyError)
    else None
  }

  /** A write the schema accepts keeps emails unique. */
  lemma MemberWriteKeepsEmailsUnique(members: map<Id, Member>, id: Id, m: Member)
    requires EmailsUnique(members)
    requires MemberWriteError(members, id, m).None?
    ensures EmailsUnique(members[id := m])
  {
    var ms := members[id := m];
    forall a, b | a in ms && b in ms && a != b && ms[a].email != []
      ensures ms[a].email != ms[b].email
    {
      if a == id {
        assert !(b in members && b != id && members[b].email == m.email);
      } else if b == id {
        assert !(a in members && a != id && members[a].email == m.email);
      }
    }
  }

  // ---------------------------------------------------------------------------
  // Club (server/models/Club.js, plus the charter number and state the
  // importer stores)
  // ---------------------------------------------------------------------------

  datatype ClubStatus = ClubActive | ClubInactive {
    function Name(): string {
      match this
      case ClubActive => "Active"
      case ClubInactive => "Inactive"
    }
  }

  datatype Club = Club(
    name: string,
    charterNumber: string,
    state: string,
    location: string,
    homePage: string,
    status: ClubStatus,
    memberAdmin: Option<Id>)

  /** Club names are unique across the stored clubs. */
  predicate ClubNamesUnique(clubs: map<Id, Club>) {
    forall a, b :: a in clubs && b in clubs && a != b ==> clubs[a].name != clubs[b].name
  }

  /** Some club other than `id` already has `name`. */
  predicate ClubNameTaken(clubs: map<Id, Club>, id: Id, name: string) {
    exists o :: o in clubs && o != id && clubs[o].name == name
  }

  /** Why saving `c` under `id` fails by the Club schema: an empty name, or a
      name another club has; none when it is saved. */
  function ClubWriteError(clubs: map<Id, Club>, id: Id, c: Club): (err: Option<string>)
    ensures err.None? <==> c.name != [] && !ClubNameTaken(clubs, id, c.name)
    ensures err.Some? ==> err.value != []
  {
    if c.name == [] then Some(RequiredMessage("Club", ["name"]))
    else if ClubNameTaken(clubs, id, c.name) then Some(DuplicateKeyError)
    else None
  }

  /** A write the schema accepts keeps club names unique. */
  lemma ClubWriteKeepsNamesUnique(clubs: map<Id, Club>, id: Id, c: Club)
    requires ClubNamesUnique(clubs)
    requires ClubWriteError(clubs, id, c).None?
    ensures ClubNamesUnique(clubs[id := c])
  {
    var cs := clubs[id := c];
    forall a, b | a in cs && b in cs && a != b
      ensures cs[a].name != cs[b].name
    {
      if a == id {
        assert !(b in clubs && b != id && clubs[b].name == c.name);
      } else if b == id {
        assert !(a in clubs && a != id && clubs[a].name == c.name);
      }
    }
  }

  // ---------------------------------------------------------------------------
  // FileImport (server/models/FileImport.js)
  // ---------------------------------------------------------------------------

  datatype ImportStatus = Uploaded | Processing | Completed | Failed {
    function Name(): string {
      match this
      case Uploaded => "Uploaded"
      case Processing => "Processing"
      case Completed => "Completed"
      case Failed => "Failed"
    }
  }

  datatype FileImport = FileImport(
    filename: string,
    originalName: string,
    filePath: string,
    exportSetId: Option<string>,
    club: Option<Id>,
    uploadedBy: Id,
    status: ImportStatus,
    recordsProcessed: nat,
    recordsCreated: nat,
    recordsUpdated: nat,
    recordsSkipped: nat,
    errors: seq<string>)

  /** The required text fields of an import are present. */
  predicate ImportSchemaOk(f: FileImport) {
    f.filename != [] && f.originalName != [] && f.filePath != []
  }

  /** A freshly uploaded import with the schema defaults. */
  function NewFileImport(filename: string, originalName: string, filePath: string,
                         exportSetId: Option<string>, club: Option<Id>, uploadedBy: Id): (f: FileImport)
    ensures f.status == Uploaded && f.errors == []
    ensures f.recordsProcessed == 0 && f.recordsCreated == 0 && f.recordsUpdated == 0 && f.recordsSkipped == 0
    ensures f.filename == Trim(filename) && f.originalName == Trim(originalName) && f.filePath == Trim(filePath)
    ensures f.club == club && f.uploadedBy == uploadedBy && f.exportSetId == exportSetId
  {
    FileImport(Trim(filename), Trim(originalName), Trim(filePath), exportSetId, club, uploadedBy,
               Uploaded, 0, 0, 0, 0, [])
  }

  // ---------------------------------------------------------------------------
  // FileImportRow (server/models/FileImportRow.js): one audit record per row
  // ---------------------------------------------------------------------------

  datatype RowResult = Created | Updated | Unchanged | Skipped {
    function Name(): string {
      match this
      case Created => "Created"
      case Updated => "Updated"
      case Unchanged => "Unchanged"
      case Skipped => "Skipped"
    }
  }

  datatype FileImportRow = FileImportRow(
    fileImport: Id,
    rowId: string,
    club: Option<Id>,
    member: Option<Id>,
    rowImportResult: RowResult,
    exception: string)

  /** An audit record as the schema stores it: text fields trimmed. */
  function NewFileImportRow(fileImport: Id, rowId: string, club: Option<Id>, member: Option<Id>,
                            result: RowResult, exception: string): (r: FileImportRow)
    ensures r.fileImport == fileImport && r.club == club && r.member == member
    ensures r.rowImportResult == result
    ensures r.rowId == Trim(rowId) && r.exception == Trim(exception)
  {
    FileImportRow(fileImport, Trim(rowId), club, member, result, Trim(exception))
  }

  // ---------------------------------------------------------------------------
  // FileExport, payments and admins (context models the routes use)
  // ---------------------------------------------------------------------------

  datatype ExportStatus = ExportPending | ExportProcessing | ExportCompleted | ExportFailed

  datatype FileExport = FileExport(
    fileImport: Id,
    filename: string,
    filePath: string,
    status: ExportStatus,
    createdBy: Id,
    recordsExported: nat,
    errors: seq<string>)

  datatype ClubPayment = ClubPayment(club: Id, clubYear: int)

  datatype MemberPayment = MemberPayment(member: Id, club: Id, clubPayment: Id, amount: real, clubYear: int)

  datatype Admin = Admin(username: string, password: string, adminType: string, member: Id)

  /** The signed-in identity a request carries (`req.user`). */
  datatype User = User(adminType: string, clubId: Option<Id>, memberId: Id)

  /** `req.user?.adminType || ''`: the role of the signed-in identity, empty
      when there is none. */
  function RoleOf(user: Option<User>): string {
    if user.Some? then user.value.adminType else ""
  }

  const SystemAdmin: string := "System Admin"
  const ClubAdmin: string := "Club Admin"
  const MemberAdmin: string := "Member Admin"

  /** An error response: HTTP status and message. */
  datatype ApiError = ApiError(status: nat, message: string)

  /** A refused request: the validators' messages (400 with `errors`), or an
      error response. */
  datatype Refusal = Invalid(messages: seq<string>) | Rejected(error: ApiError)

  /** The 403 of `checkRole` and of the handlers' own authorization checks. */
  const InsufficientPermissions: ApiError := ApiError(403, "Insufficient permissions")
}
