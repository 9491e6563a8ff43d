/** What `POST /api/file-imports/:id/process` (server/routes/fileImports.js)
    does to one spreadsheet row, and to a whole sheet, as functions over a
    snapshot of the tables it touches. The imperative handler in
    import_engine.dfy is proved to compute exactly these. */
module ImportSpec {
  import opened Wrappers
  import opened Text
  import opened Models
  import opened Store
  import opened Fields
  import opened Normalize

  // ---------------------------------------------------------------------------
  // The tables the import reads and writes
  // ---------------------------------------------------------------------------

  datatype ImportDb = ImportDb(
    clubs: map<Id, Club>,
    clubOrder: seq<Id>,
    members: map<Id, Member>,
    memberOrder: seq<Id>,
    auditRows: seq<FileImportRow>,
    nextId: Id)

  /** The retrieval orders list exactly the stored clubs and members, once
      each, and every identity in use is below the counter. */
  ghost predicate Wf(db: ImportDb) {
    OrderedTable(db.clubs, db.clubOrder, db.nextId) && OrderedTable(db.members, db.memberOrder, db.nextId)
  }

  /** A write that fails for a reason outside the row's data (the database is
      unreachable, a timeout): which write of the row fails, and its message. */
  datatype Fault = NoFault | ClubSaveFails(message: string) | MemberSaveFails(message: string)

  // ---------------------------------------------------------------------------
  // Queries in retrieval order
  // ---------------------------------------------------------------------------

  /** The first element of `order` that satisfies `p` (`findOne`, and the
      `for ... break` search over a candidate list). */
  function FirstWhere(order: seq<Id>, p: Id -> bool): (r: Option<Id>)
    ensures r.Some? ==> r.value in order && p(r.value)
    ensures r.None? <==> forall k :: 0 <= k < |order| ==> !p(order[k])
  {
    if order == [] then None
    else if p(order[0]) then Some(order[0])
    else FirstWhere(order[1..], p)
  }

  /** The elements of `order` that satisfy `p`, in order (`find`). */
  function Filter(order: seq<Id>, p: Id -> bool): (r: seq<Id>)
    ensures |r| <= |order|
    ensures forall x :: x in r <==> x in order && p(x)
  {
    if order == [] then []
    else (if p(order[0]) then [order[0]] else []) + Filter(order[1..], p)
  }

  function ClubWithCharter(clubs: map<Id, Club>, charter: string): Id -> bool {
    id => id in clubs && clubs[id].charterNumber == charter
  }

  function MemberWithContact(members: map<Id, Member>, contactId: string): Id -> bool {
    id => id in members && members[id].nfrwContactId == contactId
  }

  function SameNameInClub(members: map<Id, Member>, first: string, last: string, clubId: Id): Id -> bool {
    id => id in members && members[id].firstName == first && members[id].lastName == last
          && members[id].club == Some(clubId)
  }

  // ---------------------------------------------------------------------------
  // Normalised row
  // ---------------------------------------------------------------------------

  /** The member fields of a row after normalisation. Absent text is ''. */
  datatype Incoming = Incoming(
    contactId: string,
    prefix: string,
    firstName: string,
    middleName: string,
    lastName: string,
    badgeNickname: string,
    suffix: string,
    streetAddress: string,
    address2: string,
    city: string,
    state: string,
    zip: string,
    phone: string,
    phoneNormalized: string,
    phoneType: Option<PhoneType>,
    email: string,
    membershipType: MembershipType,
    membershipExpiration: Option<Date>,
    associatePrimaryMember: string,
    gender: string,
    occupation: string,
    employer: string,
    dateOfBirth: Option<Date>,
    deceased: bool)

  function Normalise(f: RowFields, parse: DateParser): (inc: Incoming)
    ensures inc.email == [] <==> f.email == []
    ensures ToLower(inc.email) == inc.email
    ensures AllDigits(inc.phoneNormalized) && |inc.phoneNormalized| <= |f.phone|
    ensures f.membershipExpiration == [] ==> inc.membershipExpiration == None
    ensures f.dateOfBirth == [] ==> inc.dateOfBirth == None
    ensures inc.deceased <==> ToLower(f.deceased) in {"yes", "y", "true", "1"}
  {
    ToLowerIdempotent(f.email);
    Incoming(
      f.nfrwContactId, f.prefix, f.firstName, f.middleName, f.lastName, f.badgeNickname, f.suffix,
      f.streetAddress, f.address2, f.city, f.state, f.zip, f.phone, DigitsOf(f.phone),
      PhoneTypeOf(f.phoneType), ToLower(f.email), MembershipTypeOf(f.membershipType),
      ParseDateCell(f.membershipExpiration, parse), f.associatePrimaryMember, f.gender,
      f.occupation, f.employer, ParseDateCell(f.dateOfBirth, parse), DeceasedOf(f.deceased))
  }

  // ---------------------------------------------------------------------------
  // Matching
  // ---------------------------------------------------------------------------

  /** A candidate is the row's member when the emails agree ignoring case, or
      the normalised phones agree; an empty value on either side never agrees. */
  predicate ContactMatches(inc: Incoming, cand: Member) {
    || (inc.email != [] && cand.email != [] && ToLower(cand.email) == inc.email)
    || (inc.phoneNormalized != [] && cand.phoneNormalized != [] && cand.phoneNormalized == inc.phoneNormalized)
  }

  function MatchesContact(members: map<Id, Member>, inc: Incoming): Id -> bool {
    id => id in members && ContactMatches(inc, members[id])
  }

  /** The first tier: the first member with the row's external contact id. */
  function Tier1(members: map<Id, Member>, order: seq<Id>, inc: Incoming): Option<Id> {
    if inc.contactId == [] then None else FirstWhere(order, MemberWithContact(members, inc.contactId))
  }

  /** The candidates of the second tier: members with the row's names in the
      resolved club, in retrieval order. */
  function Candidates(members: map<Id, Member>, order: seq<Id>, inc: Incoming, clubId: Id): seq<Id> {
    Filter(order, SameNameInClub(members, inc.firstName, inc.lastName, clubId))
  }

  /** The member a row resolves to: tier one, else the first candidate whose
      email or phone matches. */
  function Match(members: map<Id, Member>, order: seq<Id>, inc: Incoming, clubId: Id): (r: Option<Id>)
    ensures r.Some? ==> r.value in members
  {
    var t1 := Tier1(members, order, inc);
    if t1.Some? then t1
    else FirstWhere(Candidates(members, order, inc, clubId), MatchesContact(members, inc))
  }

  // ---------------------------------------------------------------------------
  // Merge and change detection
  // ---------------------------------------------------------------------------

  /** `incoming || existing` on text. */
  function Keep(incoming: string, existing: string): (r: string)
    ensures incoming != [] ==> r == incoming
    ensures incoming == [] ==> r == existing
  {
    if incoming != [] then incoming else existing
  }

  /** The member as the import would save it: optional fields take a
      non-empty incoming value and otherwise keep theirs; the names, the
      membership type, the deceased flag and the club always take the row's. */
  function Merge(m: Member, inc: Incoming, clubId: Id): Member {
    m.(nfrwContactId := Keep(inc.contactId, m.nfrwContactId),
       prefix := Keep(inc.prefix, m.prefix),
       firstName := inc.firstName,
       lastName := inc.lastName,
       middleName := Keep(inc.middleName, m.middleName),
       badgeNickname := Keep(inc.badgeNickname, m.badgeNickname),
       suffix := Keep(inc.suffix, m.suffix),
       streetAddress := Keep(inc.streetAddress, m.streetAddress),
       address2 := Keep(inc.address2, m.address2),
       city := Keep(inc.city, m.city),
       state := Keep(inc.state, m.state),
       zip := Keep(inc.zip, m.zip),
       phone := Keep(inc.phone, m.phone),
       phoneType := inc.phoneType.OrElse(m.phoneType),
       membershipType := inc.membershipType,
       associatePrimaryMember := Keep(inc.associatePrimaryMember, m.associatePrimaryMember),
       gender := Keep(inc.gender, m.gender),
       occupation := Keep(inc.occupation, m.occupation),
       employer := Keep(inc.employer, m.employer),
       deceased := Some(inc.deceased),
       email := Keep(inc.email, m.email),
       membershipExpiration := inc.membershipExpiration.OrElse(m.membershipExpiration),
       dateOfBirth := inc.dateOfBirth.OrElse(m.dateOfBirth),
       club := Some(clubId))
  }

  /** The field-by-field comparison of the handler: some stored field differs
      from the value the merge would give it (dates compared as instants). */
  predicate HasChanges(m: Member, inc: Incoming, clubId: Id) {
    || m.nfrwContactId != Keep(inc.contactId, m.nfrwContactId)
    || m.prefix != Keep(inc.prefix, m.prefix)
    || m.firstName != inc.firstName
    || m.lastName != inc.lastName
    || m.middleName != Keep(inc.middleName, m.middleName)
    || m.badgeNickname != Keep(inc.badgeNickname, m.badgeNickname)
    || m.suffix != Keep(inc.suffix, m.suffix)
    || m.streetAddress != Keep(inc.streetAddress, m.streetAddress)
    || m.address2 != Keep(inc.address2, m.address2)
    || m.city != Keep(inc.city, m.city)
    || m.state != Keep(inc.state, m.state)
    || m.zip != Keep(inc.zip, m.zip)
    || m.phone != Keep(inc.phone, m.phone)
    || m.phoneType != inc.phoneType.OrElse(m.phoneType)
    || m.membershipType != inc.membershipType
    || m.associatePrimaryMember != Keep(inc.associatePrimaryMember, m.associatePrimaryMember)
    || m.gender != Keep(inc.gender, m.gender)
    || m.occupation != Keep(inc.occupation, m.occupation)
    || m.employer != Keep(inc.employer, m.employer)
    || m.deceased != Some(inc.deceased)
    || m.email != Keep(inc.email, m.email)
    || m.membershipExpiration != inc.membershipExpiration.OrElse(m.membershipExpiration)
    || m.dateOfBirth != inc.dateOfBirth.OrElse(m.dateOfBirth)
    || m.club != Some(clubId)
  }

  /** The member a row creates; the import never sets the normalised phone. */
  function NewMember(inc: Incoming, clubId: Id): Member {
    Member(inc.contactId, inc.prefix, inc.firstName, inc.middleName, inc.lastName, inc.badgeNickname,
           inc.suffix, inc.streetAddress, inc.address2, inc.city, inc.state, inc.zip, inc.phone, [],
           inc.phoneType, inc.email, inc.membershipType, inc.membershipExpiration,
           inc.associatePrimaryMember, inc.gender, inc.occupation, inc.employer, inc.dateOfBirth,
           Some(inc.deceased), Some(clubId))
  }

  /** The club a row with an unknown charter number creates. */
  function NewClub(f: RowFields): Club {
    Club(if f.clubName != [] then f.clubName else "Club " + f.charterNumber,
         f.charterNumber, f.clubState, f.clubState, [], ClubActive, None)
  }

  // ---------------------------------------------------------------------------
  // One row
  // ---------------------------------------------------------------------------

  const MissingCharterNumber: string := "Missing CharterNumber"
  const MissingName: string := "Missing required firstName/lastName"
  /** What `existing.club.toString()` throws for a stored member without a club. */
  const NullClubError: string := "Cannot read properties of null (reading 'toString')"

  /** `err.message || String(err)`: an error without a message prints as 'Error'. */
  function ErrorReason(message: string): (r: string)
    ensures r != []
  {
    if message == [] then "Error" else message
  }

  /** How a row ended: written with a result, or skipped for a reason. */
  datatype Outcome = Written(result: RowResult) | Skip(reason: string) {
    function AuditResult(): RowResult {
      match this
      case Written(r) => r
      case Skip(_) => Skipped
    }
  }

  function Audit(db: ImportDb, row: FileImportRow): ImportDb {
    db.(auditRows := db.auditRows + [row])
  }

  /** A skipped row: its audit record carries the reason and the club and
      member references known when it failed. */
  function SkipRow(db: ImportDb, jobId: Id, rowId: string, club: Option<Id>, member: Option<Id>,
                   reason: string): (ImportDb, Outcome) {
    (Audit(db, NewFileImportRow(jobId, rowId, club, member, Skipped, reason)), Skip(reason))
  }

  /** A club found or created, and the tables after it. */
  datatype Resolved = Resolved(db: ImportDb, clubId: Id)

  /** Find the club with the row's charter number, or create it. */
  function ResolveClub(db: ImportDb, f: RowFields, fault: Fault): Result<Resolved, string> {
    match FirstWhere(db.clubOrder, ClubWithCharter(db.clubs, f.charterNumber))
    case Some(id) => Success(Resolved(db, id))
    case None =>
      var c := NewClub(f);
      var id := db.nextId;
      var err := ClubWriteError(db.clubs, id, c);
      if err.Some? then Failure(err.value)
      else if fault.ClubSaveFails? then Failure(ErrorReason(fault.message))
      else Success(Resolved(db.(clubs := db.clubs[id := c], clubOrder := db.clubOrder + [id], nextId := id + 1), id))
  }

  /** The member part of a row whose club is resolved and whose names are present. */
  function MemberStep(db: ImportDb, jobId: Id, rowId: string, exception: string, clubId: Id,
                      inc: Incoming, fault: Fault): (ImportDb, Outcome)
  {
    match Match(db.members, db.memberOrder, inc, clubId)
    case Some(id) => UpdateStep(db, jobId, rowId, exception, clubId, inc, fault, id)
    case None => CreateStep(db, jobId, rowId, exception, clubId, inc, fault)
  }

  /** A matched member: left alone when nothing differs, else merged and saved. */
  function UpdateStep(db: ImportDb, jobId: Id, rowId: string, exception: string, clubId: Id,
                      inc: Incoming, fault: Fault, id: Id): (ImportDb, Outcome)
    requires id in db.members
  {
    var m := db.members[id];
    if m.club.None? then SkipRow(db, jobId, rowId, Some(clubId), None, NullClubError)
    else if !HasChanges(m, inc, clubId) then
      (Audit(db, NewFileImportRow(jobId, rowId, Some(clubId), Some(id), Unchanged, exception)), Written(Unchanged))
    else
      var m' := Merge(m, inc, clubId);
      var err := MemberWriteError(db.members, id, m');
      if err.Some? then SkipRow(db, jobId, rowId, Some(clubId), Some(id), err.value)
      else if fault.MemberSaveFails? then SkipRow(db, jobId, rowId, Some(clubId), Some(id), ErrorReason(fault.message))
      else
        var db' := db.(members := db.members[id := m']);
        (Audit(db', NewFileImportRow(jobId, rowId, Some(clubId), Some(id), Updated, exception)), Written(Updated))
  }

  /** No match: a new member under the next identity. */
  function CreateStep(db: ImportDb, jobId: Id, rowId: string, exception: string, clubId: Id,
                      inc: Incoming, fault: Fault): (ImportDb, Outcome)
  {
    var m' := NewMember(inc, clubId);
    var id := db.nextId;
    var err := MemberWriteError(db.members, id, m');
    if err.Some? then SkipRow(db, jobId, rowId, Some(clubId), None, err.value)
    else if fault.MemberSaveFails? then SkipRow(db, jobId, rowId, Some(clubId), None, ErrorReason(fault.message))
    else
      var db' := db.(members := db.members[id := m'], memberOrder := db.memberOrder + [id], nextId := id + 1);
      (Audit(db', NewFileImportRow(jobId, rowId, Some(clubId), Some(id), Created, exception)), Written(Created))
  }

  /** A row as the loop reads it: its fields, and its own Exception column. */
  datatype SheetRow = SheetRow(fields: RowFields, exception: string)

  function ReadRow(row: Row): SheetRow {
    SheetRow(Extract(row), GetField(row, ExceptionKeys))
  }

  function ReadSheet(rows: seq<Row>): (r: seq<SheetRow>)
    ensures |r| == |rows| && forall i :: 0 <= i < |rows| ==> r[i] == ReadRow(rows[i])
  {
    seq(|rows|, i requires 0 <= i < |rows| => ReadRow(rows[i]))
  }

  /** One iteration of the row loop. */
  function StepRow(db: ImportDb, jobId: Id, r: SheetRow, fault: Fault, parse: DateParser): (ImportDb, Outcome) {
    if r.fields.charterNumber == [] then SkipRow(db, jobId, r.fields.rowId, None, None, MissingCharterNumber)
    else AfterClub(db, jobId, r, ResolveClub(db, r.fields, fault), fault, parse)
  }

  /** The rest of a row once its club lookup has ended with `res`. */
  function AfterClub(db: ImportDb, jobId: Id, r: SheetRow, res: Result<Resolved, string>, fault: Fault,
                     parse: DateParser): (ImportDb, Outcome) {
    if res.Failure? then SkipRow(db, jobId, r.fields.rowId, None, None, res.error)
    else if r.fields.firstName == [] || r.fields.lastName == [] then
      SkipRow(res.value.db, jobId, r.fields.rowId, Some(res.value.clubId), None, MissingName)
    else
      MemberStep(res.value.db, jobId, r.fields.rowId, r.exception, res.value.clubId, Normalise(r.fields, parse), fault)
  }

  // ---------------------------------------------------------------------------
  // The whole sheet
  // ---------------------------------------------------------------------------

  /** A skipped row's entry: its spreadsheet line (header is line 1) and why. */
  datatype RowError = RowError(row: nat, reason: string)

  datatype Tally = Tally(created: nat, updated: nat, unmodified: nat, skipped: nat, errors: seq<RowError>)

  const NoRows: Tally := Tally(0, 0, 0, 0, [])

  /** The counters after row `i` ended with `o`. */
  function Count(t: Tally, i: nat, o: Outcome): Tally {
    match o
    case Written(Created) => t.(created := t.created + 1)
    case Written(Updated) => t.(updated := t.updated + 1)
    case Written(Unchanged) => t.(unmodified := t.unmodified + 1)
    case Written(Skipped) => t.(skipped := t.skipped + 1)
    case Skip(reason) => t.(skipped := t.skipped + 1, errors := t.errors + [RowError(i + 2, reason)])
  }

  /** What the loop does with row `i`: the tables after it and how it ended. */
  type Step = (ImportDb, SheetRow, nat) -> (ImportDb, Outcome)

  /** The import's step: row `i` meets the database fault `faults(i)`. */
  function RowStep(jobId: Id, faults: nat -> Fault, parse: DateParser): Step {
    (db: ImportDb, r: SheetRow, i: nat) => StepRow(db, jobId, r, faults(i), parse)
  }

  /** The tables and counters after the first `n` rows. */
  function Run(db: ImportDb, rows: seq<SheetRow>, n: nat, step: Step): (ImportDb, Tally)
    requires n <= |rows|
  {
    if n == 0 then (db, NoRows)
    else
      var (db', t) := Run(db, rows, n - 1, step);
      var (db'', o) := step(db', rows[n - 1], n - 1);
      (db'', Count(t, n - 1, o))
  }

  /** `Row N: reason`. */
  function ErrorText(e: RowError): string {
    "Row " + NatToString(e.row) + ": " + e.reason
  }

  function ErrorTexts(errors: seq<RowError>): (r: seq<string>)
    ensures |r| == |errors|
    ensures forall k :: 0 <= k < |errors| ==> r[k] == ErrorText(errors[k])
  {
    if errors == [] then [] else [ErrorText(errors[0])] + ErrorTexts(errors[1..])
  }

  /** The job after a completed run: the unchanged count is not stored. */
  function CompletedJob(job: FileImport, rowCount: nat, t: Tally): FileImport {
    job.(status := Completed, recordsProcessed := rowCount, recordsCreated := t.created,
         recordsUpdated := t.updated, recordsSkipped := t.skipped, errors := ErrorTexts(t.errors))
  }

  /** The job after an error escaped the row loop. */
  function FailedJob(job: FileImport, message: string): FileImport {
    job.(status := Failed, errors := [ErrorReason(message)])
  }

  const ImportRoles: set<string> := {"System Admin", "Club Admin", "System", "Club"}
}
