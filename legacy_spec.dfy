/** What the older importer, `POST /api/uploads/nfrw_import` of
    server/routes/uploads.js, does to one spreadsheet row and to a whole sheet,
    as functions over the member table. It never touches clubs and writes no
    audit rows. The imperative handler in legacy_engine.dfy is proved to
    compute exactly these. */
module LegacySpec {
  import opened Wrappers
  import opened Text
  import opened Models
  import opened Store
  import opened Fields
  import opened Normalize
  import opened ImportSpec

  /** The member table: records, retrieval order and the identity counter. */
  datatype MemberTable = MemberTable(members: map<Id, Member>, order: seq<Id>, nextId: Id)

  ghost predicate TableWf(t: MemberTable) {
    OrderedTable(t.members, t.order, t.nextId)
  }

  // ---------------------------------------------------------------------------
  // Reading a row
  // ---------------------------------------------------------------------------

  /** The cells the older importer reads. Every one is the trimmed value of
      the first present header spelling, except the expiration cell, which
      reaches the date parser as written. */
  datatype UploadRow = UploadRow(
    firstName: string,
    lastName: string,
    email: string,
    phone: string,
    prefix: string,
    middleName: string,
    badgeNickname: string,
    suffix: string,
    streetAddress: string,
    address2: string,
    city: string,
    state: string,
    zip: string,
    membershipType: string,
    expirationRaw: string,
    occupation: string,
    employer: string,
    deceased: string)

  function ReadUploadRow(row: Row): UploadRow {
    UploadRow(
      GetField(row, UploadFirstKeys), GetField(row, UploadLastKeys), GetField(row, UploadEmailKeys),
      GetField(row, UploadPhoneKeys), GetField(row, UploadPrefixKeys), GetField(row, UploadMiddleKeys),
      GetField(row, UploadBadgeKeys), GetField(row, UploadSuffixKeys), GetField(row, UploadStreetKeys),
      GetField(row, UploadAddress2Keys), GetField(row, UploadCityKeys), GetField(row, UploadStateKeys),
      GetField(row, UploadZipKeys), GetField(row, UploadMembershipTypeKeys),
      GetRawField(row, UploadExpirationKeys), GetField(row, UploadOccupationKeys),
      GetField(row, UploadEmployerKeys), GetField(row, UploadDeceasedKeys))
  }

  function ReadUploadSheet(rows: seq<Row>): (r: seq<UploadRow>)
    ensures |r| == |rows| && forall i :: 0 <= i < |rows| ==> r[i] == ReadUploadRow(rows[i])
  {
    if rows == [] then [] else [ReadUploadRow(rows[0])] + ReadUploadSheet(rows[1..])
  }

  /** The member fields of a row after normalisation. */
  datatype Upload = Upload(
    firstName: string,
    lastName: string,
    email: string,
    phone: string,
    phoneDigits: string,
    prefix: string,
    middleName: string,
    badgeNickname: string,
    suffix: string,
    streetAddress: string,
    address2: string,
    city: string,
    state: string,
    zip: string,
    membershipType: MembershipType,
    membershipExpiration: Option<Date>,
    occupation: string,
    employer: string,
    deceased: Option<bool>)

  /** Email lower-cased, the phone's digits for matching, the membership type
      bucketed, the expiration parsed (unreadable text gives none) and the
      deceased flag read as yes, no or nothing. */
  function NormaliseUpload(r: UploadRow, parse: DateParser): (u: Upload)
    ensures u.email == [] <==> r.email == []
    ensures ToLower(u.email) == u.email
    ensures AllDigits(u.phoneDigits)
    ensures r.expirationRaw == [] ==> u.membershipExpiration == None
    ensures u.deceased == UploadDeceasedOf(r.deceased)
  {
    ToLowerIdempotent(r.email);
    Upload(
      r.firstName, r.lastName, ToLower(r.email), r.phone, DigitsOf(r.phone), r.prefix, r.middleName,
      r.badgeNickname, r.suffix, r.streetAddress, r.address2, r.city, r.state, r.zip,
      MembershipTypeOf(r.membershipType), ParseDateCell(r.expirationRaw, parse), r.occupation, r.employer,
      UploadDeceasedOf(r.deceased))
  }

  // ---------------------------------------------------------------------------
  // Matching: email first, then name and club with email or phone
  // ---------------------------------------------------------------------------

  function WithEmail(members: map<Id, Member>, email: string): Id -> bool {
    id => id in members && members[id].email == email
  }

  /** A candidate is the row's member when the emails agree ignoring case or
      the phones have the same digits; an empty value never agrees. */
  predicate UploadContactMatches(u: Upload, cand: Member) {
    || (u.email != [] && cand.email != [] && ToLower(cand.email) == u.email)
    || (u.phoneDigits != [] && cand.phone != [] && DigitsOf(cand.phone) == u.phoneDigits)
  }

  function UploadMatchesContact(members: map<Id, Member>, u: Upload): Id -> bool {
    id => id in members && UploadContactMatches(u, members[id])
  }

  /** `Member.findOne({ email })`, tried only for a row with an email. */
  function EmailTier(members: map<Id, Member>, order: seq<Id>, u: Upload): Option<Id> {
    if u.email != [] then FirstWhere(order, WithEmail(members, u.email)) else None
  }

  /** The existing member a row is merged into, if any. */
  function UploadMatch(members: map<Id, Member>, order: seq<Id>, u: Upload, clubId: Id): (r: Option<Id>)
    ensures r.Some? ==> r.value in members
  {
    var t1 := EmailTier(members, order, u);
    if t1.Some? then t1
    else FirstWhere(Filter(order, SameNameInClub(members, u.firstName, u.lastName, clubId)),
                    UploadMatchesContact(members, u))
  }

  // ---------------------------------------------------------------------------
  // Fill-only-if-empty
  // ---------------------------------------------------------------------------

  /** `if (!existing.f && f) existing.f = f`. */
  function Fill(existing: string, incoming: string): (r: string)
    ensures existing != [] ==> r == existing
    ensures existing == [] ==> r == incoming
  {
    if existing == [] && incoming != [] then incoming else existing
  }

  function FillOption<T>(existing: Option<T>, incoming: Option<T>): (r: Option<T>)
    ensures existing.Some? ==> r == existing
    ensures existing.None? ==> r == incoming
  {
    if existing.None? && incoming.Some? then incoming else existing
  }

  /** The member after the fill: each empty field takes the row's value; the
      club is set only when the member has none. The email, the normalised
      phone and the fields the row does not carry are never written, and a
      stored membership type is never empty, so it is kept too. */
  function FillMember(m: Member, u: Upload, clubId: Id): Member {
    m.(firstName := Fill(m.firstName, u.firstName),
       lastName := Fill(m.lastName, u.lastName),
       phone := Fill(m.phone, u.phone),
       membershipExpiration := FillOption(m.membershipExpiration, u.membershipExpiration),
       club := FillOption(m.club, Some(clubId)),
       prefix := Fill(m.prefix, u.prefix),
       middleName := Fill(m.middleName, u.middleName),
       badgeNickname := Fill(m.badgeNickname, u.badgeNickname),
       suffix := Fill(m.suffix, u.suffix),
       streetAddress := Fill(m.streetAddress, u.streetAddress),
       address2 := Fill(m.address2, u.address2),
       city := Fill(m.city, u.city),
       state := Fill(m.state, u.state),
       zip := Fill(m.zip, u.zip),
       occupation := Fill(m.occupation, u.occupation),
       employer := Fill(m.employer, u.employer),
       deceased := FillOption(m.deceased, u.deceased))
  }

  /** The handler's `changed` flag: some assignment of the fill ran. */
  predicate Changed(m: Member, u: Upload) {
    || (m.firstName == [] && u.firstName != [])
    || (m.lastName == [] && u.lastName != [])
    || (m.phone == [] && u.phone != [])
    || (m.membershipExpiration.None? && u.membershipExpiration.Some?)
    || m.club.None?
    || (m.prefix == [] && u.prefix != [])
    || (m.middleName == [] && u.middleName != [])
    || (m.badgeNickname == [] && u.badgeNickname != [])
    || (m.suffix == [] && u.suffix != [])
    || (m.streetAddress == [] && u.streetAddress != [])
    || (m.address2 == [] && u.address2 != [])
    || (m.city == [] && u.city != [])
    || (m.state == [] && u.state != [])
    || (m.zip == [] && u.zip != [])
    || (m.occupation == [] && u.occupation != [])
    || (m.employer == [] && u.employer != [])
    || (m.deceased.None? && u.deceased.Some?)
  }

  /** The member a row creates: the row's values, an optional field absent
      when its cell is empty, and no contact id, normalised phone, phone type,
      gender or date of birth. */
  function NewUploadMember(u: Upload, clubId: Id): Member {
    Member([], u.prefix, u.firstName, u.middleName, u.lastName, u.badgeNickname, u.suffix,
           u.streetAddress, u.address2, u.city, u.state, u.zip, u.phone, [], None, u.email,
           u.membershipType, u.membershipExpiration, [], [], u.occupation, u.employer, None,
           u.deceased, Some(clubId))
  }

  // ---------------------------------------------------------------------------
  // One row
  // ---------------------------------------------------------------------------

  const UploadMissingName: string := "missing required firstName/lastName"

  /** How a row ended: a member created, a member filled, a match with
      nothing to fill, or an error, whose reason is recorded. */
  datatype UploadOutcome = NewSaved | Filled | NothingToFill | RowFailed(reason: string)

  /** The row's member is matched and filled; it is saved only when the fill
      changed something. A failing save is the row's error. */
  function FillStep(t: MemberTable, id: Id, u: Upload, clubId: Id, fault: Option<string>): (MemberTable, UploadOutcome)
    requires id in t.members
  {
    var m := t.members[id];
    if !Changed(m, u) then (t, NothingToFill)
    else
      var m' := FillMember(m, u, clubId);
      var err := MemberWriteError(t.members, id, m');
      if err.Some? then (t, RowFailed(err.value))
      else if fault.Some? then (t, RowFailed(ErrorReason(fault.value)))
      else (t.(members := t.members[id := m']), Filled)
  }

  /** No member matched: a new one is saved under the next identity. */
  function CreateUploadStep(t: MemberTable, u: Upload, clubId: Id, fault: Option<string>): (MemberTable, UploadOutcome) {
    var m := NewUploadMember(u, clubId);
    var err := MemberWriteError(t.members, t.nextId, m);
    if err.Some? then (t, RowFailed(err.value))
    else if fault.Some? then (t, RowFailed(ErrorReason(fault.value)))
    else (MemberTable(t.members[t.nextId := m], t.order + [t.nextId], t.nextId + 1), NewSaved)
  }

  /** One row: `fault` is the message of an error the database throws while
      the row's member is saved, if it throws one. */
  function UploadStep(t: MemberTable, clubId: Id, r: UploadRow, fault: Option<string>, parse: DateParser)
    : (MemberTable, UploadOutcome)
  {
    if r.firstName == [] || r.lastName == [] then (t, RowFailed(UploadMissingName))
    else
      var u := NormaliseUpload(r, parse);
      match UploadMatch(t.members, t.order, u, clubId)
      case Some(id) => FillStep(t, id, u, clubId, fault)
      case None => CreateUploadStep(t, u, clubId, fault)
  }

  // ---------------------------------------------------------------------------
  // The sheet
  // ---------------------------------------------------------------------------

  /** The `results` object: a filled row counts as updated; a row with
      nothing to fill and a failed row count as skipped, and a failed row
      records its reason at its sheet line `i + 2`. */
  datatype UploadTally = UploadTally(created: nat, updated: nat, skipped: nat, errors: seq<RowError>)

  const NoUploads: UploadTally := UploadTally(0, 0, 0, [])

  function CountUpload(t: UploadTally, i: nat, o: UploadOutcome): UploadTally {
    match o
    case NewSaved => t.(created := t.created + 1)
    case Filled => t.(updated := t.updated + 1)
    case NothingToFill => t.(skipped := t.skipped + 1)
    case RowFailed(reason) => t.(skipped := t.skipped + 1, errors := t.errors + [RowError(i + 2, reason)])
  }

  /** A row step as the loop sees it: the table, the row and its index. */
  type UploadStepFn = (MemberTable, UploadRow, nat) -> (MemberTable, UploadOutcome)

  /** The step of the handler: `faults(i)` is the error the database throws
      while row `i` is saved, if any. */
  function UploadRowStep(clubId: Id, faults: nat -> Option<string>, parse: DateParser): UploadStepFn {
    (t: MemberTable, r: UploadRow, i: nat) => UploadStep(t, clubId, r, faults(i), parse)
  }

  /** The first `n` rows, in order. */
  function UploadRun(t: MemberTable, rows: seq<UploadRow>, n: nat, step: UploadStepFn): (MemberTable, UploadTally)
    requires n <= |rows|
  {
    if n == 0 then (t, NoUploads)
    else
      var (t', tally) := UploadRun(t, rows, n - 1, step);
      var (t'', o) := step(t', rows[n - 1], n - 1);
      (t'', CountUpload(tally, n - 1, o))
  }
}
