/** The handler `POST /api/uploads/nfrw_import` of server/routes/uploads.js,
    step by step over the database: the row loop with its `results`
    counters, the email lookup and the candidate loop with its early exit,
    and the fill of a matched member under the `changed` flag. Each method is
    proved to compute the functions of legacy_spec.dfy. */
module LegacyEngine {
  import opened Wrappers
  import opened Text
  import opened Models
  import opened Store
  import opened Fields
  import opened Normalize
  import opened ImportSpec
  import opened LegacySpec

  /** The member table of `db`, the only one the older importer touches. */
  function Table(db: Database): MemberTable
    reads db
  {
    MemberTable(db.members, db.memberOrder, db.nextId)
  }

  /** The candidate loop: the first candidate whose email matches ignoring
      case, or whose phone has the row's digits. */
  method FindByEmailOrPhone(members: map<Id, Member>, candidates: seq<Id>, u: Upload) returns (existing: Option<Id>)
    ensures existing == FirstWhere(candidates, UploadMatchesContact(members, u))
  {
    ghost var p := UploadMatchesContact(members, u);
    var k := 0;
    while k < |candidates|
      invariant 0 <= k <= |candidates|
      invariant FirstWhere(candidates, p) == FirstWhere(candidates[k..], p)
    {
      var cand := candidates[k];
      assert FirstWhere(candidates[k..], p) == if p(cand) then Some(cand) else FirstWhere(candidates[k + 1..], p) by {
        assert candidates[k..][0] == cand && candidates[k..][1..] == candidates[k + 1..];
      }
      if cand in members {
        var c := members[cand];
        if u.email != [] && c.email != [] && ToLower(c.email) == u.email {
          return Some(cand);
        }
        if u.phoneDigits != [] && c.phone != [] {
          var candDigits := DigitsOf(c.phone);
          if candDigits != [] && candDigits == u.phoneDigits {
            return Some(cand);
          }
        }
      }
      k := k + 1;
    }
    return None;
  }

  /** `findOne` by email when the row has one; otherwise, or when that finds
      nobody, the candidates with the same names in the club. */
  method FindUploadMember(db: Database, u: Upload, clubId: Id) returns (existing: Option<Id>)
    ensures existing == UploadMatch(db.members, db.memberOrder, u, clubId)
  {
    existing := None;
    if u.email != [] {
      existing := FirstWhere(db.memberOrder, WithEmail(db.members, u.email));
    }
    if existing.None? {
      var candidates := Filter(db.memberOrder, SameNameInClub(db.members, u.firstName, u.lastName, clubId));
      existing := FindByEmailOrPhone(db.members, candidates, u);
    }
  }

  /** One `if (!existing.f && f) { existing.f = f; changed = true; }` on a
      text field. */
  method FillText(existing: string, incoming: string, changed: bool) returns (v: string, changed': bool)
    ensures v == Fill(existing, incoming)
    ensures changed' == (changed || (existing == [] && incoming != []))
  {
    v, changed' := existing, changed;
    if existing == [] && incoming != [] {
      v, changed' := incoming, true;
    }
  }

  /** The same on an optional field. */
  method FillOpt<T>(existing: Option<T>, incoming: Option<T>, changed: bool) returns (v: Option<T>, changed': bool)
    ensures v == FillOption(existing, incoming)
    ensures changed' == (changed || (existing.None? && incoming.Some?))
  {
    v, changed' := existing, changed;
    if existing.None? && incoming.Some? {
      v, changed' := incoming, true;
    }
  }

  /** The run of fill statements on the matched member, in the handler's
      order, with its `changed` flag. */
  method FillFields(m: Member, u: Upload, clubId: Id) returns (existing: Member, changed: bool)
    ensures existing == FillMember(m, u, clubId)
    ensures changed == Changed(m, u)
  {
    existing, changed := m, false;
    var s: string, d: Option<Date>, c: Option<Id>, b: Option<bool>;
    s, changed := FillText(existing.firstName, u.firstName, changed); existing := existing.(firstName := s);
    s, changed := FillText(existing.lastName, u.lastName, changed); existing := existing.(lastName := s);
    s, changed := FillText(existing.phone, u.phone, changed); existing := existing.(phone := s);
    d, changed := FillOpt(existing.membershipExpiration, u.membershipExpiration, changed);
    existing := existing.(membershipExpiration := d);
    c, changed := FillOpt(existing.club, Some(clubId), changed); existing := existing.(club := c);
    s, changed := FillText(existing.prefix, u.prefix, changed); existing := existing.(prefix := s);
    s, changed := FillText(existing.middleName, u.middleName, changed); existing := existing.(middleName := s);
    s, changed := FillText(existing.badgeNickname, u.badgeNickname, changed); existing := existing.(badgeNickname := s);
    s, changed := FillText(existing.suffix, u.suffix, changed); existing := existing.(suffix := s);
    s, changed := FillText(existing.streetAddress, u.streetAddress, changed); existing := existing.(streetAddress := s);
    s, changed := FillText(existing.address2, u.address2, changed); existing := existing.(address2 := s);
    s, changed := FillText(existing.city, u.city, changed); existing := existing.(city := s);
    s, changed := FillText(existing.state, u.state, changed); existing := existing.(state := s);
    s, changed := FillText(existing.zip, u.zip, changed); existing := existing.(zip := s);
    s, changed := FillText(existing.occupation, u.occupation, changed); existing := existing.(occupation := s);
    s, changed := FillText(existing.employer, u.employer, changed); existing := existing.(employer := s);
    b, changed := FillOpt(existing.deceased, u.deceased, changed); existing := existing.(deceased := b);
  }

  /** The body of the row loop, including its catch. */
  method UploadRowM(db: Database, clubId: Id, r: UploadRow, fault: Option<string>, parse: DateParser)
    returns (outcome: UploadOutcome)
    modifies db`members, db`memberOrder, db`nextId
    ensures (Table(db), outcome) == UploadStep(old(Table(db)), clubId, r, fault, parse)
  {
    if r.firstName == [] || r.lastName == [] {
      return RowFailed(UploadMissingName);
    }
    var u := NormaliseUpload(r, parse);
    var found := FindUploadMember(db, u, clubId);
    if found.Some? {
      var id := found.value;
      var existing, changed := FillFields(db.members[id], u, clubId);
      if !changed {
        return NothingToFill;
      }
      var err := MemberWriteError(db.members, id, existing);
      if err.Some? {
        return RowFailed(err.value);
      }
      if fault.Some? {
        return RowFailed(ErrorReason(fault.value));
      }
      db.members := db.members[id := existing];
      return Filled;
    }
    var doc := NewUploadMember(u, clubId);
    var id := db.nextId;
    var err := MemberWriteError(db.members, id, doc);
    if err.Some? {
      return RowFailed(err.value);
    }
    if fault.Some? {
      return RowFailed(ErrorReason(fault.value));
    }
    db.members := db.members[id := doc];
    db.memberOrder := db.memberOrder + [id];
    db.nextId := id + 1;
    return NewSaved;
  }

  /** The row loop over the sheet. */
  method UploadRowsM(db: Database, clubId: Id, rows: seq<UploadRow>, faults: nat -> Option<string>, parse: DateParser)
    returns (results: UploadTally)
    modifies db`members, db`memberOrder, db`nextId
    ensures (Table(db), results) == UploadRun(old(Table(db)), rows, |rows|, UploadRowStep(clubId, faults, parse))
  {
    results := NoUploads;
    for i := 0 to |rows|
      invariant (Table(db), results) == UploadRun(old(Table(db)), rows, i, UploadRowStep(clubId, faults, parse))
    {
      var outcome := UploadRowM(db, clubId, rows[i], faults(i), parse);
      results := CountUpload(results, i, outcome);
    }
  }

  const UploadForbidden: ApiError := ApiError(403, "Insufficient permissions to import members")
  const ClubIdRequired: ApiError := ApiError(400, "clubId query param required")
  const NoFileUploaded: ApiError := ApiError(400, "No file uploaded")
  const UploadFailed: ApiError := ApiError(500, "Failed to upload file")

  /** What a successful upload reports: the file was stored but not read
      because the spreadsheet library is missing, or the counters of the
      row loop. */
  datatype UploadReport = ParsingSkipped | Processed(results: UploadTally)

  /** The whole handler. `clubId` is the query parameter, `hasFile` whether a
      file came with the request, and `sheet` what reading the workbook gave:
      its rows, or the error the reader threw; `faults(i)` is the error the
      database throws while row `i` is saved, if any. */
  method UploadMembers(db: Database, user: Option<User>, clubId: Option<Id>, hasFile: bool, xlsxAvailable: bool,
                       sheet: Result<seq<Row>, string>, faults: nat -> Option<string>, parse: DateParser)
    returns (r: Result<UploadReport, ApiError>)
    modifies db`members, db`memberOrder, db`nextId
    ensures RoleOf(user) !in ImportRoles ==> r == Failure(UploadForbidden) && Table(db) == old(Table(db))
    ensures RoleOf(user) in ImportRoles && clubId.None? ==> r == Failure(ClubIdRequired) && Table(db) == old(Table(db))
    ensures RoleOf(user) in ImportRoles && clubId.Some? && !hasFile ==>
      r == Failure(NoFileUploaded) && Table(db) == old(Table(db))
    ensures RoleOf(user) in ImportRoles && clubId.Some? && hasFile && !xlsxAvailable ==>
      r == Success(ParsingSkipped) && Table(db) == old(Table(db))
    ensures RoleOf(user) in ImportRoles && clubId.Some? && hasFile && xlsxAvailable && sheet.Failure? ==>
      r == Failure(UploadFailed) && Table(db) == old(Table(db))
    ensures RoleOf(user) in ImportRoles && clubId.Some? && hasFile && xlsxAvailable && sheet.Success? ==>
      var run := UploadRun(old(Table(db)), ReadUploadSheet(sheet.value), |sheet.value|, UploadRowStep(clubId.value, faults, parse));
      r == Success(Processed(run.1)) && Table(db) == run.0
  {
    if RoleOf(user) !in ImportRoles {
      return Failure(UploadForbidden);
    }
    if clubId.None? {
      return Failure(ClubIdRequired);
    }
    if !hasFile {
      return Failure(NoFileUploaded);
    }
    if !xlsxAvailable {
      return Success(ParsingSkipped);
    }
    if sheet.Failure? {
      return Failure(UploadFailed);
    }
    var results := UploadRowsM(db, clubId.value, ReadUploadSheet(sheet.value), faults, parse);
    return Success(Processed(results));
  }
}
