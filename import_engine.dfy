/** The handler `POST /api/file-imports/:id/process` of
    server/routes/fileImports.js, step by step over the database: the row loop
    with its counters, the club find-or-create, the candidate search with its
    early exit, the in-place update of a matched member and the audit row
    appended for every row. Each method is proved to compute the functions of
    import_spec.dfy. */
module ImportEngine {
  import opened Wrappers
  import opened Text
  import opened Models
  import opened Store
  import opened Fields
  import opened Normalize
  import opened ImportSpec

  /** The tables of `db` the import reads and writes. */
  function Snapshot(db: Database): ImportDb
    reads db
  {
    ImportDb(db.clubs, db.clubOrder, db.members, db.memberOrder, db.importRows, db.nextId)
  }

  /** The candidate loop: the first candidate whose email matches ignoring
      case, or whose normalised phone matches. */
  method FindByContact(members: map<Id, Member>, candidates: seq<Id>, inc: Incoming) returns (existing: Option<Id>)
    ensures existing == FirstWhere(candidates, MatchesContact(members, inc))
  {
    ghost var p := MatchesContact(members, inc);
    var k := 0;
    while k < |candidates|
      invariant 0 <= k <= |candidates|
      invariant FirstWhere(candidates, p) == FirstWhere(candidates[k..], p)
    {
      var cand := candidates[k];
      assert FirstWhere(candidates[k..], p) == if p(cand) then Some(cand) else FirstWhere(candidates[k + 1..], p) by {
        assert candidates[k..][0] == cand && candidates[k..][1..] == candidates[k + 1..];
      }
      if cand in members {
        var c := members[cand];
        if inc.email != [] && c.email != [] && ToLower(c.email) == inc.email {
          return Some(cand);
        }
        if inc.phoneNormalized != [] && c.phoneNormalized != [] && c.phoneNormalized == inc.phoneNormalized {
          return Some(cand);
        }
      }
      k := k + 1;
    }
    return None;
  }

  /** Tier one by contact id, then the candidate loop. */
  method FindMember(db: Database, inc: Incoming, clubId: Id) returns (existing: Option<Id>)
    ensures existing == Match(db.members, db.memberOrder, inc, clubId)
  {
    existing := None;
    if inc.contactId != [] {
      existing := FirstWhere(db.memberOrder, MemberWithContact(db.members, inc.contactId));
    }
    if existing.None? {
      var candidates := Candidates(db.members, db.memberOrder, inc, clubId);
      existing := FindByContact(db.members, candidates, inc);
    }
  }

  /** `FileImportRow.create`: append one audit record. */
  method AppendAudit(db: Database, row: FileImportRow)
    modifies db`importRows
    ensures db.importRows == old(db.importRows) + [row]
  {
    db.importRows := db.importRows + [row];
  }

  method SkipRowM(db: Database, jobId: Id, rowId: string, club: Option<Id>, member: Option<Id>,
                  reason: string) returns (outcome: Outcome)
    modifies db`importRows
    ensures (Snapshot(db), outcome) == SkipRow(old(Snapshot(db)), jobId, rowId, club, member, reason)
  {
    AppendAudit(db, NewFileImportRow(jobId, rowId, club, member, Skipped, reason));
    outcome := Skip(reason);
  }

  /** `Club.findOne({ charterNumber })`, and a new club when there is none. */
  method ResolveClubM(db: Database, f: RowFields, fault: Fault) returns (r: Result<Id, string>)
    modifies db`clubs, db`clubOrder, db`nextId
    ensures r.Failure? ==>
      Snapshot(db) == old(Snapshot(db)) && ResolveClub(old(Snapshot(db)), f, fault) == Failure(r.error)
    ensures r.Success? ==> ResolveClub(old(Snapshot(db)), f, fault) == Success(Resolved(Snapshot(db), r.value))
  {
    var hit := FirstWhere(db.clubOrder, ClubWithCharter(db.clubs, f.charterNumber));
    if hit.Some? {
      return Success(hit.value);
    }
    var c := NewClub(f);
    var id := db.nextId;
    var err := ClubWriteError(db.clubs, id, c);
    if err.Some? {
      return Failure(err.value);
    }
    if fault.ClubSaveFails? {
      return Failure(ErrorReason(fault.message));
    }
    db.clubs := db.clubs[id := c];
    db.clubOrder := db.clubOrder + [id];
    db.nextId := id + 1;
    return Success(id);
  }

  /** Match, then update or create. */
  method MemberStepM(db: Database, jobId: Id, rowId: string, exception: string, clubId: Id,
                     inc: Incoming, fault: Fault) returns (outcome: Outcome)
    modifies db`members, db`memberOrder, db`importRows, db`nextId
    ensures (Snapshot(db), outcome) == MemberStep(old(Snapshot(db)), jobId, rowId, exception, clubId, inc, fault)
  {
    var existing := FindMember(db, inc, clubId);
    if existing.Some? {
      outcome := UpdateStepM(db, jobId, rowId, exception, clubId, inc, fault, existing.value);
    } else {
      outcome := CreateStepM(db, jobId, rowId, exception, clubId, inc, fault);
    }
  }

  /** Compare field by field; assign the merged fields and save only when
      something differs. */
  method UpdateStepM(db: Database, jobId: Id, rowId: string, exception: string, clubId: Id,
                     inc: Incoming, fault: Fault, id: Id) returns (outcome: Outcome)
    requires id in db.members
    modifies db`members, db`importRows
    ensures (Snapshot(db), outcome) == UpdateStep(old(Snapshot(db)), jobId, rowId, exception, clubId, inc, fault, id)
  {
    var m := db.members[id];
    if m.club.None? {
      outcome := SkipRowM(db, jobId, rowId, Some(clubId), None, NullClubError);
      return;
    }
    if !HasChanges(m, inc, clubId) {
      AppendAudit(db, NewFileImportRow(jobId, rowId, Some(clubId), Some(id), Unchanged, exception));
      return Written(Unchanged);
    }
    var updated := Merge(m, inc, clubId);
    var err := MemberWriteError(db.members, id, updated);
    if err.Some? {
      outcome := SkipRowM(db, jobId, rowId, Some(clubId), Some(id), err.value);
      return;
    }
    if fault.MemberSaveFails? {
      outcome := SkipRowM(db, jobId, rowId, Some(clubId), Some(id), ErrorReason(fault.message));
      return;
    }
    db.members := db.members[id := updated];
    AppendAudit(db, NewFileImportRow(jobId, rowId, Some(clubId), Some(id), Updated, exception));
    return Written(Updated);
  }

  /** `new Member(...).save()`: store `m` under the next identity, last in
      retrieval order. */
  method InsertMember(db: Database, m: Member)
    modifies db`members, db`memberOrder, db`nextId
    ensures Snapshot(db) == old(Snapshot(db)).(members := old(db.members)[old(db.nextId) := m],
                                                memberOrder := old(db.memberOrder) + [old(db.nextId)],
                                                nextId := old(db.nextId) + 1)
  {
    var id := db.nextId;
    db.members := db.members[id := m];
    db.memberOrder := db.memberOrder + [id];
    db.nextId := id + 1;
  }

  /** Save a new member under the next identity. */
  method CreateStepM(db: Database, jobId: Id, rowId: string, exception: string, clubId: Id,
                     inc: Incoming, fault: Fault) returns (outcome: Outcome)
    modifies db`members, db`memberOrder, db`importRows, db`nextId
    ensures (Snapshot(db), outcome) == CreateStep(old(Snapshot(db)), jobId, rowId, exception, clubId, inc, fault)
  {
    var created := NewMember(inc, clubId);
    var id := db.nextId;
    var err := MemberWriteError(db.members, id, created);
    if err.Some? {
      outcome := SkipRowM(db, jobId, rowId, Some(clubId), None, err.value);
      return;
    }
    if fault.MemberSaveFails? {
      outcome := SkipRowM(db, jobId, rowId, Some(clubId), None, ErrorReason(fault.message));
      return;
    }
    InsertMember(db, created);
    AppendAudit(db, NewFileImportRow(jobId, rowId, Some(clubId), Some(id), Created, exception));
    return Written(Created);
  }

  /** The body of the row loop, including its catch. */
  method ProcessRow(db: Database, jobId: Id, r: SheetRow, fault: Fault, parse: DateParser) returns (outcome: Outcome)
    modifies db`clubs, db`clubOrder, db`members, db`memberOrder, db`importRows, db`nextId
    ensures (Snapshot(db), outcome) == StepRow(old(Snapshot(db)), jobId, r, fault, parse)
  {
    var f := r.fields;
    if f.charterNumber == [] {
      outcome := SkipRowM(db, jobId, f.rowId, None, None, MissingCharterNumber);
      return;
    }
    var club := ResolveClubM(db, f, fault);
    if club.Failure? {
      outcome := SkipRowM(db, jobId, f.rowId, None, None, club.error);
      return;
    }
    var clubId := club.value;
    if f.firstName == [] || f.lastName == [] {
      outcome := SkipRowM(db, jobId, f.rowId, Some(clubId), None, MissingName);
      return;
    }
    outcome := MemberStepM(db, jobId, f.rowId, r.exception, clubId, Normalise(f, parse), fault);
  }

  const ProcessForbidden: ApiError := ApiError(403, "Insufficient permissions to process files")
  const ImportNotFound: ApiError := ApiError(404, "File import not found")
  const NoExcelLibrary: ApiError := ApiError(500, "Excel processing library not available")
  const ProcessFailed: ApiError := ApiError(500, "Failed to process file")

  /** The row loop: every row in order, counting each outcome. */
  method ProcessRows(db: Database, jobId: Id, rows: seq<SheetRow>, faults: nat -> Fault, parse: DateParser)
    returns (tally: Tally)
    modifies db`clubs, db`clubOrder, db`members, db`memberOrder, db`importRows, db`nextId
    ensures (Snapshot(db), tally) == Run(old(Snapshot(db)), rows, |rows|, RowStep(jobId, faults, parse))
  {
    tally := NoRows;
    for i := 0 to |rows|
      invariant (Snapshot(db), tally) == Run(old(Snapshot(db)), rows, i, RowStep(jobId, faults, parse))
    {
      var outcome := ProcessRow(db, jobId, rows[i], faults(i), parse);
      tally := Count(tally, i, outcome);
    }
  }

  /** Writing a key twice leaves the second value. */
  lemma UpdateTwice<K, V>(m: map<K, V>, k: K, a: V, b: V)
    ensures m[k := a][k := b] == m[k := b]
  {
  }

  /** A job that may run: mark it Processing, then either record the
      reader's error or process every row and record the counters. */
  method RunJob(db: Database, jobId: Id, sheet: Result<seq<Row>, string>, faults: nat -> Fault,
                parse: DateParser) returns (r: Result<Tally, ApiError>)
    requires jobId in db.imports
    modifies db`clubs, db`clubOrder, db`members, db`memberOrder, db`importRows, db`nextId, db`imports
    ensures sheet.Failure? ==>
      && r == Failure(ProcessFailed)
      && Snapshot(db) == old(Snapshot(db))
      && db.imports == old(db.imports)[jobId := FailedJob(old(db.imports)[jobId].(status := Processing), sheet.error)]
    ensures sheet.Success? ==>
      var run := Run(old(Snapshot(db)), ReadSheet(sheet.value), |sheet.value|, RowStep(jobId, faults, parse));
      && r == Success(run.1)
      && Snapshot(db) == run.0
      && db.imports == old(db.imports)[jobId := CompletedJob(old(db.imports)[jobId], |sheet.value|, run.1)]
  {
    var job := db.imports[jobId];
    db.imports := db.imports[jobId := job.(status := Processing)];
    if sheet.Failure? {
      UpdateTwice(old(db.imports), jobId, job.(status := Processing), FailedJob(job.(status := Processing), sheet.error));
      db.imports := db.imports[jobId := FailedJob(job.(status := Processing), sheet.error)];
      return Failure(ProcessFailed);
    }
    var tally := ProcessRows(db, jobId, ReadSheet(sheet.value), faults, parse);
    UpdateTwice(old(db.imports), jobId, job.(status := Processing), CompletedJob(job, |sheet.value|, tally));
    db.imports := db.imports[jobId := CompletedJob(job, |sheet.value|, tally)];
    return Success(tally);
  }

  /** The whole handler. `sheet` is what reading the uploaded workbook gave:
      its rows, or the error the reader threw; `faults(i)` is the failure
      the database raises while row `i` is written, if any. */
  method ProcessImport(db: Database, user: Option<User>, jobId: Id, xlsxAvailable: bool,
                       sheet: Result<seq<Row>, string>, faults: nat -> Fault, parse: DateParser)
    returns (r: Result<Tally, ApiError>)
    modifies db`clubs, db`clubOrder, db`members, db`memberOrder, db`importRows, db`nextId, db`imports
    ensures RoleOf(user) !in ImportRoles ==>
      r == Failure(ProcessForbidden) && Snapshot(db) == old(Snapshot(db)) && db.imports == old(db.imports)
    ensures RoleOf(user) in ImportRoles && jobId !in old(db.imports) ==>
      r == Failure(ImportNotFound) && Snapshot(db) == old(Snapshot(db)) && db.imports == old(db.imports)
    ensures RoleOf(user) in ImportRoles && jobId in old(db.imports) && !xlsxAvailable ==>
      r == Failure(NoExcelLibrary) && Snapshot(db) == old(Snapshot(db)) && db.imports == old(db.imports)
    ensures RoleOf(user) in ImportRoles && jobId in old(db.imports) && xlsxAvailable && sheet.Failure? ==>
      && r == Failure(ProcessFailed)
      && Snapshot(db) == old(Snapshot(db))
      && db.imports == old(db.imports)[jobId := FailedJob(old(db.imports)[jobId].(status := Processing), sheet.error)]
    ensures RoleOf(user) in ImportRoles && jobId in old(db.imports) && xlsxAvailable && sheet.Success? ==>
      var run := Run(old(Snapshot(db)), ReadSheet(sheet.value), |sheet.value|, RowStep(jobId, faults, parse));
      && r == Success(run.1)
      && Snapshot(db) == run.0
      && db.imports == old(db.imports)[jobId := CompletedJob(old(db.imports)[jobId], |sheet.value|, run.1)]
  {
    if RoleOf(user) !in ImportRoles {
      return Failure(ProcessForbidden);
    }
    if jobId !in db.imports {
      return Failure(ImportNotFound);
    }
    if !xlsxAvailable {
      return Failure(NoExcelLibrary);
    }
    r := RunJob(db, jobId, sheet, faults, parse);
  }
}
