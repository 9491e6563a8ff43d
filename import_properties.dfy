/** What the import promises, proved about the functions of import_spec.dfy
    (and so, through the contracts of import_engine.dfy, about the handler). */
module ImportProperties {
  import opened Wrappers
  import opened Text
  import opened Models
  import opened Store
  import opened Fields
  import opened Normalize
  import opened ImportSpec

  // ---------------------------------------------------------------------------
  // Searches in retrieval order
  // ---------------------------------------------------------------------------

  /** A search returns the earliest element that satisfies its test. */
  lemma {:induction false} FirstWhereIsFirst(order: seq<Id>, p: Id -> bool, k: nat)
    requires k < |order| && p(order[k])
    requires forall j :: 0 <= j < k ==> !p(order[j])
    ensures FirstWhere(order, p) == Some(order[k])
  {
    if k > 0 {
      assert !p(order[0]);
      FirstWhereIsFirst(order[1..], p, k - 1);
    }
  }

  function And(p: Id -> bool, q: Id -> bool): Id -> bool {
    (x: Id) => p(x) && q(x)
  }

  /** Searching the filtered candidates is searching the whole order for an
      element that passes both tests. */
  lemma {:induction false} FirstOfFilter(order: seq<Id>, p: Id -> bool, q: Id -> bool)
    ensures FirstWhere(Filter(order, p), q) == FirstWhere(order, And(p, q))
  {
    if order != [] {
      FirstOfFilter(order[1..], p, q);
      var rest := Filter(order[1..], p);
      if p(order[0]) {
        assert ([order[0]] + rest)[1..] == rest;
      } else {
        assert [] + rest == rest;
      }
    }
  }

  /** A search whose test changed only on `x`, where `x` now passes and was
      the result before or nothing was, finds `x`. */
  lemma {:induction false} FirstWhereAfterChange(order: seq<Id>, p: Id -> bool, q: Id -> bool, x: Id)
    requires x in order && q(x)
    requires forall y :: y in order && y != x ==> p(y) == q(y)
    requires FirstWhere(order, p) == Some(x) || FirstWhere(order, p) == None
    ensures FirstWhere(order, q) == Some(x)
  {
    if order[0] != x {
      assert order[0] in order;
      FirstWhereAfterChange(order[1..], p, q, x);
    }
  }

  /** Appending an element after a search that found nothing finds that
      element when it passes. */
  lemma {:induction false} FirstWhereAppend(order: seq<Id>, p: Id -> bool, q: Id -> bool, x: Id)
    requires FirstWhere(order, p) == None && q(x)
    requires forall y :: y in order ==> p(y) == q(y)
    ensures FirstWhere(order + [x], q) == Some(x)
  {
    if order != [] {
      assert order[0] in order;
      assert (order + [x])[1..] == order[1..] + [x];
      FirstWhereAppend(order[1..], p, q, x);
    }
  }

  /** Two tests that agree on every element give the same search. */
  lemma {:induction false} FirstWhereSame(order: seq<Id>, p: Id -> bool, q: Id -> bool)
    requires forall y :: y in order ==> p(y) == q(y)
    ensures FirstWhere(order, q) == FirstWhere(order, p)
  {
    if order != [] {
      assert order[0] in order;
      FirstWhereSame(order[1..], p, q);
    }
  }

  // ---------------------------------------------------------------------------
  // One audit record and one counter per row
  // ---------------------------------------------------------------------------

  /** `after`'s audit table is `before`'s with one record appended, for job
      `jobId` under the RowID `id`. */
  ghost predicate AppendedOne(before: ImportDb, after: ImportDb, jobId: Id, id: string) {
    && |after.auditRows| == |before.auditRows| + 1
    && after.auditRows[..|before.auditRows|] == before.auditRows
    && after.auditRows[|before.auditRows|].fileImport == jobId
    && after.auditRows[|before.auditRows|].rowId == id
  }

  /** One record appended under `id` whose result is `o`'s; a stored row is
      never counted as skipped. */
  ghost predicate RecordedOnce(before: ImportDb, after: ImportDb, jobId: Id, id: string, o: Outcome) {
    && AppendedOne(before, after, jobId, id)
    && after.auditRows[|before.auditRows|].rowImportResult == o.AuditResult()
    && (o.Written? ==> o.result != Skipped)
  }

  /** `after` is `before` with one more audit record, for job `jobId` under
      `rowId`, whose result is `o`'s: a skipped row's record carries its
      reason, any other carries `exception`. */
  ghost predicate AuditedOnce(before: ImportDb, after: ImportDb, jobId: Id, rowId: string, o: Outcome,
                              exception: string) {
    && RecordedOnce(before, after, jobId, Trim(rowId), o)
    && var a := after.auditRows[|before.auditRows|];
    && (o.Skip? ==> a.exception == Trim(o.reason) && o.reason != [])
    && (o.Written? ==> a.exception == Trim(exception))
  }

  lemma SkipRowAudits(db: ImportDb, jobId: Id, rowId: string, club: Option<Id>, member: Option<Id>, reason: string)
    requires reason != []
    ensures AuditedOnce(db, SkipRow(db, jobId, rowId, club, member, reason).0, jobId, rowId,
                        SkipRow(db, jobId, rowId, club, member, reason).1, "")
  {
    var after := SkipRow(db, jobId, rowId, club, member, reason).0;
    assert after.auditRows[..|db.auditRows|] == db.auditRows;
  }

  /** A stored row: one record with its result and the row's own Exception
      column, on tables whose audit part is still `db`'s. */
  lemma WrittenAudits(db: ImportDb, db': ImportDb, jobId: Id, rowId: string, club: Option<Id>, member: Option<Id>,
                      result: RowResult, exception: string)
    requires db'.auditRows == db.auditRows
    requires result != Skipped
    ensures AuditedOnce(db, Audit(db', NewFileImportRow(jobId, rowId, club, member, result, exception)), jobId, rowId,
                        Written(result), exception)
  {
    var after := Audit(db', NewFileImportRow(jobId, rowId, club, member, result, exception));
    assert after.auditRows[..|db.auditRows|] == db.auditRows;
  }

  lemma UpdateStepAudits(db: ImportDb, jobId: Id, rowId: string, exception: string, clubId: Id,
                         inc: Incoming, fault: Fault, id: Id)
    requires id in db.members
    ensures var (db', o) := UpdateStep(db, jobId, rowId, exception, clubId, inc, fault, id);
      AuditedOnce(db, db', jobId, rowId, o, exception)
  {
    var m := db.members[id];
    if m.club.None? {
      SkipRowAudits(db, jobId, rowId, Some(clubId), None, NullClubError);
    } else if !HasChanges(m, inc, clubId) {
      WrittenAudits(db, db, jobId, rowId, Some(clubId), Some(id), Unchanged, exception);
    } else {
      var m' := Merge(m, inc, clubId);
      var err := MemberWriteError(db.members, id, m');
      if err.Some? {
        SkipRowAudits(db, jobId, rowId, Some(clubId), Some(id), err.value);
      } else if fault.MemberSaveFails? {
        SkipRowAudits(db, jobId, rowId, Some(clubId), Some(id), ErrorReason(fault.message));
      } else {
        WrittenAudits(db, db.(members := db.members[id := m']), jobId, rowId, Some(clubId), Some(id), Updated, exception);
      }
    }
  }

  lemma CreateStepAudits(db: ImportDb, jobId: Id, rowId: string, exception: string, clubId: Id,
                         inc: Incoming, fault: Fault)
    ensures var (db', o) := CreateStep(db, jobId, rowId, exception, clubId, inc, fault);
      AuditedOnce(db, db', jobId, rowId, o, exception)
  {
    var m' := NewMember(inc, clubId);
    var id := db.nextId;
    var err := MemberWriteError(db.members, id, m');
    if err.Some? {
      SkipRowAudits(db, jobId, rowId, Some(clubId), None, err.value);
    } else if fault.MemberSaveFails? {
      SkipRowAudits(db, jobId, rowId, Some(clubId), None, ErrorReason(fault.message));
    } else {
      var db' := db.(members := db.members[id := m'], memberOrder := db.memberOrder + [id], nextId := id + 1);
      WrittenAudits(db, db', jobId, rowId, Some(clubId), Some(id), Created, exception);
    }
  }

  lemma AfterClubAudits(db: ImportDb, jobId: Id, r: SheetRow, res: Result<Resolved, string>, fault: Fault,
                        parse: DateParser)
    requires res.Failure? ==> res.error != []
    requires res.Success? ==> res.value.db.auditRows == db.auditRows
    ensures var (db', o) := AfterClub(db, jobId, r, res, fault, parse);
      AuditedOnce(db, db', jobId, r.fields.rowId, o, r.exception)
  {
    var f := r.fields;
    if res.Failure? {
      SkipRowAudits(db, jobId, f.rowId, None, None, res.error);
    } else if f.firstName == [] || f.lastName == [] {
      SkipRowAudits(res.value.db, jobId, f.rowId, Some(res.value.clubId), None, MissingName);
    } else {
      var db1 := res.value.db;
      var inc := Normalise(f, parse);
      match Match(db1.members, db1.memberOrder, inc, res.value.clubId)
      case Some(id) => UpdateStepAudits(db1, jobId, f.rowId, r.exception, res.value.clubId, inc, fault, id);
      case None => CreateStepAudits(db1, jobId, f.rowId, r.exception, res.value.clubId, inc, fault);
    }
  }

  /** The club lookup never writes an audit record, and its errors have text. */
  lemma ResolveClubErrorNonEmpty(db: ImportDb, f: RowFields, fault: Fault)
    ensures ResolveClub(db, f, fault).Failure? ==> ResolveClub(db, f, fault).error != []
    ensures ResolveClub(db, f, fault).Success? ==> ResolveClub(db, f, fault).value.db.auditRows == db.auditRows
  {
  }

  /** Every row appends exactly one audit record, for this job, under the
      row's RowID, whose result is the row's outcome: a skipped row's record
      carries its reason, any other carries the row's own Exception column. */
  lemma StepAudits(db: ImportDb, jobId: Id, r: SheetRow, fault: Fault, parse: DateParser)
    ensures var (db', o) := StepRow(db, jobId, r, fault, parse);
      AuditedOnce(db, db', jobId, r.fields.rowId, o, r.exception)
  {
    if r.fields.charterNumber == [] {
      SkipRowAudits(db, jobId, r.fields.rowId, None, None, MissingCharterNumber);
    } else {
      ResolveClubErrorNonEmpty(db, r.fields, fault);
      AfterClubAudits(db, jobId, r, ResolveClub(db, r.fields, fault), fault, parse);
    }
  }

  /** The number of audit records with result `r`. */
  function CountOf(rows: seq<FileImportRow>, r: RowResult): nat {
    if rows == [] then 0
    else CountOf(rows[..|rows| - 1], r) + (if rows[|rows| - 1].rowImportResult == r then 1 else 0)
  }

  /** The counters after `n` rows: they add up to `n`, and there is one
      error entry per skipped row, numbered by spreadsheet line (2 to n + 1)
      in increasing order. */
  ghost predicate ErrorsFit(t: Tally, n: nat) {
    && t.created + t.updated + t.unmodified + t.skipped == n
    && |t.errors| == t.skipped
    && (forall k :: 0 <= k < |t.errors| ==> 2 <= t.errors[k].row <= n + 1)
    && (forall j, k :: 0 <= j < k < |t.errors| ==> t.errors[j].row < t.errors[k].row)
  }

  lemma CountKeepsErrorsFit(t: Tally, n: nat, o: Outcome)
    requires ErrorsFit(t, n)
    requires o.Written? ==> o.result != Skipped
    ensures ErrorsFit(Count(t, n, o), n + 1)
  {
  }

  /** Every application of `step` appends exactly one audit record, for job
      `jobId` under the row's trimmed RowID, with the row's result. */
  ghost predicate AuditsEachRow(step: Step, jobId: Id) {
    forall db, r, i :: RecordedOnce(db, step(db, r, i).0, jobId, Trim(r.fields.rowId), step(db, r, i).1)
  }

  /** The import's step audits each row. */
  lemma RowStepAudits(jobId: Id, faults: nat -> Fault, parse: DateParser)
    ensures AuditsEachRow(RowStep(jobId, faults, parse), jobId)
  {
    forall db, r, i
      ensures RecordedOnce(db, RowStep(jobId, faults, parse)(db, r, i).0, jobId, Trim(r.fields.rowId),
                           RowStep(jobId, faults, parse)(db, r, i).1)
    {
      StepAudits(db, jobId, r, faults(i), parse);
    }
  }

  lemma {:induction false} RunErrors(db: ImportDb, rows: seq<SheetRow>, n: nat, step: Step, jobId: Id)
    requires n <= |rows|
    requires AuditsEachRow(step, jobId)
    ensures ErrorsFit(Run(db, rows, n, step).1, n)
  {
    if n > 0 {
      RunErrors(db, rows, n - 1, step, jobId);
      var (dbp, tp) := Run(db, rows, n - 1, step);
      var (dbn, o) := step(dbp, rows[n - 1], n - 1);
      assert RecordedOnce(dbp, dbn, jobId, Trim(rows[n - 1].fields.rowId), o);
      CountKeepsErrorsFit(tp, n - 1, o);
    }
  }

  /** How row `i` ended: the step applied to the tables the rows before it
      left. */
  ghost function OutcomeAt(db: ImportDb, rows: seq<SheetRow>, i: nat, step: Step): Outcome
    requires i < |rows|
  {
    step(Run(db, rows, i, step).0, rows[i], i).1
  }

  /** The error entries `errors` after `n` rows are exactly the skipped
      rows: each row skipped with a reason has an entry at its spreadsheet
      line with that reason, and each entry is such a row's. */
  ghost predicate TiedTo(errors: seq<RowError>, db: ImportDb, rows: seq<SheetRow>, n: nat, step: Step)
    requires n <= |rows|
  {
    && (forall i :: 0 <= i < n && OutcomeAt(db, rows, i, step).Skip? ==>
          RowError(i + 2, OutcomeAt(db, rows, i, step).reason) in errors)
    && (forall k :: 0 <= k < |errors| ==>
          2 <= errors[k].row <= n + 1 && OutcomeAt(db, rows, errors[k].row - 2, step) == Skip(errors[k].reason))
  }

  /** The error entries of the run are tied to its skipped rows. */
  ghost predicate ErrorsTied(db: ImportDb, rows: seq<SheetRow>, n: nat, step: Step)
    requires n <= |rows|
  {
    TiedTo(Run(db, rows, n, step).1.errors, db, rows, n, step)
  }

  /** The error entries after `n` rows are those after `n - 1`, with one
      more when the last row was skipped with a reason. */
  lemma RunLastErrors(db: ImportDb, rows: seq<SheetRow>, n: nat, step: Step)
    requires 0 < n <= |rows|
    ensures var o := OutcomeAt(db, rows, n - 1, step);
      var before := Run(db, rows, n - 1, step).1.errors;
      Run(db, rows, n, step).1.errors == if o.Skip? then before + [RowError(n + 1, o.reason)] else before
  {
  }

  /** Counting one more row keeps the entries tied. */
  lemma TiedStep(before: seq<RowError>, after: seq<RowError>, db: ImportDb, rows: seq<SheetRow>, n: nat, step: Step)
    requires 0 < n <= |rows|
    requires TiedTo(before, db, rows, n - 1, step)
    requires var o := OutcomeAt(db, rows, n - 1, step);
      after == if o.Skip? then before + [RowError(n + 1, o.reason)] else before
    ensures TiedTo(after, db, rows, n, step)
  {
    forall i | 0 <= i < n && OutcomeAt(db, rows, i, step).Skip?
      ensures RowError(i + 2, OutcomeAt(db, rows, i, step).reason) in after
    {
      if i < n - 1 {
        assert RowError(i + 2, OutcomeAt(db, rows, i, step).reason) in before;
      }
    }
    forall k | 0 <= k < |after|
      ensures 2 <= after[k].row <= n + 1 && OutcomeAt(db, rows, after[k].row - 2, step) == Skip(after[k].reason)
    {
      if k < |before| {
        assert after[k] == before[k];
      }
    }
  }

  lemma {:induction false} RunErrorsTied(db: ImportDb, rows: seq<SheetRow>, n: nat, step: Step)
    requires n <= |rows|
    ensures ErrorsTied(db, rows, n, step)
  {
    if n > 0 {
      RunErrorsTied(db, rows, n - 1, step);
      RunLastErrors(db, rows, n, step);
      TiedStep(Run(db, rows, n - 1, step).1.errors, Run(db, rows, n, step).1.errors, db, rows, n, step);
    }
  }

  /** The trimmed RowID of each row, in row order, as the audit records
      store them. */
  function RowIds(rows: seq<SheetRow>): (ids: seq<string>)
    ensures |ids| == |rows|
    ensures forall i :: 0 <= i < |rows| ==> ids[i] == Trim(rows[i].fields.rowId)
  {
    if rows == [] then [] else RowIds(rows[..|rows| - 1]) + [Trim(rows[|rows| - 1].fields.rowId)]
  }

  /** The audit table `after`: `before`'s records, then one record per RowID
      of `ids`, in that order, for this job. */
  ghost predicate AuditsFit(before: ImportDb, after: ImportDb, jobId: Id, ids: seq<string>) {
    && |after.auditRows| == |before.auditRows| + |ids|
    && after.auditRows[..|before.auditRows|] == before.auditRows
    && var added := after.auditRows[|before.auditRows|..];
       forall i :: 0 <= i < |ids| ==> added[i].fileImport == jobId && added[i].rowId == ids[i]
  }

  /** Each counter is the number of records with that result. */
  ghost predicate CountsFit(added: seq<FileImportRow>, t: Tally) {
    && CountOf(added, Created) == t.created
    && CountOf(added, Updated) == t.updated
    && CountOf(added, Unchanged) == t.unmodified
    && CountOf(added, Skipped) == t.skipped
  }

  lemma AuditKeepsFit(before: ImportDb, dbp: ImportDb, dbn: ImportDb, jobId: Id, ids: seq<string>, id: string)
    requires AuditsFit(before, dbp, jobId, ids)
    requires AppendedOne(dbp, dbn, jobId, id)
    ensures AuditsFit(before, dbn, jobId, ids + [id])
  {
    var b := |before.auditRows|;
    var addedp, addedn := dbp.auditRows[b..], dbn.auditRows[b..];
    assert dbn.auditRows[..|dbp.auditRows|] == dbp.auditRows;
    assert addedn == addedp + [dbn.auditRows[|dbp.auditRows|]];
    assert dbn.auditRows[..b] == dbp.auditRows[..b];
  }


  lemma CountKeepsFit(before: ImportDb, dbp: ImportDb, tp: Tally, dbn: ImportDb, o: Outcome, jobId: Id,
                      id: string, i: nat)
    requires |before.auditRows| <= |dbp.auditRows|
    requires CountsFit(dbp.auditRows[|before.auditRows|..], tp)
    requires AppendedOne(dbp, dbn, jobId, id)
    requires dbn.auditRows[|dbp.auditRows|].rowImportResult == o.AuditResult()
    ensures CountsFit(dbn.auditRows[|before.auditRows|..], Count(tp, i, o))
  {
    var added := dbn.auditRows[|before.auditRows|..];
    assert added[..|added| - 1] == dbp.auditRows[|before.auditRows|..];
    assert added[|added| - 1] == dbn.auditRows[|dbp.auditRows|];
  }

  /** After `n` rows: exactly `n` audit records were appended, the i-th for
      this job under the i-th row's RowID. */
  lemma {:induction false} RunAudits(db: ImportDb, rows: seq<SheetRow>, n: nat, step: Step, jobId: Id)
    requires n <= |rows|
    requires AuditsEachRow(step, jobId)
    ensures AuditsFit(db, Run(db, rows, n, step).0, jobId, RowIds(rows[..n]))
  {
    if n > 0 {
      RunAudits(db, rows, n - 1, step, jobId);
      var dbp := Run(db, rows, n - 1, step).0;
      var (dbn, o) := step(dbp, rows[n - 1], n - 1);
      var id := Trim(rows[n - 1].fields.rowId);
      assert RecordedOnce(dbp, dbn, jobId, Trim(rows[n - 1].fields.rowId), o);
      assert rows[..n][..n - 1] == rows[..n - 1];
      assert RowIds(rows[..n]) == RowIds(rows[..n - 1]) + [id];
      AuditKeepsFit(db, dbp, dbn, jobId, RowIds(rows[..n - 1]), id);
    }
  }

  /** After `n` rows, each counter is the number of appended audit records
      with that result. */
  lemma {:induction false} RunCountsAudited(db: ImportDb, rows: seq<SheetRow>, n: nat, step: Step, jobId: Id)
    requires n <= |rows|
    requires AuditsEachRow(step, jobId)
    ensures |db.auditRows| <= |Run(db, rows, n, step).0.auditRows|
    ensures CountsFit(Run(db, rows, n, step).0.auditRows[|db.auditRows|..], Run(db, rows, n, step).1)
  {
    if n > 0 {
      RunCountsAudited(db, rows, n - 1, step, jobId);
      var (dbp, tp) := Run(db, rows, n - 1, step);
      var (dbn, o) := step(dbp, rows[n - 1], n - 1);
      assert RecordedOnce(dbp, dbn, jobId, Trim(rows[n - 1].fields.rowId), o);
      CountKeepsFit(db, dbp, tp, dbn, o, jobId, Trim(rows[n - 1].fields.rowId), n - 1);
    }
  }

  /** The import of a whole sheet: the counters add up to the number of rows,
      there is one numbered error per skipped row, one audit record per row in
      row order, and each counter is the number of records with its result. */
  lemma ImportTally(db: ImportDb, jobId: Id, rows: seq<SheetRow>, faults: nat -> Fault, parse: DateParser)
    ensures ErrorsFit(Run(db, rows, |rows|, RowStep(jobId, faults, parse)).1, |rows|)
    ensures ErrorsTied(db, rows, |rows|, RowStep(jobId, faults, parse))
    ensures AuditsFit(db, Run(db, rows, |rows|, RowStep(jobId, faults, parse)).0, jobId, RowIds(rows))
    ensures CountsFit(Run(db, rows, |rows|, RowStep(jobId, faults, parse)).0.auditRows[|db.auditRows|..],
                      Run(db, rows, |rows|, RowStep(jobId, faults, parse)).1)
  {
    RowStepAudits(jobId, faults, parse);
    RunErrors(db, rows, |rows|, RowStep(jobId, faults, parse), jobId);
    RunErrorsTied(db, rows, |rows|, RowStep(jobId, faults, parse));
    RunAudits(db, rows, |rows|, RowStep(jobId, faults, parse), jobId);
    assert rows[..|rows|] == rows;
    RunCountsAudited(db, rows, |rows|, RowStep(jobId, faults, parse), jobId);
  }

  /** The job record a completed run leaves: Completed, every row processed,
      each row counted once (the unchanged ones are counted but not stored),
      and one `Row N: reason` error per skipped row, in row order, N being
      the row's line in the sheet and the reason the one that row was
      skipped for; no other row has an error. Nothing else about the job changes. */
  lemma CompletedJobCounts(job: FileImport, db: ImportDb, jobId: Id, rows: seq<SheetRow>,
                           faults: nat -> Fault, parse: DateParser)
    ensures var t := Run(db, rows, |rows|, RowStep(jobId, faults, parse)).1;
      var j := CompletedJob(job, |rows|, t);
      && j.status == Completed
      && j.recordsProcessed == |rows| == j.recordsCreated + j.recordsUpdated + j.recordsSkipped + t.unmodified
      && |j.errors| == j.recordsSkipped == |t.errors|
      && (forall k :: 0 <= k < |j.errors| ==>
            j.errors[k] == ErrorText(t.errors[k]) && 2 <= t.errors[k].row <= |rows| + 1)
      && (forall a, b :: 0 <= a < b < |t.errors| ==> t.errors[a].row < t.errors[b].row)
      && ErrorsTied(db, rows, |rows|, RowStep(jobId, faults, parse))
      && j.(status := job.status, recordsProcessed := job.recordsProcessed, recordsCreated := job.recordsCreated,
            recordsUpdated := job.recordsUpdated, recordsSkipped := job.recordsSkipped, errors := job.errors) == job
  {
    ImportTally(db, jobId, rows, faults, parse);
  }
}
