/** What a row, and so a whole sheet, never breaks or takes away: the
    retrieval orders, the unique indexes, the member schema, and every club
    and member already stored. */
module ImportInvariants {
  import opened Wrappers
  import opened Text
  import opened Models
  import opened Store
  import opened Fields
  import opened Normalize
  import opened ImportSpec
  import opened ImportProperties

  /** What the stored tables satisfy between requests: the orders list the
      stored records, identities are below the counter, emails and club names
      are unique, and every member passes its schema. */
  ghost predicate Sound(db: ImportDb) {
    && Wf(db)
    && EmailsUnique(db.members)
    && ClubNamesUnique(db.clubs)
    && MembersOk(db.members)
  }

  /** The name cells of a row are trimmed, as the field extractor leaves them. */
  predicate NamesTrimmed(r: SheetRow) {
    Trim(r.fields.firstName) == r.fields.firstName && Trim(r.fields.lastName) == r.fields.lastName
  }

  lemma ReadRowTrimmed(row: Row)
    ensures NamesTrimmed(ReadRow(row))
  {
    GetFieldIsTrimmed(row, FirstNameKeys);
    GetFieldIsTrimmed(row, LastNameKeys);
  }

  /** `after` only adds to `before`: no club is changed or removed, no member
      is removed, stored members keep their normalised phone and new members
      have none, the retrieval orders only grow at the end and the counter
      never goes back. */
  ghost predicate Grows(before: ImportDb, after: ImportDb) {
    && (forall id :: id in before.clubs ==> id in after.clubs && after.clubs[id] == before.clubs[id])
    && (forall id :: id in before.members ==>
          id in after.members && after.members[id].phoneNormalized == before.members[id].phoneNormalized)
    && (forall id :: id in after.members && id !in before.members ==> after.members[id].phoneNormalized == [])
    && before.clubOrder <= after.clubOrder
    && before.memberOrder <= after.memberOrder
    && before.nextId <= after.nextId
  }

  lemma GrowsTransitive(a: ImportDb, b: ImportDb, c: ImportDb)
    requires Grows(a, b) && Grows(b, c)
    ensures Grows(a, c)
  {
  }

  // ---------------------------------------------------------------------------
  // The club lookup
  // ---------------------------------------------------------------------------

  /** The club lookup finds the first club with the row's charter number and
      changes nothing, or, when there is none, adds one new club with that
      charter number under the next identity, last in order; it never touches
      the members or the audit table. */
  lemma ResolveClubSpec(db: ImportDb, f: RowFields, fault: Fault)
    ensures var res := ResolveClub(db, f, fault);
      res.Success? ==>
        && res.value.clubId in res.value.db.clubs
        && res.value.db.clubs[res.value.clubId].charterNumber == f.charterNumber
        && res.value.db.members == db.members && res.value.db.memberOrder == db.memberOrder
        && res.value.db.auditRows == db.auditRows
        && (|| (res.value.db == db
                && FirstWhere(db.clubOrder, ClubWithCharter(db.clubs, f.charterNumber)) == Some(res.value.clubId))
            || (&& FirstWhere(db.clubOrder, ClubWithCharter(db.clubs, f.charterNumber)) == None
                && res.value.clubId == db.nextId
                && ClubWriteError(db.clubs, db.nextId, NewClub(f)) == None
                && res.value.db == WithClub(db, NewClub(f))))
  {
  }

  lemma ResolveClubKeeps(db: ImportDb, f: RowFields, fault: Fault)
    requires Wf(db)
    ensures ResolveClub(db, f, fault).Success? ==>
      Grows(db, ResolveClub(db, f, fault).value.db) && Wf(ResolveClub(db, f, fault).value.db)
    ensures ResolveClub(db, f, fault).Success? && Sound(db) ==> Sound(ResolveClub(db, f, fault).value.db)
  {
    ResolveClubSpec(db, f, fault);
    var res := ResolveClub(db, f, fault);
    if res.Success? && res.value.db != db {
      AddClubGrows(db, NewClub(f));
      if Sound(db) {
        AddClubSound(db, NewClub(f));
      }
    }
  }

  /** The tables with club `c` stored under the next identity. */
  function WithClub(db: ImportDb, c: Club): ImportDb {
    db.(clubs := db.clubs[db.nextId := c], clubOrder := db.clubOrder + [db.nextId], nextId := db.nextId + 1)
  }

  lemma AddClubGrows(db: ImportDb, c: Club)
    requires Wf(db)
    ensures Grows(db, WithClub(db, c)) && Wf(WithClub(db, c))
  {
    assert db.nextId !in db.clubs;
    OrderedTableAdd(db.clubs, db.clubOrder, db.nextId, c);
    OrderedTableRaise(db.members, db.memberOrder, db.nextId, db.nextId + 1);
  }

  lemma AddClubSound(db: ImportDb, c: Club)
    requires Sound(db)
    requires ClubWriteError(db.clubs, db.nextId, c) == None
    ensures Sound(WithClub(db, c))
  {
    OrderedTableAdd(db.clubs, db.clubOrder, db.nextId, c);
    OrderedTableRaise(db.members, db.memberOrder, db.nextId, db.nextId + 1);
    ClubWriteKeepsNamesUnique(db.clubs, db.nextId, c);
  }

  // ---------------------------------------------------------------------------
  // The member step
  // ---------------------------------------------------------------------------

  /** The normalised cells the member step relies on: names present and
      trimmed, email lower-cased. */
  predicate IncomingOk(inc: Incoming) {
    && inc.firstName != [] && Trim(inc.firstName) == inc.firstName
    && inc.lastName != [] && Trim(inc.lastName) == inc.lastName
    && ToLower(inc.email) == inc.email
  }

  /** The tables with member `m` stored under the next identity. */
  function WithMember(db: ImportDb, m: Member): ImportDb {
    db.(members := db.members[db.nextId := m], memberOrder := db.memberOrder + [db.nextId], nextId := db.nextId + 1)
  }

  /** The tables after a matched member's step, its audit record aside: as
      they were, or with the member replaced by its merge, which the schema
      accepts. */
  lemma UpdateStepShape(db: ImportDb, jobId: Id, rowId: string, exception: string, clubId: Id,
                        inc: Incoming, fault: Fault, id: Id)
    requires id in db.members
    ensures var db' := UpdateStep(db, jobId, rowId, exception, clubId, inc, fault, id).0;
      && db'.clubs == db.clubs && db'.clubOrder == db.clubOrder
      && db'.memberOrder == db.memberOrder && db'.nextId == db.nextId
      && (|| db'.members == db.members
          || (&& MemberWriteError(db.members, id, Merge(db.members[id], inc, clubId)) == None
              && db'.members == db.members[id := Merge(db.members[id], inc, clubId)]))
  {
    var m := db.members[id];
    var m' := Merge(m, inc, clubId);
    if m.club.Some? && HasChanges(m, inc, clubId) && MemberWriteError(db.members, id, m').None?
       && !fault.MemberSaveFails? {
      var db1 := db.(members := db.members[id := m']);
      assert UpdateStep(db, jobId, rowId, exception, clubId, inc, fault, id).0
          == Audit(db1, NewFileImportRow(jobId, rowId, Some(clubId), Some(id), Updated, exception));
    }
  }

  /** Likewise for a row that matched no member: as they were, or with one
      new member, which the schema accepts, under the next identity. */
  lemma CreateStepShape(db: ImportDb, jobId: Id, rowId: string, exception: string, clubId: Id,
                        inc: Incoming, fault: Fault)
    ensures var db' := CreateStep(db, jobId, rowId, exception, clubId, inc, fault).0;
      && db'.clubs == db.clubs && db'.clubOrder == db.clubOrder
      && (|| (db'.members == db.members && db'.memberOrder == db.memberOrder && db'.nextId == db.nextId)
          || (&& MemberWriteError(db.members, db.nextId, NewMember(inc, clubId)) == None
              && db'.members == WithMember(db, NewMember(inc, clubId)).members
              && db'.memberOrder == WithMember(db, NewMember(inc, clubId)).memberOrder
              && db'.nextId == db.nextId + 1))
  {
    var m' := NewMember(inc, clubId);
    if MemberWriteError(db.members, db.nextId, m').None? && !fault.MemberSaveFails? {
      var db1 := WithMember(db, m');
      assert CreateStep(db, jobId, rowId, exception, clubId, inc, fault).0
          == Audit(db1, NewFileImportRow(jobId, rowId, Some(clubId), Some(db.nextId), Created, exception));
    }
  }

  lemma ReplaceMemberGrows(db: ImportDb, id: Id, m: Member)
    requires id in db.members && m.phoneNormalized == db.members[id].phoneNormalized
    ensures Grows(db, db.(members := db.members[id := m]))
  {
  }

  lemma ReplaceMemberSound(db: ImportDb, id: Id, m: Member)
    requires Sound(db) && id in db.members && MemberSchemaOk(m)
    requires MemberWriteError(db.members, id, m) == None
    ensures Sound(db.(members := db.members[id := m]))
  {
    OrderedTableReplace(db.members, db.memberOrder, db.nextId, id, m);
    MemberWriteKeepsEmailsUnique(db.members, id, m);
    MembersOkStore(db.members, id, m);
  }

  lemma AddMemberGrows(db: ImportDb, m: Member)
    requires Wf(db) && m.phoneNormalized == []
    ensures Grows(db, WithMember(db, m))
  {
    assert db.nextId !in db.members;
  }

  lemma AddMemberSound(db: ImportDb, m: Member)
    requires Sound(db) && MemberSchemaOk(m)
    requires MemberWriteError(db.members, db.nextId, m) == None
    ensures Sound(WithMember(db, m))
  {
    OrderedTableAdd(db.members, db.memberOrder, db.nextId, m);
    OrderedTableRaise(db.clubs, db.clubOrder, db.nextId, db.nextId + 1);
    MemberWriteKeepsEmailsUnique(db.members, db.nextId, m);
    MembersOkStore(db.members, db.nextId, m);
  }

  /** Tables that differ only in their audit records are equally sound, and
      each grows into the other. */
  lemma SameTablesKeep(db: ImportDb, db': ImportDb)
    requires db'.clubs == db.clubs && db'.clubOrder == db.clubOrder
    requires db'.members == db.members && db'.memberOrder == db.memberOrder && db'.nextId == db.nextId
    ensures Grows(db, db') && (Sound(db) ==> Sound(db'))
  {
  }

  lemma UpdateStepKeeps(db: ImportDb, jobId: Id, rowId: string, exception: string, clubId: Id,
                        inc: Incoming, fault: Fault, id: Id)
    requires id in db.members
    ensures Grows(db, UpdateStep(db, jobId, rowId, exception, clubId, inc, fault, id).0)
    ensures Sound(db) && IncomingOk(inc) ==> Sound(UpdateStep(db, jobId, rowId, exception, clubId, inc, fault, id).0)
  {
    var db' := UpdateStep(db, jobId, rowId, exception, clubId, inc, fault, id).0;
    UpdateStepShape(db, jobId, rowId, exception, clubId, inc, fault, id);
    var m' := Merge(db.members[id], inc, clubId);
    if db'.members == db.members {
      SameTablesKeep(db, db');
    } else {
      ReplaceMemberGrows(db, id, m');
      if Sound(db) && IncomingOk(inc) {
        assert MemberSchemaOk(db.members[id]);
        ReplaceMemberSound(db, id, m');
      }
    }
  }

  lemma CreateStepKeeps(db: ImportDb, jobId: Id, rowId: string, exception: string, clubId: Id,
                        inc: Incoming, fault: Fault)
    requires Wf(db)
    ensures Grows(db, CreateStep(db, jobId, rowId, exception, clubId, inc, fault).0)
    ensures Sound(db) && IncomingOk(inc) ==> Sound(CreateStep(db, jobId, rowId, exception, clubId, inc, fault).0)
  {
    var db' := CreateStep(db, jobId, rowId, exception, clubId, inc, fault).0;
    CreateStepShape(db, jobId, rowId, exception, clubId, inc, fault);
    var m' := NewMember(inc, clubId);
    if db'.nextId == db.nextId {
      SameTablesKeep(db, db');
    } else {
      AddMemberGrows(db, m');
      if Sound(db) && IncomingOk(inc) {
        AddMemberSound(db, m');
      }
    }
  }

  lemma MemberStepKeeps(db: ImportDb, jobId: Id, rowId: string, exception: string, clubId: Id,
                        inc: Incoming, fault: Fault)
    requires Wf(db)
    ensures Grows(db, MemberStep(db, jobId, rowId, exception, clubId, inc, fault).0)
    ensures Sound(db) && IncomingOk(inc) ==> Sound(MemberStep(db, jobId, rowId, exception, clubId, inc, fault).0)
  {
    match Match(db.members, db.memberOrder, inc, clubId)
    case Some(id) => UpdateStepKeeps(db, jobId, rowId, exception, clubId, inc, fault, id);
    case None => CreateStepKeeps(db, jobId, rowId, exception, clubId, inc, fault);
  }

  // ---------------------------------------------------------------------------
  // One row
  // ---------------------------------------------------------------------------

  /** Normalising a row with trimmed, present names gives what the member
      step relies on. */
  lemma NormaliseOk(r: SheetRow, parse: DateParser)
    requires NamesTrimmed(r) && r.fields.firstName != [] && r.fields.lastName != []
    ensures IncomingOk(Normalise(r.fields, parse))
  {
  }

  lemma AfterClubGrows(db: ImportDb, jobId: Id, r: SheetRow, res: Result<Resolved, string>, fault: Fault,
                       parse: DateParser)
    requires res.Success? ==> Grows(db, res.value.db) && Wf(res.value.db)
    ensures Grows(db, AfterClub(db, jobId, r, res, fault, parse).0)
  {
    if res.Success? {
      var db1 := res.value.db;
      var db2 := AfterClub(db, jobId, r, res, fault, parse).0;
      if r.fields.firstName != [] && r.fields.lastName != [] {
        MemberStepKeeps(db1, jobId, r.fields.rowId, r.exception, res.value.clubId, Normalise(r.fields, parse), fault);
      }
      assert Grows(db1, db2);
      GrowsTransitive(db, db1, db2);
    }
  }

  lemma AfterClubSound(db: ImportDb, jobId: Id, r: SheetRow, res: Result<Resolved, string>, fault: Fault,
                       parse: DateParser)
    requires Sound(db) && NamesTrimmed(r)
    requires res.Success? ==> Sound(res.value.db)
    ensures Sound(AfterClub(db, jobId, r, res, fault, parse).0)
  {
    if res.Success? && r.fields.firstName != [] && r.fields.lastName != [] {
      NormaliseOk(r, parse);
      MemberStepKeeps(res.value.db, jobId, r.fields.rowId, r.exception, res.value.clubId,
                      Normalise(r.fields, parse), fault);
    }
  }

  /** One row keeps the tables sound and only adds to them. */
  lemma StepKeeps(db: ImportDb, jobId: Id, r: SheetRow, fault: Fault, parse: DateParser)
    requires Wf(db)
    ensures Grows(db, StepRow(db, jobId, r, fault, parse).0)
    ensures Sound(db) && NamesTrimmed(r) ==> Sound(StepRow(db, jobId, r, fault, parse).0)
  {
    if r.fields.charterNumber != [] {
      ResolveClubKeeps(db, r.fields, fault);
      AfterClubGrows(db, jobId, r, ResolveClub(db, r.fields, fault), fault, parse);
      if Sound(db) && NamesTrimmed(r) {
        AfterClubSound(db, jobId, r, ResolveClub(db, r.fields, fault), fault, parse);
      }
    }
  }

  // ---------------------------------------------------------------------------
  // The whole sheet
  // ---------------------------------------------------------------------------

  /** Every prefix of `rows` run through `step` keeps the invariant `inv`
      and ends related to the start by `grows`, when each row keeps `inv`
      and is related by `grows` to the tables before it, and `grows` is
      reflexive on the start and transitive. */
  lemma {:induction false} RunPreserves(db: ImportDb, rows: seq<SheetRow>, n: nat, step: Step,
                                        inv: ImportDb -> bool, grows: (ImportDb, ImportDb) -> bool)
    requires n <= |rows|
    requires inv(db) && grows(db, db)
    requires forall d, i {:trigger step(d, rows[i], i)} :: 0 <= i < |rows| && inv(d) ==> inv(step(d, rows[i], i).0) && grows(d, step(d, rows[i], i).0)
    requires forall a, b, c :: grows(a, b) && grows(b, c) ==> grows(a, c)
    ensures inv(Run(db, rows, n, step).0) && grows(db, Run(db, rows, n, step).0)
  {
    if n > 0 {
      RunPreserves(db, rows, n - 1, step, inv, grows);
      var dbp := Run(db, rows, n - 1, step).0;
      assert Run(db, rows, n, step).0 == step(dbp, rows[n - 1], n - 1).0;
    }
  }

  /** Every prefix of a sheet of rows with trimmed names keeps sound tables
      sound and only adds to them. */
  lemma RunKeeps(db: ImportDb, rows: seq<SheetRow>, n: nat, jobId: Id, faults: nat -> Fault, parse: DateParser)
    requires n <= |rows|
    requires Sound(db)
    requires forall i :: 0 <= i < |rows| ==> NamesTrimmed(rows[i])
    ensures var step := RowStep(jobId, faults, parse);
      Sound(Run(db, rows, n, step).0) && Grows(db, Run(db, rows, n, step).0)
  {
    var step := RowStep(jobId, faults, parse);
    var inv := (d: ImportDb) => Sound(d);
    var grows := (a: ImportDb, b: ImportDb) => Grows(a, b);
    forall d, i | 0 <= i < |rows| && inv(d)
      ensures inv(step(d, rows[i], i).0) && grows(d, step(d, rows[i], i).0)
    {
      StepKeeps(d, jobId, rows[i], faults(i), parse);
    }
    forall a, b, c | grows(a, b) && grows(b, c)
      ensures grows(a, c)
    {
      GrowsTransitive(a, b, c);
    }
    RunPreserves(db, rows, n, step, inv, grows);
  }

  /** Importing a sheet into sound tables leaves them sound: the orders list
      the stored records, emails and club names stay unique and every member
      passes the schema; and it only adds: no club changes, no member is
      removed, and no member gains a normalised phone. */
  lemma ImportKeeps(db: ImportDb, jobId: Id, rows: seq<Row>, faults: nat -> Fault, parse: DateParser)
    requires Sound(db)
    ensures Sound(Run(db, ReadSheet(rows), |rows|, RowStep(jobId, faults, parse)).0)
    ensures Grows(db, Run(db, ReadSheet(rows), |rows|, RowStep(jobId, faults, parse)).0)
  {
    var sheet := ReadSheet(rows);
    forall i | 0 <= i < |sheet|
      ensures NamesTrimmed(sheet[i])
    {
      ReadRowTrimmed(rows[i]);
    }
    RunKeeps(db, sheet, |rows|, jobId, faults, parse);
  }
}
