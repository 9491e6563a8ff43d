/** What one row's outcome says about the tables, and what happens when the
    same row is imported again. */
module ImportRows {
  import opened Wrappers
  import opened Text
  import opened Models
  import opened Store
  import opened Fields
  import opened Normalize
  import opened ImportSpec
  import opened ImportProperties
  import opened ImportMerge
  import opened ImportInvariants

  // ---------------------------------------------------------------------------
  // What an outcome says about the members
  // ---------------------------------------------------------------------------

  /** The members after a row that ended with `o`: a skipped or unchanged
      row wrote none; an updated row changed a stored one and added none; a
      created row, which had an email, added exactly one, last in order. */
  ghost predicate MembersAfter(before: ImportDb, after: ImportDb, o: Outcome, email: string) {
    && (o.Skip? || o == Written(Unchanged) ==>
          after.members == before.members && after.memberOrder == before.memberOrder)
    && (o == Written(Updated) ==>
          after.memberOrder == before.memberOrder && after.members.Keys == before.members.Keys)
    && (o == Written(Created) ==>
          email != [] && |after.memberOrder| == |before.memberOrder| + 1 && before.memberOrder <= after.memberOrder)
  }

  lemma UpdateStepMembers(db: ImportDb, jobId: Id, rowId: string, exception: string, clubId: Id,
                          inc: Incoming, fault: Fault, id: Id)
    requires id in db.members
    ensures var (db', o) := UpdateStep(db, jobId, rowId, exception, clubId, inc, fault, id);
      MembersAfter(db, db', o, inc.email) && o != Written(Created)
  {
    UpdateStepShape(db, jobId, rowId, exception, clubId, inc, fault, id);
  }

  lemma CreateStepMembers(db: ImportDb, jobId: Id, rowId: string, exception: string, clubId: Id,
                          inc: Incoming, fault: Fault)
    ensures var (db', o) := CreateStep(db, jobId, rowId, exception, clubId, inc, fault);
      MembersAfter(db, db', o, inc.email) && (o.Skip? || o == Written(Created))
  {
    CreateStepShape(db, jobId, rowId, exception, clubId, inc, fault);
  }

  lemma AfterClubMembers(db: ImportDb, jobId: Id, r: SheetRow, res: Result<Resolved, string>, fault: Fault,
                         parse: DateParser)
    requires res.Success? ==> res.value.db.members == db.members && res.value.db.memberOrder == db.memberOrder
    ensures var (db', o) := AfterClub(db, jobId, r, res, fault, parse);
      MembersAfter(db, db', o, Normalise(r.fields, parse).email)
  {
    if res.Success? && r.fields.firstName != [] && r.fields.lastName != [] {
      var inc := Normalise(r.fields, parse);
      var db1 := res.value.db;
      match Match(db1.members, db1.memberOrder, inc, res.value.clubId)
      case Some(id) => UpdateStepMembers(db1, jobId, r.fields.rowId, r.exception, res.value.clubId, inc, fault, id);
      case None => CreateStepMembers(db1, jobId, r.fields.rowId, r.exception, res.value.clubId, inc, fault);
    }
  }

  /** What a row's outcome says about the members; in particular a row
      without an email never creates one. */
  lemma StepMembers(db: ImportDb, jobId: Id, r: SheetRow, fault: Fault, parse: DateParser)
    ensures var (db', o) := StepRow(db, jobId, r, fault, parse);
      MembersAfter(db, db', o, r.fields.email)
  {
    if r.fields.charterNumber != [] {
      ResolveClubSpec(db, r.fields, fault);
      AfterClubMembers(db, jobId, r, ResolveClub(db, r.fields, fault), fault, parse);
    }
  }

  // ---------------------------------------------------------------------------
  // What a row does to the clubs
  // ---------------------------------------------------------------------------

  lemma AfterClubClubs(db: ImportDb, jobId: Id, r: SheetRow, res: Result<Resolved, string>, fault: Fault,
                       parse: DateParser)
    ensures var db' := AfterClub(db, jobId, r, res, fault, parse).0;
      if res.Success? then db'.clubs == res.value.db.clubs && db'.clubOrder == res.value.db.clubOrder
      else db'.clubs == db.clubs && db'.clubOrder == db.clubOrder
  {
    if res.Success? && r.fields.firstName != [] && r.fields.lastName != [] {
      var inc := Normalise(r.fields, parse);
      var db1 := res.value.db;
      match Match(db1.members, db1.memberOrder, inc, res.value.clubId)
      case Some(id) =>
        UpdateStepShape(db1, jobId, r.fields.rowId, r.exception, res.value.clubId, inc, fault, id);
      case None => CreateStepShape(db1, jobId, r.fields.rowId, r.exception, res.value.clubId, inc, fault);
    }
  }

  /** A row leaves the clubs as they were, or adds exactly one: a club
      carrying the row's charter number, stored under the next identity and
      last in order, and only when no club had that charter number. A stored
      club is never changed. */
  lemma StepClubs(db: ImportDb, jobId: Id, r: SheetRow, fault: Fault, parse: DateParser)
    ensures var db' := StepRow(db, jobId, r, fault, parse).0;
      || (db'.clubs == db.clubs && db'.clubOrder == db.clubOrder)
      || (&& r.fields.charterNumber != []
          && FirstWhere(db.clubOrder, ClubWithCharter(db.clubs, r.fields.charterNumber)) == None
          && db'.clubs == db.clubs[db.nextId := NewClub(r.fields)]
          && db'.clubOrder == db.clubOrder + [db.nextId]
          && NewClub(r.fields).charterNumber == r.fields.charterNumber)
  {
    if r.fields.charterNumber != [] {
      ResolveClubSpec(db, r.fields, fault);
      AfterClubClubs(db, jobId, r, ResolveClub(db, r.fields, fault), fault, parse);
    }
  }

  /** A row without a charter number is skipped before anything is looked
      up: no table but the audit table changes, and its record names neither
      club nor member. */
  lemma MissingCharterSkips(db: ImportDb, jobId: Id, r: SheetRow, fault: Fault, parse: DateParser)
    requires r.fields.charterNumber == []
    ensures var (db', o) := StepRow(db, jobId, r, fault, parse);
      && o == Skip(MissingCharterNumber)
      && db'.(auditRows := db.auditRows) == db
      && db'.auditRows == db.auditRows + [db'.auditRows[|db.auditRows|]]
      && db'.auditRows[|db.auditRows|].club == None && db'.auditRows[|db.auditRows|].member == None
  {
  }

  /** A row with a charter number but without a first or last name writes no
      member; once its club is found or created, it is skipped for the
      missing name and its audit record names that club, which carries the
      row's charter number. */
  lemma MissingNameSkips(db: ImportDb, jobId: Id, r: SheetRow, fault: Fault, parse: DateParser)
    requires r.fields.charterNumber != [] && (r.fields.firstName == [] || r.fields.lastName == [])
    ensures var (db', o) := StepRow(db, jobId, r, fault, parse);
      && o.Skip?
      && db'.members == db.members && db'.memberOrder == db.memberOrder
      && |db'.auditRows| == |db.auditRows| + 1
      && (ResolveClub(db, r.fields, fault).Success? ==>
            && o == Skip(MissingName)
            && db'.auditRows[|db.auditRows|].club.Some?
            && db'.auditRows[|db.auditRows|].club.value in db'.clubs
            && db'.clubs[db'.auditRows[|db.auditRows|].club.value].charterNumber == r.fields.charterNumber)
  {
    ResolveClubSpec(db, r.fields, fault);
  }

  // ---------------------------------------------------------------------------
  // Importing the same row again
  // ---------------------------------------------------------------------------

  /** After a row resolved its club, the club lookup of the same row finds
      that club and creates nothing, whatever the members became. */
  lemma ResolveAgain(db: ImportDb, f: RowFields, fault: Fault, db2: ImportDb, fault2: Fault)
    requires Wf(db)
    requires ResolveClub(db, f, fault).Success?
    requires db2.clubs == ResolveClub(db, f, fault).value.db.clubs
    requires db2.clubOrder == ResolveClub(db, f, fault).value.db.clubOrder
    ensures ResolveClub(db2, f, fault2) == Success(Resolved(db2, ResolveClub(db, f, fault).value.clubId))
  {
    ResolveClubSpec(db, f, fault);
    var res := ResolveClub(db, f, fault).value;
    var p := ClubWithCharter(db.clubs, f.charterNumber);
    var p2 := ClubWithCharter(db2.clubs, f.charterNumber);
    if res.db == db {
      FirstWhereSame(db.clubOrder, p, p2);
    } else {
      forall y | y in db.clubOrder
        ensures p(y) == p2(y)
      {
        assert y in db.clubs;
      }
      FirstWhereAppend(db.clubOrder, p, p2, db.nextId);
    }
  }

  /** A matched member the comparison finds nothing to change in is left
      alone: one Unchanged audit record and no write. */
  lemma UnchangedStep(db: ImportDb, jobId: Id, rowId: string, exception: string, clubId: Id,
                      inc: Incoming, fault: Fault, id: Id)
    requires id in db.members && db.members[id].club.Some?
    requires !HasChanges(db.members[id], inc, clubId)
    ensures UpdateStep(db, jobId, rowId, exception, clubId, inc, fault, id).1 == Written(Unchanged)
    ensures UpdateStep(db, jobId, rowId, exception, clubId, inc, fault, id).0.(auditRows := db.auditRows) == db
  {
  }

  lemma UpdateAgain(db1: ImportDb, jobId: Id, jobId2: Id, rowId: string, exception: string, clubId: Id,
                    inc: Incoming, fault: Fault, fault2: Fault, id: Id)
    requires Wf(db1) && ToLower(inc.email) == inc.email
    requires Match(db1.members, db1.memberOrder, inc, clubId) == Some(id)
    requires UpdateStep(db1, jobId, rowId, exception, clubId, inc, fault, id).1.Written?
    ensures var db2 := UpdateStep(db1, jobId, rowId, exception, clubId, inc, fault, id).0;
      && MemberStep(db2, jobId2, rowId, exception, clubId, inc, fault2).1 == Written(Unchanged)
      && MemberStep(db2, jobId2, rowId, exception, clubId, inc, fault2).0.(auditRows := db2.auditRows) == db2
  {
    var db2 := UpdateStep(db1, jobId, rowId, exception, clubId, inc, fault, id).0;
    UpdateStepShape(db1, jobId, rowId, exception, clubId, inc, fault, id);
    var m := db1.members[id];
    var m' := Merge(m, inc, clubId);
    if HasChanges(m, inc, clubId) {
      assert db2.members == db1.members[id := m'];
      MatchAfterUpdate(db1.members, db1.memberOrder, inc, clubId, id);
      MergeIdempotent(m, inc, clubId);
    }
    UnchangedStep(db2, jobId2, rowId, exception, clubId, inc, fault2, id);
  }

  lemma CreateAgain(db1: ImportDb, jobId: Id, jobId2: Id, rowId: string, exception: string, clubId: Id,
                    inc: Incoming, fault: Fault, fault2: Fault)
    requires Wf(db1) && ToLower(inc.email) == inc.email
    requires Match(db1.members, db1.memberOrder, inc, clubId) == None
    requires CreateStep(db1, jobId, rowId, exception, clubId, inc, fault).1.Written?
    ensures var db2 := CreateStep(db1, jobId, rowId, exception, clubId, inc, fault).0;
      && MemberStep(db2, jobId2, rowId, exception, clubId, inc, fault2).1 == Written(Unchanged)
      && MemberStep(db2, jobId2, rowId, exception, clubId, inc, fault2).0.(auditRows := db2.auditRows) == db2
  {
    var db2 := CreateStep(db1, jobId, rowId, exception, clubId, inc, fault).0;
    CreateStepShape(db1, jobId, rowId, exception, clubId, inc, fault);
    var n := db1.nextId;
    assert db2.members == db1.members[n := NewMember(inc, clubId)];
    assert n !in db1.memberOrder;
    MatchAfterCreate(db1.members, db1.memberOrder, inc, clubId, n);
    NewMemberUnchanged(inc, clubId);
    UnchangedStep(db2, jobId2, rowId, exception, clubId, inc, fault2, n);
  }

  lemma MemberAgain(db1: ImportDb, jobId: Id, jobId2: Id, rowId: string, exception: string, clubId: Id,
                    inc: Incoming, fault: Fault, fault2: Fault)
    requires Wf(db1) && ToLower(inc.email) == inc.email
    requires MemberStep(db1, jobId, rowId, exception, clubId, inc, fault).1.Written?
    ensures var db2 := MemberStep(db1, jobId, rowId, exception, clubId, inc, fault).0;
      && db2.clubs == db1.clubs && db2.clubOrder == db1.clubOrder
      && MemberStep(db2, jobId2, rowId, exception, clubId, inc, fault2).1 == Written(Unchanged)
      && MemberStep(db2, jobId2, rowId, exception, clubId, inc, fault2).0.(auditRows := db2.auditRows) == db2
  {
    match Match(db1.members, db1.memberOrder, inc, clubId)
    case Some(id) =>
      UpdateStepShape(db1, jobId, rowId, exception, clubId, inc, fault, id);
      UpdateAgain(db1, jobId, jobId2, rowId, exception, clubId, inc, fault, fault2, id);
    case None =>
      CreateStepShape(db1, jobId, rowId, exception, clubId, inc, fault);
      CreateAgain(db1, jobId, jobId2, rowId, exception, clubId, inc, fault, fault2);
  }

  /** Importing a row that was written (created, updated or found unchanged)
      a second time, in this job or a later one, finds the same club and the
      same member, reports it Unchanged and writes nothing but its audit
      record. */
  lemma ReimportUnchanged(db: ImportDb, jobId: Id, jobId2: Id, r: SheetRow, fault: Fault, fault2: Fault,
                          parse: DateParser)
    requires Wf(db)
    requires StepRow(db, jobId, r, fault, parse).1.Written?
    ensures var db2 := StepRow(db, jobId, r, fault, parse).0;
      && StepRow(db2, jobId2, r, fault2, parse).1 == Written(Unchanged)
      && StepRow(db2, jobId2, r, fault2, parse).0.(auditRows := db2.auditRows) == db2
  {
    var f := r.fields;
    var res := ResolveClub(db, f, fault);
    assert StepRow(db, jobId, r, fault, parse) == AfterClub(db, jobId, r, res, fault, parse);
    assert res.Success? && f.firstName != [] && f.lastName != [];
    ResolveClubKeeps(db, f, fault);
    var db1, clubId := res.value.db, res.value.clubId;
    var inc := Normalise(f, parse);
    var first := MemberStep(db1, jobId, f.rowId, r.exception, clubId, inc, fault);
    assert StepRow(db, jobId, r, fault, parse) == first;
    MemberAgain(db1, jobId, jobId2, f.rowId, r.exception, clubId, inc, fault, fault2);
    var db2 := first.0;
    ResolveAgain(db, f, fault, db2, fault2);
    assert StepRow(db2, jobId2, r, fault2, parse) == MemberStep(db2, jobId2, f.rowId, r.exception, clubId, inc, fault2);
  }
}
