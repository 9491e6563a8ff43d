/** What the older importer promises, proved about the functions of
    legacy_spec.dfy (and so, through the contracts of legacy_engine.dfy,
    about the handler). */
module LegacyProperties {
  import opened Wrappers
  import opened Text
  import opened Models
  import opened Store
  import opened Fields
  import opened Normalize
  import opened ImportSpec
  import opened ImportProperties
  import opened LegacySpec

  // ---------------------------------------------------------------------------
  // The fill
  // ---------------------------------------------------------------------------

  /** A text field after the fill: kept when it held something, the row's
      value when it was empty. */
  predicate FilledText(before: string, after: string, given: string) {
    (before != [] ==> after == before) && (before == [] ==> after == given)
  }

  /** The fill never overwrites: a non-empty field keeps its value, an empty
      one takes the row's, and the fields the older importer does not carry
      (email, contact id, normalised phone, phone type, membership type,
      gender, date of birth) are untouched. */
  lemma FillNeverOverwrites(m: Member, u: Upload, clubId: Id)
    ensures var m' := FillMember(m, u, clubId);
      && FilledText(m.firstName, m'.firstName, u.firstName)
      && FilledText(m.lastName, m'.lastName, u.lastName)
      && FilledText(m.phone, m'.phone, u.phone)
      && FilledText(m.prefix, m'.prefix, u.prefix)
      && FilledText(m.middleName, m'.middleName, u.middleName)
      && FilledText(m.badgeNickname, m'.badgeNickname, u.badgeNickname)
      && FilledText(m.suffix, m'.suffix, u.suffix)
      && FilledText(m.streetAddress, m'.streetAddress, u.streetAddress)
      && FilledText(m.address2, m'.address2, u.address2)
      && FilledText(m.city, m'.city, u.city)
      && FilledText(m.state, m'.state, u.state)
      && FilledText(m.zip, m'.zip, u.zip)
      && FilledText(m.occupation, m'.occupation, u.occupation)
      && FilledText(m.employer, m'.employer, u.employer)
      && (m.club.Some? ==> m'.club == m.club) && (m.club.None? ==> m'.club == Some(clubId))
      && (m.deceased.Some? ==> m'.deceased == m.deceased) && (m.deceased.None? ==> m'.deceased == u.deceased)
      && (m.membershipExpiration.Some? ==> m'.membershipExpiration == m.membershipExpiration)
      && (m.membershipExpiration.None? ==> m'.membershipExpiration == u.membershipExpiration)
      && m'.email == m.email && m'.nfrwContactId == m.nfrwContactId && m'.phoneNormalized == m.phoneNormalized
      && m'.phoneType == m.phoneType && m'.membershipType == m.membershipType && m'.gender == m.gender
      && m'.dateOfBirth == m.dateOfBirth && m'.associatePrimaryMember == m.associatePrimaryMember
  {
  }

  /** The handler's `changed` flag is set exactly when the fill gives a
      different member, so a member that is not saved is one the fill would
      not have changed. */
  lemma ChangedIffFillDiffers(m: Member, u: Upload, clubId: Id)
    ensures Changed(m, u) <==> FillMember(m, u, clubId) != m
  {
    var m' := FillMember(m, u, clubId);
    if Changed(m, u) {
      if m.firstName == [] && u.firstName != [] { assert m'.firstName != m.firstName; }
      else if m.lastName == [] && u.lastName != [] { assert m'.lastName != m.lastName; }
      else if m.phone == [] && u.phone != [] { assert m'.phone != m.phone; }
      else if m.membershipExpiration.None? && u.membershipExpiration.Some? {
        assert m'.membershipExpiration != m.membershipExpiration;
      }
      else if m.club.None? { assert m'.club != m.club; }
      else if m.prefix == [] && u.prefix != [] { assert m'.prefix != m.prefix; }
      else if m.middleName == [] && u.middleName != [] { assert m'.middleName != m.middleName; }
      else if m.badgeNickname == [] && u.badgeNickname != [] { assert m'.badgeNickname != m.badgeNickname; }
      else if m.suffix == [] && u.suffix != [] { assert m'.suffix != m.suffix; }
      else if m.streetAddress == [] && u.streetAddress != [] { assert m'.streetAddress != m.streetAddress; }
      else if m.address2 == [] && u.address2 != [] { assert m'.address2 != m.address2; }
      else if m.city == [] && u.city != [] { assert m'.city != m.city; }
      else if m.state == [] && u.state != [] { assert m'.state != m.state; }
      else if m.zip == [] && u.zip != [] { assert m'.zip != m.zip; }
      else if m.occupation == [] && u.occupation != [] { assert m'.occupation != m.occupation; }
      else if m.employer == [] && u.employer != [] { assert m'.employer != m.employer; }
      else { assert m'.deceased != m.deceased; }
    }
  }

  /** Filling twice is filling once: after a fill the same row finds
      nothing more to fill. */
  lemma FillIdempotent(m: Member, u: Upload, clubId: Id)
    ensures FillMember(FillMember(m, u, clubId), u, clubId) == FillMember(m, u, clubId)
    ensures !Changed(FillMember(m, u, clubId), u)
  {
  }

  /** A member the row created has nothing the same row could fill. */
  lemma NewUploadMemberComplete(u: Upload, clubId: Id)
    ensures !Changed(NewUploadMember(u, clubId), u)
    ensures FillMember(NewUploadMember(u, clubId), u, clubId) == NewUploadMember(u, clubId)
  {
  }

  // ---------------------------------------------------------------------------
  // Matching
  // ---------------------------------------------------------------------------

  /** The match is the first member with the row's email when the row has an
      email and some member has it; otherwise the first member, in order,
      with the row's names in the club whose email or phone agrees. */
  lemma UploadMatchCharacterised(members: map<Id, Member>, order: seq<Id>, u: Upload, clubId: Id)
    ensures u.email != [] && FirstWhere(order, WithEmail(members, u.email)).Some? ==>
      UploadMatch(members, order, u, clubId) == FirstWhere(order, WithEmail(members, u.email))
    ensures u.email == [] || FirstWhere(order, WithEmail(members, u.email)).None? ==>
      UploadMatch(members, order, u, clubId)
        == FirstWhere(order, And(SameNameInClub(members, u.firstName, u.lastName, clubId), UploadMatchesContact(members, u)))
  {
    FirstOfFilter(order, SameNameInClub(members, u.firstName, u.lastName, clubId), UploadMatchesContact(members, u));
  }

  /** A write that keeps a member's email keeps every email search. */
  lemma EmailSearchAfterWrite(members: map<Id, Member>, order: seq<Id>, id: Id, m': Member, email: string)
    requires id in members && m'.email == members[id].email
    ensures FirstWhere(order, WithEmail(members[id := m'], email)) == FirstWhere(order, WithEmail(members, email))
  {
    FirstWhereSame(order, WithEmail(members, email), WithEmail(members[id := m'], email));
  }

  /** The candidate search still finds a member it found, once filled. */
  lemma CandidateAfterFill(members: map<Id, Member>, order: seq<Id>, u: Upload, clubId: Id, id: Id)
    requires id in members && id in order
    requires var q := And(SameNameInClub(members, u.firstName, u.lastName, clubId), UploadMatchesContact(members, u));
      FirstWhere(order, q) == Some(id)
    ensures var members' := members[id := FillMember(members[id], u, clubId)];
      var q' := And(SameNameInClub(members', u.firstName, u.lastName, clubId), UploadMatchesContact(members', u));
      FirstWhere(order, q') == Some(id)
  {
    var m' := FillMember(members[id], u, clubId);
    var members' := members[id := m'];
    var q := And(SameNameInClub(members, u.firstName, u.lastName, clubId), UploadMatchesContact(members, u));
    var q' := And(SameNameInClub(members', u.firstName, u.lastName, clubId), UploadMatchesContact(members', u));
    assert q(id);
    assert UploadContactMatches(u, m');
    assert q'(id);
    FirstWhereAfterChange(order, q, q', id);
  }

  /** After the matched member is filled, the same row matches it again. */
  lemma UploadMatchAfterFill(members: map<Id, Member>, order: seq<Id>, u: Upload, clubId: Id, id: Id)
    requires id in members && id in order
    requires UploadMatch(members, order, u, clubId) == Some(id)
    ensures UploadMatch(members[id := FillMember(members[id], u, clubId)], order, u, clubId) == Some(id)
  {
    var members' := members[id := FillMember(members[id], u, clubId)];
    UploadMatchCharacterised(members, order, u, clubId);
    UploadMatchCharacterised(members', order, u, clubId);
    EmailSearchAfterWrite(members, order, id, FillMember(members[id], u, clubId), u.email);
    if u.email == [] || FirstWhere(order, WithEmail(members, u.email)).None? {
      CandidateAfterFill(members, order, u, clubId, id);
    }
  }

  /** After a row that matched nobody creates its member under a fresh
      identity, last in order, the same row finds that member by its email. */
  lemma UploadMatchAfterCreate(members: map<Id, Member>, order: seq<Id>, u: Upload, clubId: Id, id: Id)
    requires id !in order && (forall y :: y in members ==> y in order)
    requires UploadMatch(members, order, u, clubId) == None
    requires u.email != []
    ensures UploadMatch(members[id := NewUploadMember(u, clubId)], order + [id], u, clubId) == Some(id)
  {
    var members' := members[id := NewUploadMember(u, clubId)];
    FirstWhereAppend(order, WithEmail(members, u.email), WithEmail(members', u.email), id);
  }

  // ---------------------------------------------------------------------------
  // One row
  // ---------------------------------------------------------------------------

  /** What a row's outcome says about the member table: a row with nothing
      to fill and a failed row wrote nothing; a filled row replaced its
      member by the fill and kept the order; a created row, which had an
      email, added exactly one member, last in order, under the next
      identity. */
  lemma UploadStepWrites(t: MemberTable, clubId: Id, r: UploadRow, fault: Option<string>, parse: DateParser)
    ensures var (t', o) := UploadStep(t, clubId, r, fault, parse);
      var u := NormaliseUpload(r, parse);
      && (o.NothingToFill? || o.RowFailed? ==> t' == t)
      && (o.RowFailed? ==> o.reason != [])
      && (o.Filled? ==>
            && UploadMatch(t.members, t.order, u, clubId).Some?
            && var id := UploadMatch(t.members, t.order, u, clubId).value;
            && Changed(t.members[id], u)
            && MemberWriteError(t.members, id, FillMember(t.members[id], u, clubId)).None?
            && t' == t.(members := t.members[id := FillMember(t.members[id], u, clubId)]))
      && (o.NewSaved? ==>
            && r.email != []
            && UploadMatch(t.members, t.order, u, clubId).None?
            && MemberWriteError(t.members, t.nextId, NewUploadMember(u, clubId)).None?
            && t' == MemberTable(t.members[t.nextId := NewUploadMember(u, clubId)], t.order + [t.nextId], t.nextId + 1))
  {
    if r.firstName != [] && r.lastName != [] {
      var u := NormaliseUpload(r, parse);
      match UploadMatch(t.members, t.order, u, clubId)
      case Some(id) =>
        assert UploadStep(t, clubId, r, fault, parse) == FillStep(t, id, u, clubId, fault);
      case None =>
        assert UploadStep(t, clubId, r, fault, parse) == CreateUploadStep(t, u, clubId, fault);
    }
  }

  /** A row without a first or last name is counted as skipped for that
      reason and writes nothing. */
  lemma UploadMissingNameSkips(t: MemberTable, clubId: Id, r: UploadRow, fault: Option<string>, parse: DateParser)
    requires r.firstName == [] || r.lastName == []
    ensures UploadStep(t, clubId, r, fault, parse) == (t, RowFailed(UploadMissingName))
  {
  }

  /** Uploading a row again right after it created or filled a member finds
      that member with nothing left to fill: the row counts as skipped and
      nothing is written. */
  lemma UploadAgainSkips(t: MemberTable, clubId: Id, r: UploadRow, fault: Option<string>, fault2: Option<string>,
                         parse: DateParser)
    requires TableWf(t)
    requires UploadStep(t, clubId, r, fault, parse).1.Filled? || UploadStep(t, clubId, r, fault, parse).1.NewSaved?
    ensures var t1 := UploadStep(t, clubId, r, fault, parse).0;
      UploadStep(t1, clubId, r, fault2, parse) == (t1, NothingToFill)
  {
    UploadStepWrites(t, clubId, r, fault, parse);
    var u := NormaliseUpload(r, parse);
    var t1 := UploadStep(t, clubId, r, fault, parse).0;
    if UploadStep(t, clubId, r, fault, parse).1.Filled? {
      var id := UploadMatch(t.members, t.order, u, clubId).value;
      UploadMatchAfterFill(t.members, t.order, u, clubId, id);
      FillIdempotent(t.members[id], u, clubId);
    } else {
      assert t.nextId !in t.order;
      UploadMatchAfterCreate(t.members, t.order, u, clubId, t.nextId);
      NewUploadMemberComplete(u, clubId);
    }
  }

  // ---------------------------------------------------------------------------
  // The table stays sound
  // ---------------------------------------------------------------------------

  /** The order lists the members, emails are unique and every member passes
      the schema. */
  ghost predicate TableSound(t: MemberTable) {
    TableWf(t) && EmailsUnique(t.members) && MembersOk(t.members)
  }

  /** The names the reader gives are trimmed. */
  predicate UploadNamesTrimmed(r: UploadRow) {
    Trim(r.firstName) == r.firstName && Trim(r.lastName) == r.lastName
  }

  lemma ReadUploadRowTrimmed(row: Row)
    ensures UploadNamesTrimmed(ReadUploadRow(row))
  {
    GetFieldIsTrimmed(row, UploadFirstKeys);
    GetFieldIsTrimmed(row, UploadLastKeys);
  }

  /** A row never breaks the table: a fill keeps names, email and club of a
      member that passes the schema, and a new member passes it. */
  lemma UploadStepSound(t: MemberTable, clubId: Id, r: UploadRow, fault: Option<string>, parse: DateParser)
    requires TableSound(t) && UploadNamesTrimmed(r)
    ensures TableSound(UploadStep(t, clubId, r, fault, parse).0)
  {
    UploadStepWrites(t, clubId, r, fault, parse);
    var (t', o) := UploadStep(t, clubId, r, fault, parse);
    var u := NormaliseUpload(r, parse);
    if o.Filled? {
      var id := UploadMatch(t.members, t.order, u, clubId).value;
      var m' := FillMember(t.members[id], u, clubId);
      MemberWriteKeepsEmailsUnique(t.members, id, m');
      assert MemberSchemaOk(t.members[id]);
      MembersOkStore(t.members, id, m');
      OrderedTableReplace(t.members, t.order, t.nextId, id, m');
    } else if o.NewSaved? {
      var m := NewUploadMember(u, clubId);
      MemberWriteKeepsEmailsUnique(t.members, t.nextId, m);
      MembersOkStore(t.members, t.nextId, m);
      OrderedTableAdd(t.members, t.order, t.nextId, m);
    }
  }

  /** A fold of steps that each keep `inv` on rows passing `rowOk` keeps
      `inv` over every prefix of a sheet whose rows all pass. */
  lemma {:induction false} UploadRunKeeps(t: MemberTable, rows: seq<UploadRow>, n: nat, step: UploadStepFn,
                                          inv: MemberTable -> bool, rowOk: UploadRow -> bool)
    requires n <= |rows| && inv(t)
    requires forall t': MemberTable, r: UploadRow, i: nat :: inv(t') && rowOk(r) ==> inv(step(t', r, i).0)
    requires forall i :: 0 <= i < |rows| ==> rowOk(rows[i])
    ensures inv(UploadRun(t, rows, n, step).0)
  {
    if n > 0 {
      UploadRunKeeps(t, rows, n - 1, step, inv, rowOk);
      assert rowOk(rows[n - 1]);
    }
  }

  /** Uploading a sheet keeps a sound member table sound. */
  lemma UploadSheetSound(t: MemberTable, clubId: Id, rows: seq<Row>, faults: nat -> Option<string>, parse: DateParser)
    requires TableSound(t)
    ensures TableSound(UploadRun(t, ReadUploadSheet(rows), |rows|, UploadRowStep(clubId, faults, parse)).0)
  {
    var sheet := ReadUploadSheet(rows);
    var step := UploadRowStep(clubId, faults, parse);
    var inv := (t': MemberTable) => TableSound(t');
    var rowOk := (r: UploadRow) => UploadNamesTrimmed(r);
    forall i | 0 <= i < |sheet|
      ensures rowOk(sheet[i])
    {
      ReadUploadRowTrimmed(rows[i]);
    }
    forall t': MemberTable, r: UploadRow, i: nat | inv(t') && rowOk(r)
      ensures inv(step(t', r, i).0)
    {
      UploadStepSound(t', clubId, r, faults(i), parse);
    }
    UploadRunKeeps(t, sheet, |rows|, step, inv, rowOk);
  }

  // ---------------------------------------------------------------------------
  // The counters
  // ---------------------------------------------------------------------------

  /** After `n` rows: each row counted once, at most one error per skipped
      row, and the errors name sheet lines 2..n+1 in increasing order. */
  ghost predicate UploadCountsFit(t: UploadTally, n: nat) {
    && t.created + t.updated + t.skipped == n
    && |t.errors| <= t.skipped
    && (forall k :: 0 <= k < |t.errors| ==> 2 <= t.errors[k].row <= n + 1)
    && (forall j, k :: 0 <= j < k < |t.errors| ==> t.errors[j].row < t.errors[k].row)
  }

  lemma {:induction false} UploadRunCounts(t: MemberTable, rows: seq<UploadRow>, n: nat, step: UploadStepFn)
    requires n <= |rows|
    ensures UploadCountsFit(UploadRun(t, rows, n, step).1, n)
  {
    if n > 0 {
      UploadRunCounts(t, rows, n - 1, step);
    }
  }

  /** The errors are exactly the failed rows: row `i` is recorded, at line
      `i + 2`, with its reason, when it failed, and no error names its line
      otherwise. */
  lemma {:induction false} UploadRunErrors(t: MemberTable, rows: seq<UploadRow>, n: nat, step: UploadStepFn, i: nat)
    requires i < n <= |rows|
    ensures var o := step(UploadRun(t, rows, i, step).0, rows[i], i).1;
      var errors := UploadRun(t, rows, n, step).1.errors;
      && (o.RowFailed? ==> RowError(i + 2, o.reason) in errors)
      && (!o.RowFailed? ==> forall e :: e in errors ==> e.row != i + 2)
  {
    UploadRunCounts(t, rows, n - 1, step);
    if i < n - 1 {
      UploadRunErrors(t, rows, n - 1, step, i);
    }
  }
}
