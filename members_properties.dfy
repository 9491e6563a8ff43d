/** What the member routes guarantee: the Dec 31 rule, the checks a stored
    member has passed, the partial update, the invariants of the member
    table, and who sees which members. */
module MemberProperties {
  import opened Wrappers
  import opened Text
  import opened Models
  import opened Store
  import opened Dates
  import opened ImportSpec
  import opened Access
  import opened MemberRoutes
  import opened Tables

  // ---------------------------------------------------------------------------
  // The Dec 31 rule
  // ---------------------------------------------------------------------------

  /** (year, month, day) of `a` is not after that of `b`. */
  predicate DayNotAfter(a: Date, b: Date) {
    a.year < b.year || (a.year == b.year && (a.month < b.month || (a.month == b.month && a.day <= b.day)))
  }

  /** Before the cut-off the offered expiration is Dec 31 of the reference
      year, from it on Dec 31 of the next; either way never a day in the
      past. */
  lemma Dec31Rule(ref: Date, cutoff: Cutoff)
    requires 1 <= ref.month <= 12 && 1 <= ref.day <= 31
    ensures DecYear(ref, cutoff) == ref.year <==> BeforeCutoff(ref, cutoff)
    ensures DecYear(ref, cutoff) == ref.year + 1 <==> !BeforeCutoff(ref, cutoff)
    ensures DayNotAfter(ref, Date(DecYear(ref, cutoff), 12, 31, 0))
  {
  }

  /** A later sign-up day never gets an earlier Dec 31. */
  lemma DecYearMonotone(a: Date, b: Date, cutoff: Cutoff)
    requires DayNotAfter(a, b)
    ensures DecYear(a, cutoff) <= DecYear(b, cutoff)
  {
  }

  /** An expiration text whose day part is the offered one is stored as
      local midnight of that Dec 31. */
  lemma StoredAsDec31(s: string, ref: Date, cutoff: Cutoff)
    requires BeforeFirst(s, 'T') == Dec31Iso(ref, cutoff) && DecYear(ref, cutoff) >= 100
    ensures StoredExpiration(s) == Some(Date(DecYear(ref, cutoff), 12, 31, 0))
  {
    December31RoundTrip(DecYear(ref, cutoff));
  }

  // ---------------------------------------------------------------------------
  // POST /
  // ---------------------------------------------------------------------------

  /** A created member passed every check: the validators, the Dec 31 rule,
      a club the caller may use and that exists, an email nobody has. */
  lemma CreateOnlyIfChecked(members: map<Id, Member>, clubs: map<Id, Club>, id: Id, user: User, req: MemberBody,
                            now: Date, cutoff: Cutoff, isEmail: string -> bool)
    requires CreateMember(members, clubs, id, user, req, now, cutoff, isEmail).Success?
    ensures CreateValidation(req, isEmail) == []
    ensures req.membershipExpiration != [] ==> BeforeFirst(req.membershipExpiration, 'T') == Dec31Iso(now, cutoff)
    ensures req.club.Given? && req.club.value in clubs && MayUseClub(user, req.club.value)
    ensures !EmailInUse(members, req.email)
  {
  }

  /** And a request that passes every check is created, under the next
      identity, as the document the handler builds. */
  lemma CreateWhenChecked(members: map<Id, Member>, clubs: map<Id, Club>, id: Id, user: User, req: MemberBody,
                          now: Date, cutoff: Cutoff, isEmail: string -> bool)
    requires id !in members
    requires CreateValidation(req, isEmail) == [] && req.email != []
    requires req.membershipExpiration != [] ==> BeforeFirst(req.membershipExpiration, 'T') == Dec31Iso(now, cutoff)
    requires DecYear(now, cutoff) >= 100
    requires req.club.Given? && req.club.value in clubs && MayUseClub(user, req.club.value)
    requires !EmailInUse(members, req.email)
    ensures CreateMember(members, clubs, id, user, req, now, cutoff, isEmail) == Success(NewMemberDoc(req))
  {
    var doc := NewMemberDoc(req);
    if req.membershipExpiration != [] {
      StoredAsDec31(req.membershipExpiration, now, cutoff);
    }
    SavedWhenComplete(members, id, doc, req.membershipExpiration != []);
  }

  /** The save of a complete document with a free email and a readable
      expiration goes through. */
  lemma SavedWhenComplete(members: map<Id, Member>, id: Id, doc: Member, expirationGiven: bool)
    requires doc.firstName != [] && doc.lastName != [] && doc.email != [] && doc.club.Some?
    requires !EmailInUse(members, doc.email)
    requires expirationGiven ==> doc.membershipExpiration.Some?
    ensures !SaveRefused(members, id, doc, expirationGiven)
  {
  }

  /** A created member carries the offered Dec 31 when an expiration was
      given, none otherwise, and the documented defaults. */
  lemma CreateDefaults(members: map<Id, Member>, clubs: map<Id, Club>, id: Id, user: User, req: MemberBody,
                       now: Date, cutoff: Cutoff, isEmail: string -> bool)
    requires CreateMember(members, clubs, id, user, req, now, cutoff, isEmail).Success?
    requires DecYear(now, cutoff) >= 100
    ensures var m := CreateMember(members, clubs, id, user, req, now, cutoff, isEmail).value;
      && m.membershipExpiration == (if req.membershipExpiration != [] then Some(Date(DecYear(now, cutoff), 12, 31, 0)) else None)
      && (req.membershipType.Given? ==> m.membershipType.Name() == req.membershipType.value)
      && (req.membershipType.Absent? ==> m.membershipType == Full)
      && (req.phoneType.Given? ==> m.phoneType.Some? && m.phoneType.value.Name() == req.phoneType.value)
      && (req.phoneType.Absent? ==> m.phoneType.None?)
      && m.deceased == Some(req.deceased)
      && req.club.Given? && m.club == Some(req.club.value)
      && m.email == req.email && m.firstName == req.firstName && m.lastName == req.lastName
  {
    assert CreateMember(members, clubs, id, user, req, now, cutoff, isEmail).value == NewMemberDoc(req);
    if req.membershipExpiration != [] {
      assert BeforeFirst(req.membershipExpiration, 'T') == Dec31Iso(now, cutoff);
      StoredAsDec31(req.membershipExpiration, now, cutoff);
    }
  }

  /** The request was refused by the validators with message `msg`. */
  predicate RefusedWith(r: Result<Member, Refusal>, msg: string) {
    r.Failure? && r.error.Invalid? && msg in r.error.messages
  }

  /** The phone type, membership type and club validators: a create is
      refused with each one's message exactly when that field is null or,
      for the two types, a text outside the listed names. */
  lemma CreateChoiceRefused(members: map<Id, Member>, clubs: map<Id, Club>, id: Id, user: User, req: MemberBody,
                            now: Date, cutoff: Cutoff, isEmail: string -> bool)
    ensures var r := CreateMember(members, clubs, id, user, req, now, cutoff, isEmail);
      && (RefusedWith(r, "Invalid phone type") <==>
            req.phoneType.Null? || (req.phoneType.Given? && req.phoneType.value !in ["Home", "Cell", "Work"]))
      && (RefusedWith(r, "Invalid membership type") <==>
            req.membershipType.Null?
            || (req.membershipType.Given? && req.membershipType.value !in ["Full", "Associate", "Honorary", "Inactive"]))
      && (RefusedWith(r, "Valid club ID") <==> req.club.Null?)
  {
    var names := (if req.firstName == [] then ["First name required"] else [])
      + (if req.lastName == [] then ["Last name required"] else [])
      + (if !isEmail(req.email) then ["Valid email required"] else []);
    assert CreateValidation(req, isEmail) == names + ChoiceValidation(req.phoneType, req.membershipType, req.club);
    CreateInvalidMessages(members, clubs, id, user, req, now, cutoff, isEmail);
    ChoiceRefusals(CreateMember(members, clubs, id, user, req, now, cutoff, isEmail), names,
                   req.phoneType, req.membershipType, req.club);
  }

  /** A create is refused as invalid exactly with the validators' messages,
      when there are any. */
  lemma CreateInvalidMessages(members: map<Id, Member>, clubs: map<Id, Club>, id: Id, user: User, req: MemberBody,
                              now: Date, cutoff: Cutoff, isEmail: string -> bool)
    ensures var r := CreateMember(members, clubs, id, user, req, now, cutoff, isEmail);
      forall msg :: RefusedWith(r, msg) <==> msg in CreateValidation(req, isEmail)
  {
  }

  /** The same for an update. */
  lemma UpdateChoiceRefused(members: map<Id, Member>, user: User, id: Id, p: MemberPatch,
                            now: Date, cutoff: Cutoff, render: Date -> string, isEmail: string -> bool)
    ensures var r := UpdateMember(members, user, id, p, now, cutoff, render, isEmail);
      && (RefusedWith(r, "Invalid phone type") <==>
            p.phoneType.Null? || (p.phoneType.Given? && p.phoneType.value !in ["Home", "Cell", "Work"]))
      && (RefusedWith(r, "Invalid membership type") <==>
            p.membershipType.Null?
            || (p.membershipType.Given? && p.membershipType.value !in ["Full", "Associate", "Honorary", "Inactive"]))
      && (RefusedWith(r, "Valid club ID") <==> p.club.Null?)
  {
    var names := (if p.firstName == Some([]) then ["First name cannot be empty"] else [])
      + (if p.lastName == Some([]) then ["Last name cannot be empty"] else [])
      + (if p.email.Some? && !isEmail(p.email.value) then ["Valid email required"] else []);
    assert UpdateValidation(p, isEmail) == names + ChoiceValidation(p.phoneType, p.membershipType, p.club);
    UpdateInvalidMessages(members, user, id, p, now, cutoff, render, isEmail);
    ChoiceRefusals(UpdateMember(members, user, id, p, now, cutoff, render, isEmail), names,
                   p.phoneType, p.membershipType, p.club);
  }

  /** An update is refused as invalid exactly with the validators' messages,
      when there are any. */
  lemma UpdateInvalidMessages(members: map<Id, Member>, user: User, id: Id, p: MemberPatch,
                              now: Date, cutoff: Cutoff, render: Date -> string, isEmail: string -> bool)
    ensures var r := UpdateMember(members, user, id, p, now, cutoff, render, isEmail);
      forall msg :: RefusedWith(r, msg) <==> msg in UpdateValidation(p, isEmail)
  {
  }

  /** An answer refused with exactly the validators' messages is refused
      with each choice message exactly when its field is refused. */
  lemma ChoiceRefusals(r: Result<Member, Refusal>, names: seq<string>,
                       phoneType: Body<string>, membershipType: Body<string>, club: Body<Id>)
    requires forall k :: 0 <= k < |names| ==> names[k] in ["First name required", "Last name required",
      "First name cannot be empty", "Last name cannot be empty", "Valid email required"]
    requires forall msg :: RefusedWith(r, msg) <==> msg in names + ChoiceValidation(phoneType, membershipType, club)
    ensures && (RefusedWith(r, "Invalid phone type") <==>
                  phoneType.Null? || (phoneType.Given? && phoneType.value !in ["Home", "Cell", "Work"]))
            && (RefusedWith(r, "Invalid membership type") <==>
                  membershipType.Null?
                  || (membershipType.Given? && membershipType.value !in ["Full", "Associate", "Honorary", "Inactive"]))
            && (RefusedWith(r, "Valid club ID") <==> club.Null?)
  {
    ChoiceMessages(names, phoneType, membershipType, club);
  }

  /** Each choice message is among the validators' messages exactly when its
      field is refused; the name and email messages are other texts. */
  lemma ChoiceMessages(names: seq<string>, phoneType: Body<string>, membershipType: Body<string>, club: Body<Id>)
    requires forall k :: 0 <= k < |names| ==> names[k] in ["First name required", "Last name required",
      "First name cannot be empty", "Last name cannot be empty", "Valid email required"]
    ensures var all := names + ChoiceValidation(phoneType, membershipType, club);
      && ("Invalid phone type" in all <==>
            phoneType.Null? || (phoneType.Given? && phoneType.value !in ["Home", "Cell", "Work"]))
      && ("Invalid membership type" in all <==>
            membershipType.Null?
            || (membershipType.Given? && membershipType.value !in ["Full", "Associate", "Honorary", "Inactive"]))
      && ("Valid club ID" in all <==> club.Null?)
  {
    var choices := ChoiceValidation(phoneType, membershipType, club);
    assert "Invalid phone type" !in names && "Invalid membership type" !in names && "Valid club ID" !in names;
    assert forall m :: m in names + choices <==> m in names || m in choices;
  }

  /** A Member Admin creates members only in the club of their token. */
  lemma MemberAdminCreatesInOwnClub(members: map<Id, Member>, clubs: map<Id, Club>, id: Id, user: User, req: MemberBody,
                                    now: Date, cutoff: Cutoff, isEmail: string -> bool)
    requires CreateMember(members, clubs, id, user, req, now, cutoff, isEmail).Success?
    requires user.adminType == MemberAdmin
    ensures CreateMember(members, clubs, id, user, req, now, cutoff, isEmail).value.club == user.clubId
  {
  }

  /** The validators trimmed the names and normalizeEmail lower-cased the
      address. */
  predicate SanitisedBody(req: MemberBody) {
    Trim(req.firstName) == req.firstName && Trim(req.lastName) == req.lastName && ToLower(req.email) == req.email
  }

  predicate TableSound(members: map<Id, Member>) {
    EmailsUnique(members) && MembersOk(members)
  }

  /** Creating keeps every stored member passing the schema and emails
      unique. */
  lemma CreateKeepsTableSound(members: map<Id, Member>, clubs: map<Id, Club>, id: Id, user: User, req: MemberBody,
                              now: Date, cutoff: Cutoff, isEmail: string -> bool)
    requires TableSound(members) && SanitisedBody(req)
    requires CreateMember(members, clubs, id, user, req, now, cutoff, isEmail).Success?
    ensures TableSound(members[id := CreateMember(members, clubs, id, user, req, now, cutoff, isEmail).value])
  {
    var doc := NewMemberDoc(req);
    assert MemberWriteError(members, id, doc).None?;
    MemberWriteKeepsEmailsUnique(members, id, doc);
    MembersOkStore(members, id, doc);
  }

  // ---------------------------------------------------------------------------
  // PUT /:id
  // ---------------------------------------------------------------------------

  /** An update goes through only for a valid body and a caller who may
      access the stored member. */
  lemma UpdateOnlyIfAllowed(members: map<Id, Member>, user: User, id: Id, p: MemberPatch,
                            now: Date, cutoff: Cutoff, render: Date -> string, isEmail: string -> bool)
    requires UpdateMember(members, user, id, p, now, cutoff, render, isEmail).Success?
    ensures UpdateValidation(p, isEmail) == []
    ensures id in members && MayAccessMember(user, members[id])
  {
  }

  /** Only the supplied fields change; the others keep their stored
      values. */
  lemma UpdateOnlySupplied(members: map<Id, Member>, user: User, id: Id, p: MemberPatch,
                           now: Date, cutoff: Cutoff, render: Date -> string, isEmail: string -> bool)
    requires UpdateMember(members, user, id, p, now, cutoff, render, isEmail).Success?
    ensures var m, m' := members[id], UpdateMember(members, user, id, p, now, cutoff, render, isEmail).value;
      && m'.firstName == Supplied(m.firstName, p.firstName) && m'.lastName == Supplied(m.lastName, p.lastName)
      && m'.phone == Supplied(m.phone, p.phone) && m'.streetAddress == Supplied(m.streetAddress, p.streetAddress)
      && m'.address2 == Supplied(m.address2, p.address2) && m'.city == Supplied(m.city, p.city)
      && m'.state == Supplied(m.state, p.state) && m'.zip == Supplied(m.zip, p.zip)
      && m'.prefix == Supplied(m.prefix, p.prefix) && m'.middleName == Supplied(m.middleName, p.middleName)
      && m'.badgeNickname == Supplied(m.badgeNickname, p.badgeNickname) && m'.suffix == Supplied(m.suffix, p.suffix)
      && (p.phoneType.Absent? ==> m'.phoneType == m.phoneType)
      && (p.phoneType.Given? ==> m'.phoneType.Some? && m'.phoneType.value.Name() == p.phoneType.value)
      && m'.occupation == Supplied(m.occupation, p.occupation) && m'.employer == Supplied(m.employer, p.employer)
      && (p.deceased.None? ==> m'.deceased == m.deceased) && (p.deceased.Some? ==> m'.deceased == p.deceased)
      && (p.membershipType.Absent? ==> m'.membershipType == m.membershipType)
      && (p.membershipType.Given? ==> m'.membershipType.Name() == p.membershipType.value)
      && (p.membershipExpiration.Absent? ==> m'.membershipExpiration == m.membershipExpiration)
      && (p.club.Absent? ==> m'.club == m.club) && (p.club.Given? ==> m'.club == Some(p.club.value))
      && (p.email.None? ==> m'.email == m.email)
      && m'.nfrwContactId == m.nfrwContactId && m'.phoneNormalized == m.phoneNormalized
      && m'.associatePrimaryMember == m.associatePrimaryMember && m'.gender == m.gender
      && m'.dateOfBirth == m.dateOfBirth
  {
  }

  /** An expiration can be changed but never cleared: null or empty is
      refused, and a given one is stored only when its day part is empty,
      the offered Dec 31 or the stored expiration's day, and reads as a
      date. */
  lemma UpdateExpirationRule(members: map<Id, Member>, user: User, id: Id, p: MemberPatch,
                             now: Date, cutoff: Cutoff, render: Date -> string, isEmail: string -> bool)
    requires UpdateMember(members, user, id, p, now, cutoff, render, isEmail).Success?
    ensures !p.membershipExpiration.Null?
    ensures p.membershipExpiration.Given? ==>
      var s, m := p.membershipExpiration.value, members[id];
      var provided := BeforeFirst(s, 'T');
      && s != []
      && (provided == [] || provided == Dec31Iso(now, cutoff)
          || (m.membershipExpiration.Some? && DayText(m.membershipExpiration.value, render) == provided))
      && UpdateMember(members, user, id, p, now, cutoff, render, isEmail).value.membershipExpiration == StoredExpiration(s)
      && StoredExpiration(s).Some?
  {
  }

  /** Choosing the offered day stores that Dec 31. */
  lemma UpdateToDec31(members: map<Id, Member>, user: User, id: Id, p: MemberPatch,
                      now: Date, cutoff: Cutoff, render: Date -> string, isEmail: string -> bool)
    requires UpdateMember(members, user, id, p, now, cutoff, render, isEmail).Success?
    requires p.membershipExpiration.Given? && BeforeFirst(p.membershipExpiration.value, 'T') == Dec31Iso(now, cutoff)
    requires DecYear(now, cutoff) >= 100
    ensures UpdateMember(members, user, id, p, now, cutoff, render, isEmail).value.membershipExpiration
         == Some(Date(DecYear(now, cutoff), 12, 31, 0))
  {
    assert UpdateMember(members, user, id, p, now, cutoff, render, isEmail).value == PatchMember(members[id], p);
    StoredAsDec31(p.membershipExpiration.value, now, cutoff);
  }

  /** An update that reaches the expiration check with null or an empty text
      is refused with "cannot be cleared". */
  lemma ClearingRefused(members: map<Id, Member>, user: User, id: Id, p: MemberPatch,
                        now: Date, cutoff: Cutoff, render: Date -> string, isEmail: string -> bool)
    requires UpdateValidation(p, isEmail) == [] && id in members && MayAccessMember(user, members[id])
    requires p.membershipExpiration == Null || p.membershipExpiration == Given([])
    ensures UpdateMember(members, user, id, p, now, cutoff, render, isEmail) == Failure(Rejected(ExpirationCleared))
  {
  }

  /** The email changes only to one no member has; a taken one is refused. */
  lemma UpdateEmailRule(members: map<Id, Member>, user: User, id: Id, p: MemberPatch,
                        now: Date, cutoff: Cutoff, render: Date -> string, isEmail: string -> bool)
    ensures var r := UpdateMember(members, user, id, p, now, cutoff, render, isEmail);
      r.Success? && r.value.email != members[id].email ==>
        p.email == Some(r.value.email) && !EmailInUse(members, r.value.email)
    ensures var r := UpdateMember(members, user, id, p, now, cutoff, render, isEmail);
      && UpdateValidation(p, isEmail) == [] && id in members && MayAccessMember(user, members[id])
      && ExpirationCheck(p.membershipExpiration, members[id].membershipExpiration, Dec31Iso(now, cutoff), render).None?
      && p.email.Some? && p.email.value != [] && p.email.value != members[id].email && EmailInUse(members, p.email.value)
      ==> r == Failure(Rejected(EmailExists))
  {
  }

  predicate SanitisedPatch(p: MemberPatch) {
    && (p.firstName.Some? ==> Trim(p.firstName.value) == p.firstName.value)
    && (p.lastName.Some? ==> Trim(p.lastName.value) == p.lastName.value)
    && (p.email.Some? ==> ToLower(p.email.value) == p.email.value)
  }

  /** Updating keeps every stored member passing the schema and emails
      unique. */
  lemma UpdateKeepsTableSound(members: map<Id, Member>, user: User, id: Id, p: MemberPatch,
                              now: Date, cutoff: Cutoff, render: Date -> string, isEmail: string -> bool)
    requires TableSound(members) && SanitisedPatch(p)
    requires UpdateMember(members, user, id, p, now, cutoff, render, isEmail).Success?
    ensures TableSound(members[id := UpdateMember(members, user, id, p, now, cutoff, render, isEmail).value])
  {
    var m' := PatchMember(members[id], p);
    assert MemberWriteError(members, id, m').None?;
    assert MemberSchemaOk(members[id]);
    MemberWriteKeepsEmailsUnique(members, id, m');
    MembersOkStore(members, id, m');
  }

  /** The body that only names a club. */
  function ClubOnly(club: Id): MemberPatch {
    MemberPatch(None, None, None, None, None, None, None, None, None, None, None, None, None,
                Absent, None, None, None, Absent, Absent, Given(club))
  }

  /** As written, a Member Admin moves a member of their club to any other
      club, even one that does not exist, and so out of their own reach. */
  lemma MemberAdminMovesMemberOut(members: map<Id, Member>, user: User, id: Id, other: Id,
                                  now: Date, cutoff: Cutoff, render: Date -> string, isEmail: string -> bool)
    requires user.adminType == MemberAdmin && id in members && members[id].club == user.clubId && user.clubId.Some?
    requires other != user.clubId.value
    requires MemberSchemaOk(members[id]) && !EmailTaken(members, id, members[id].email)
    ensures UpdateMember(members, user, id, ClubOnly(other), now, cutoff, render, isEmail) == Success(members[id].(club := Some(other)))
    ensures !MayAccessMember(user, members[id].(club := Some(other)))
  {
    var m := members[id];
    assert PatchMember(m, ClubOnly(other)) == m.(club := Some(other));
    assert !SaveRefused(members, id, m.(club := Some(other)), false);
  }

  /** With the club checks, a Member Admin's update keeps the member in their
      club, and any club named exists. */
  lemma ScopedUpdateKeepsClub(members: map<Id, Member>, clubs: map<Id, Club>, user: User, id: Id, p: MemberPatch,
                              now: Date, cutoff: Cutoff, render: Date -> string, isEmail: string -> bool)
    requires UpdateMemberScoped(members, clubs, user, id, p, now, cutoff, render, isEmail).Success?
    ensures user.adminType == MemberAdmin ==>
      UpdateMemberScoped(members, clubs, user, id, p, now, cutoff, render, isEmail).value.club == user.clubId
    ensures p.club.Given? ==> p.club.value in clubs
  {
    assert UpdateMember(members, user, id, p, now, cutoff, render, isEmail).value == PatchMember(members[id], p);
  }

  // ---------------------------------------------------------------------------
  // Access, listing and delete
  // ---------------------------------------------------------------------------

  /** The read, update and delete handlers refuse the same callers with the
      same 403. */
  lemma AccessUniform(members: map<Id, Member>, user: User, id: Id, p: MemberPatch,
                      now: Date, cutoff: Cutoff, render: Date -> string, isEmail: string -> bool)
    requires id in members && !MayAccessMember(user, members[id])
    requires UpdateValidation(p, isEmail) == []
    ensures GetMember(members, user, id) == Failure(InsufficientPermissions)
    ensures DeleteMember(members, user, id) == Some(InsufficientPermissions)
    ensures UpdateMember(members, user, id, p, now, cutoff, render, isEmail) == Failure(Rejected(InsufficientPermissions))
  {
  }

  /** A Member Admin lists exactly the members of their club; everyone else
      lists all members in stored order. */
  lemma ListMembersScoped(members: map<Id, Member>, order: seq<Id>, user: User)
    requires forall id :: id in order ==> id in members
    ensures user.adminType == MemberAdmin ==>
      forall id :: id in ListMembers(members, order, user) <==> id in order && members[id].club == user.clubId
    ensures user.adminType != MemberAdmin ==> ListMembers(members, order, user) == order
  {
  }

  /** A Member Admin can read exactly the members they list. */
  lemma MemberAdminReadsWhatTheyList(members: map<Id, Member>, order: seq<Id>, user: User, id: Id)
    requires forall x :: x in members <==> x in order
    requires user.adminType == MemberAdmin && user.clubId.Some?
    ensures GetMember(members, user, id).Success? <==> id in ListMembers(members, order, user)
  {
  }

  /** Deleting removes exactly that member and keeps the table exact. */
  lemma DeleteKeepsTable(members: map<Id, Member>, order: seq<Id>, next: Id, user: User, id: Id)
    requires OrderedTable(members, order, next) && TableSound(members)
    requires DeleteMember(members, user, id).None?
    ensures OrderedTable(members - {id}, Filter(order, (x: Id) => x != id), next)
    ensures TableSound(members - {id})
    ensures id in members && MayAccessMember(user, members[id])
  {
    OrderedTableRemove(members, order, next, id);
  }
}
