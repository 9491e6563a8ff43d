/** What the club registry promises: names stay unique, a member admin is
    always an existing member when it is set, updates touch only what the
    body supplies, a Member Admin reaches only their own club, and deleting
    a club takes its members with it and nothing else. */
module ClubProperties {
  import opened Wrappers
  import opened Models
  import opened Store
  import opened ImportSpec
  import opened Tables
  import opened Access
  import opened ClubRoutes
  import opened Text

  /** A club table as the schema keeps it: every name present and no name
      twice. */
  predicate ClubsSound(clubs: map<Id, Club>) {
    ClubNamesUnique(clubs) && forall id :: id in clubs ==> clubs[id].name != []
  }

  // ---------------------------------------------------------------------------
  // Create
  // ---------------------------------------------------------------------------

  /** A club is created only for a System or Club Admin, with a name no club
      has and a member admin that is a stored member. */
  lemma CreateOnlyIfChecked(clubs: map<Id, Club>, members: map<Id, Member>, id: Id, user: Option<User>,
                            b: ClubBody, isURL: string -> bool)
    requires CreateClub(clubs, members, id, user, b, isURL).Success?
    ensures user.Some? && user.value.adminType in ClubManagers
    ensures b.name != [] && !NameInUse(clubs, b.name)
    ensures !b.memberAdmin.Null? && (b.memberAdmin.Given? ==> b.memberAdmin.value in members)
  {
  }

  /** Conversely, a request that passes those checks is stored, with the
      defaults filled in: the save itself never fails on a fresh identity. */
  lemma CreateWhenChecked(clubs: map<Id, Club>, members: map<Id, Member>, id: Id, user: Option<User>,
                          b: ClubBody, isURL: string -> bool)
    requires id !in clubs
    requires user.Some? && user.value.adminType in ClubManagers
    requires CreateClubValidation(b, isURL) == [] && !NameInUse(clubs, b.name)
    requires b.memberAdmin.Given? ==> b.memberAdmin.value in members
    ensures var r := CreateClub(clubs, members, id, user, b, isURL);
      && r.Success?
      && r.value.name == b.name && r.value.location == b.location && r.value.homePage == Trim(b.homePage)
      && (b.memberAdmin.Given? ==> r.value.memberAdmin == Some(b.memberAdmin.value))
      && (b.memberAdmin.Absent? ==> r.value.memberAdmin.None?)
      && (b.status.Absent? ==> r.value.status == ClubActive)
      && (b.status.Given? ==> r.value.status.Name() == b.status.value)
  {
    assert !ClubNameTaken(clubs, id, b.name);
  }

  /** Creating keeps the table sound. */
  lemma CreateKeepsClubsSound(clubs: map<Id, Club>, members: map<Id, Member>, id: Id, user: Option<User>,
                              b: ClubBody, isURL: string -> bool)
    requires ClubsSound(clubs)
    requires CreateClub(clubs, members, id, user, b, isURL).Success?
    ensures ClubsSound(clubs[id := CreateClub(clubs, members, id, user, b, isURL).value])
  {
    var c := CreateClub(clubs, members, id, user, b, isURL).value;
    ClubWriteKeepsNamesUnique(clubs, id, c);
  }

  // ---------------------------------------------------------------------------
  // Update
  // ---------------------------------------------------------------------------

  /** Renaming to a name another club has is refused; asking for the
      current name changes nothing and is never refused for it. */
  lemma RenameRule(clubs: map<Id, Club>, members: map<Id, Member>, user: User, id: Id,
                   p: ClubPatch, isURL: string -> bool)
    requires id in clubs && p.name.Some?
    ensures var r := UpdateClub(clubs, members, user, id, p, isURL);
      && (r.Success? && p.name.value != clubs[id].name ==> r.value.name == p.name.value && !NameInUse(clubs, p.name.value))
      && (p.name.value == clubs[id].name ==> r != Failure(Rejected(ClubNameExists)))
      && (r.Success? && p.name.value == clubs[id].name ==> r.value.name == clubs[id].name)
  {
  }

  /** An update changes only the fields the body supplies; its member admin
      is never null and a given one is a stored member. */
  lemma UpdateOnlySupplied(clubs: map<Id, Club>, members: map<Id, Member>, user: User, id: Id,
                           p: ClubPatch, isURL: string -> bool)
    requires UpdateClub(clubs, members, user, id, p, isURL).Success?
    ensures var c, c' := clubs[id], UpdateClub(clubs, members, user, id, p, isURL).value;
      && c'.charterNumber == c.charterNumber && c'.state == c.state
      && (p.name.None? ==> c'.name == c.name)
      && (p.location.None? ==> c'.location == c.location)
      && (p.location.Some? ==> c'.location == p.location.value)
      && (p.homePage.Absent? ==> c'.homePage == c.homePage)
      && (p.homePage.Given? ==> c'.homePage == Trim(p.homePage.value))
      && (p.status.Absent? ==> c'.status == c.status)
      && (p.status.Given? ==> c'.status.Name() == p.status.value)
      && !p.memberAdmin.Null?
      && (p.memberAdmin.Absent? ==> c'.memberAdmin == c.memberAdmin)
      && (p.memberAdmin.Given? ==> c'.memberAdmin == Some(p.memberAdmin.value) && p.memberAdmin.value in members)
  {
  }

  /** As written, a null member admin is refused by `isMongoId()`, so the
      handler's branch that clears the admin is never reached. */
  lemma NullAdminRefused(clubs: map<Id, Club>, members: map<Id, Member>, user: User, id: Id,
                         p: ClubPatch, isURL: string -> bool)
    requires p.memberAdmin.Null?
    ensures var r := UpdateClub(clubs, members, user, id, p, isURL);
      r.Failure? && r.error.Invalid? && "Invalid member ID" in r.error.messages
  {
    var msgs := UpdateClubValidation(p, isURL);
    assert msgs[|msgs| - 1] == "Invalid member ID";
  }

  /** With the member admin's validator nullable, a permitted null member
      admin clears the admin and changes nothing else; every other body is
      answered as before. */
  lemma NullableClearsAdmin(clubs: map<Id, Club>, members: map<Id, Member>, user: User, id: Id,
                            p: ClubPatch, isURL: string -> bool)
    ensures !p.memberAdmin.Null? ==>
      UpdateClubNullable(clubs, members, user, id, p, isURL) == UpdateClub(clubs, members, user, id, p, isURL)
    ensures p.memberAdmin.Null? && UpdateClubNullable(clubs, members, user, id, p, isURL).Success? ==>
      UpdateClubNullable(clubs, members, user, id, p, isURL).value.memberAdmin.None?
    ensures p.memberAdmin.Null? && FieldValidation(p, isURL) == [] && id in clubs && MayUseClub(user, id)
            && !(Renames(clubs[id], p) && NameInUse(clubs, p.name.value)) && ClubsSound(clubs) ==>
      UpdateClubNullable(clubs, members, user, id, p, isURL) == Success(PatchClub(clubs[id], p))
  {
    if !p.memberAdmin.Null? {
      assert AdminValidation(p.memberAdmin) == [];
      var v := FieldValidation(p, isURL);
      assert v + [] == v;
      assert UpdateClubValidation(p, isURL) == v;
    }
    if p.memberAdmin.Null? && FieldValidation(p, isURL) == [] && id in clubs && MayUseClub(user, id)
       && !(Renames(clubs[id], p) && NameInUse(clubs, p.name.value)) && ClubsSound(clubs) {
      var c := clubs[id];
      var c' := PatchClub(c, p);
      assert c'.name != [];
      if Renames(c, p) {
        assert !ClubNameTaken(clubs, id, c'.name);
      } else {
        assert c'.name == c.name;
        assert !ClubNameTaken(clubs, id, c'.name);
      }
      assert ClubWriteError(clubs, id, c').None?;
    }
  }

  /** On a sound table a valid, permitted update is never refused by the
      save, and the table stays sound. */
  lemma UpdateKeepsClubsSound(clubs: map<Id, Club>, members: map<Id, Member>, user: User, id: Id,
                              p: ClubPatch, isURL: string -> bool)
    requires ClubsSound(clubs)
    ensures UpdateClub(clubs, members, user, id, p, isURL) != Failure(Rejected(ClubUpdateFailed))
    ensures UpdateClub(clubs, members, user, id, p, isURL).Success? ==>
      ClubsSound(clubs[id := UpdateClub(clubs, members, user, id, p, isURL).value])
  {
    var r := UpdateClub(clubs, members, user, id, p, isURL);
    if UpdateClubValidation(p, isURL) == [] && id in clubs && MayUseClub(user, id) {
      var c := clubs[id];
      var c' := PatchClub(c, p);
      if !(Renames(c, p) && NameInUse(clubs, p.name.value)) {
        assert c'.name != [];
        if Renames(c, p) {
          assert !ClubNameTaken(clubs, id, c'.name);
        } else {
          assert c'.name == c.name;
          assert !ClubNameTaken(clubs, id, c'.name);
        }
        assert ClubWriteError(clubs, id, c').None?;
        if r.Success? {
          ClubWriteKeepsNamesUnique(clubs, id, c');
        }
      }
    }
  }

  // ---------------------------------------------------------------------------
  // Reading and updating as a Member Admin
  // ---------------------------------------------------------------------------

  /** A Member Admin reads and updates exactly the club their token names;
      the other roles reach every club. */
  lemma MemberAdminOwnClub(clubs: map<Id, Club>, members: map<Id, Member>, user: User, id: Id,
                           p: ClubPatch, isURL: string -> bool)
    requires id in clubs && UpdateClubValidation(p, isURL) == []
    ensures user.adminType == MemberAdmin ==>
      (GetClub(clubs, user, id).Success? <==> user.clubId == Some(id))
    ensures user.adminType == MemberAdmin && user.clubId != Some(id) ==>
      UpdateClub(clubs, members, user, id, p, isURL) == Failure(Rejected(InsufficientPermissions))
    ensures user.adminType in ClubManagers ==> GetClub(clubs, user, id) == Success(clubs[id])
    ensures user.adminType !in ClubManagers && user.adminType != MemberAdmin ==>
      GetClub(clubs, user, id) == Failure(InsufficientPermissions)
  {
  }

  // ---------------------------------------------------------------------------
  // Delete
  // ---------------------------------------------------------------------------

  /** Deleting a club leaves no member of it, keeps every other member as it
      was, and keeps both tables exact and the names unique. */
  lemma DeleteCascade(clubs: map<Id, Club>, clubOrder: seq<Id>, members: map<Id, Member>, memberOrder: seq<Id>,
                      next: Id, user: Option<User>, id: Id)
    requires OrderedTable(clubs, clubOrder, next) && OrderedTable(members, memberOrder, next)
    requires ClubsSound(clubs) && EmailsUnique(members) && MembersOk(members)
    requires DeleteClub(clubs, user, id).None?
    ensures user.Some? && user.value.adminType in ClubManagers && id in clubs
    ensures var members' := Restrict(members, OutsideClub(members, id));
      && (forall m :: m in members' ==> members'[m].club != Some(id))
      && (forall m :: m in members && members[m].club != Some(id) ==> m in members' && members'[m] == members[m])
      && OrderedTable(members', Filter(memberOrder, OutsideClub(members, id)), next)
      && EmailsUnique(members') && MembersOk(members')
    ensures OrderedTable(clubs - {id}, Filter(clubOrder, (x: Id) => x != id), next)
    ensures ClubsSound(clubs - {id})
  {
    var keep := OutsideClub(members, id);
    OrderedTableKeep(members, memberOrder, next, keep);
    OrderedTableRemove(clubs, clubOrder, next, id);
  }
}
