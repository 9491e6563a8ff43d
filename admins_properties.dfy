/** What the admin registry promises: usernames stay unique and a member
    holds at most one admin role; only a System Admin gets through; an
    update touches only the role and the password; the password never shapes
    a response. */
module AdminProperties {
  import opened Wrappers
  import opened Models
  import opened Access
  import opened AdminRoutes

  predicate AdminsSound(admins: map<Id, Admin>) {
    UsernamesUnique(admins) && OneAdminPerMember(admins)
  }

  /** Every admin route turns away a missing identity with 401 and any role
      but System Admin with 403. */
  lemma ReservedToSystemAdmin(admins: map<Id, Admin>, members: map<Id, Member>, user: Option<User>,
                              id: Id, b: AdminBody, p: AdminPatch)
    requires user.None? || user.value.adminType != SystemAdmin
    ensures var e := if user.None? then NotAuthenticated else InsufficientPermissions;
      && ListAdmins(admins, user) == Failure(e)
      && GetAdmin(admins, user, id) == Failure(e)
      && CreateAdmin(admins, members, user, b) == Failure(Rejected(e))
      && UpdateAdmin(admins, user, id, p) == Failure(Rejected(e))
      && DeleteAdmin(admins, user, id) == Some(e)
  {
  }

  /** An admin is created only for an existing member without a role, under
      a fresh username, with a valid role and a password of at least six
      characters; and every such request is accepted. */
  lemma CreateAdminRule(admins: map<Id, Admin>, members: map<Id, Member>, user: Option<User>, b: AdminBody)
    requires user.Some? && user.value.adminType == SystemAdmin
    ensures CreateAdmin(admins, members, user, b).Success? <==>
      && CreateAdminValidation(b) == []
      && !UsernameInUse(admins, b.username)
      && b.member.value in members
      && !HasAdminRole(admins, b.member.value)
  {
  }

  /** Creating keeps usernames unique and one role per member. */
  lemma CreateKeepsAdminsSound(admins: map<Id, Admin>, members: map<Id, Member>, user: Option<User>, b: AdminBody, id: Id)
    requires AdminsSound(admins) && id !in admins
    requires CreateAdmin(admins, members, user, b).Success?
    ensures AdminsSound(admins[id := CreateAdmin(admins, members, user, b).value])
  {
    var a := CreateAdmin(admins, members, user, b).value;
    var admins' := admins[id := a];
    forall x, y | x in admins' && y in admins' && x != y
      ensures admins'[x].username != admins'[y].username && admins'[x].member != admins'[y].member
    {
      if x == id {
        assert !(y in admins && admins[y].username == a.username);
        assert !(y in admins && admins[y].member == a.member);
      } else if y == id {
        assert !(x in admins && admins[x].username == a.username);
        assert !(x in admins && admins[x].member == a.member);
      }
    }
  }

  /** An update keeps the username and the member and changes only what the
      body supplies; so it keeps the table sound. */
  lemma UpdateOnlySupplied(admins: map<Id, Admin>, user: Option<User>, id: Id, p: AdminPatch)
    requires UpdateAdmin(admins, user, id, p).Success?
    ensures var a, a' := admins[id], UpdateAdmin(admins, user, id, p).value;
      && a'.username == a.username && a'.member == a.member
      && a'.adminType == (if p.adminType.Some? then p.adminType.value else a.adminType)
      && a'.password == (if p.password.Some? then p.password.value else a.password)
    ensures AdminsSound(admins) ==> AdminsSound(admins[id := UpdateAdmin(admins, user, id, p).value])
  {
  }

  /** Two create requests that differ only in an acceptable password get
      the same answer: the password is never sent back. */
  lemma CreateResponseHidesPassword(admins: map<Id, Admin>, members: map<Id, Member>, user: Option<User>,
                                    b: AdminBody, password: string)
    requires |b.password| >= MinPasswordLength && |password| >= MinPasswordLength
    ensures CreateAdminResponse(admins, members, user, b) == CreateAdminResponse(admins, members, user, b.(password := password))
  {
    var b' := b.(password := password);
    assert CreateAdminValidation(b) == CreateAdminValidation(b');
  }

  /** Reading an admin back gives the same view whatever its password. */
  lemma GetHidesPassword(admins: map<Id, Admin>, user: Option<User>, id: Id, password: string)
    requires id in admins
    ensures GetAdmin(admins, user, id) == GetAdmin(admins[id := admins[id].(password := password)], user, id)
  {
  }
}
