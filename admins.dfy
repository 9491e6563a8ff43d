/** The admin registry, server/routes/admins.js: every route is reserved
    to a System Admin; an admin role is given to an existing member under a
    username no admin has, at most one role per member; an update changes
    only the role and the password; no response carries the password. */
module AdminRoutes {
  import opened Wrappers
  import opened Models
  import opened Store
  import opened Access

  const AdminNotFound: ApiError := ApiError(404, "Admin not found")
  const UsernameExists: ApiError := ApiError(400, "Username already exists")
  const AdminMemberNotFound: ApiError := ApiError(400, "Member not found")
  const MemberAlreadyAdmin: ApiError := ApiError(400, "Member already has an admin role")

  /** The roles `isIn` accepts for `adminType`. */
  const AdminTypes: seq<string> := [SystemAdmin, ClubAdmin, MemberAdmin]

  const MinPasswordLength: nat := 6

  /** An admin as the routes send it back: everything but the password. */
  datatype AdminView = AdminView(username: string, adminType: string, member: Id)

  function View(a: Admin): (v: AdminView)
    ensures v.username == a.username && v.adminType == a.adminType && v.member == a.member
  {
    AdminView(a.username, a.adminType, a.member)
  }

  /** No two admins share a username. */
  predicate UsernamesUnique(admins: map<Id, Admin>) {
    forall a, b :: a in admins && b in admins && a != b ==> admins[a].username != admins[b].username
  }

  /** No member holds two admin roles. */
  predicate OneAdminPerMember(admins: map<Id, Admin>) {
    forall a, b :: a in admins && b in admins && a != b ==> admins[a].member != admins[b].member
  }

  /** `Admin.findOne({ username })` finds an admin. */
  predicate UsernameInUse(admins: map<Id, Admin>, username: string) {
    exists o :: o in admins && admins[o].username == username
  }

  /** `Admin.findOne({ member })` finds an admin. */
  predicate HasAdminRole(admins: map<Id, Admin>, member: Id) {
    exists o :: o in admins && admins[o].member == member
  }

  // ---------------------------------------------------------------------------
  // GET / and GET /:id
  // ---------------------------------------------------------------------------

  function ListAdmins(admins: map<Id, Admin>, user: Option<User>): Result<map<Id, AdminView>, ApiError> {
    var gate := CheckRole(AdminManagers, user);
    if gate.Deny? then Failure(gate.error)
    else Success(map id | id in admins :: View(admins[id]))
  }

  function GetAdmin(admins: map<Id, Admin>, user: Option<User>, id: Id): Result<AdminView, ApiError> {
    var gate := CheckRole(AdminManagers, user);
    if gate.Deny? then Failure(gate.error)
    else if id !in admins then Failure(AdminNotFound)
    else Success(View(admins[id]))
  }

  // ---------------------------------------------------------------------------
  // POST /
  // ---------------------------------------------------------------------------

  /** A create body after the validators: `username` trimmed, an absent text
      empty, `member` none when absent. */
  datatype AdminBody = AdminBody(username: string, password: string, adminType: string, member: Option<Id>)

  function CreateAdminValidation(b: AdminBody): (msgs: seq<string>)
    ensures msgs == [] <==>
      b.username != [] && |b.password| >= MinPasswordLength && b.adminType in AdminTypes && b.member.Some?
  {
    (if b.username == [] then ["Username required"] else [])
    + (if |b.password| < MinPasswordLength then ["Password must be at least 6 characters"] else [])
    + (if b.adminType !in AdminTypes then ["Invalid admin type"] else [])
    + (if b.member.None? then ["Valid member ID required"] else [])
  }

  /** What the create handler stores, or why it refuses. */
  function CreateAdmin(admins: map<Id, Admin>, members: map<Id, Member>, user: Option<User>, b: AdminBody): Result<Admin, Refusal> {
    var gate := CheckRole(AdminManagers, user);
    var invalid := CreateAdminValidation(b);
    if gate.Deny? then Failure(Rejected(gate.error))
    else if invalid != [] then Failure(Invalid(invalid))
    else if UsernameInUse(admins, b.username) then Failure(Rejected(UsernameExists))
    else if b.member.value !in members then Failure(Rejected(AdminMemberNotFound))
    else if HasAdminRole(admins, b.member.value) then Failure(Rejected(MemberAlreadyAdmin))
    else Success(Admin(b.username, b.password, b.adminType, b.member.value))
  }

  /** What the create handler sends back: the stored admin without its
      password. */
  function CreateAdminResponse(admins: map<Id, Admin>, members: map<Id, Member>, user: Option<User>, b: AdminBody): Result<AdminView, Refusal> {
    var r := CreateAdmin(admins, members, user, b);
    if r.Success? then Success(View(r.value)) else Failure(r.error)
  }

  // ---------------------------------------------------------------------------
  // PUT /:id
  // ---------------------------------------------------------------------------

  datatype AdminPatch = AdminPatch(adminType: Option<string>, password: Option<string>)

  function UpdateAdminValidation(p: AdminPatch): (msgs: seq<string>)
    ensures msgs == [] <==>
      (p.adminType.Some? ==> p.adminType.value in AdminTypes) && (p.password.Some? ==> |p.password.value| >= MinPasswordLength)
  {
    (if p.adminType.Some? && p.adminType.value !in AdminTypes then ["Invalid admin type"] else [])
    + (if p.password.Some? && |p.password.value| < MinPasswordLength then ["Password must be at least 6 characters"] else [])
  }

  /** What the update handler stores back under `id`, or why it refuses. */
  function UpdateAdmin(admins: map<Id, Admin>, user: Option<User>, id: Id, p: AdminPatch): Result<Admin, Refusal> {
    var gate := CheckRole(AdminManagers, user);
    var invalid := UpdateAdminValidation(p);
    if gate.Deny? then Failure(Rejected(gate.error))
    else if invalid != [] then Failure(Invalid(invalid))
    else if id !in admins then Failure(Rejected(AdminNotFound))
    else
      var a := admins[id];
      Success(a.(adminType := p.adminType.GetOr(a.adminType), password := p.password.GetOr(a.password)))
  }

  // ---------------------------------------------------------------------------
  // DELETE /:id
  // ---------------------------------------------------------------------------

  function DeleteAdmin(admins: map<Id, Admin>, user: Option<User>, id: Id): Option<ApiError> {
    var gate := CheckRole(AdminManagers, user);
    if gate.Deny? then Some(gate.error)
    else if id !in admins then Some(AdminNotFound)
    else None
  }

  // ---------------------------------------------------------------------------
  // The handlers over the database
  // ---------------------------------------------------------------------------

  method CreateAdminM(db: Database, user: Option<User>, b: AdminBody) returns (r: Result<AdminView, Refusal>)
    modifies db`admins, db`nextId
    ensures r == CreateAdminResponse(old(db.admins), db.members, user, b)
    ensures r.Success? ==>
      db.admins == old(db.admins)[old(db.nextId) := CreateAdmin(old(db.admins), db.members, user, b).value]
      && db.nextId == old(db.nextId) + 1
    ensures r.Failure? ==> db.admins == old(db.admins) && db.nextId == old(db.nextId)
  {
    var gate := CheckRole(AdminManagers, user);
    if gate.Deny? {
      return Failure(Rejected(gate.error));
    }
    var invalid := CreateAdminValidation(b);
    if invalid != [] {
      return Failure(Invalid(invalid));
    }
    if UsernameInUse(db.admins, b.username) {
      return Failure(Rejected(UsernameExists));
    }
    var member := b.member.value;
    if member !in db.members {
      return Failure(Rejected(AdminMemberNotFound));
    }
    if HasAdminRole(db.admins, member) {
      return Failure(Rejected(MemberAlreadyAdmin));
    }
    var admin := Admin(b.username, b.password, b.adminType, member);
    db.admins := db.admins[db.nextId := admin];
    db.nextId := db.nextId + 1;
    return Success(View(admin));
  }

  method UpdateAdminM(db: Database, user: Option<User>, id: Id, p: AdminPatch) returns (r: Result<AdminView, Refusal>)
    modifies db`admins
    ensures var u := UpdateAdmin(old(db.admins), user, id, p);
      && (u.Success? ==> r == Success(View(u.value)) && db.admins == old(db.admins)[id := u.value])
      && (u.Failure? ==> r == Failure(u.error) && db.admins == old(db.admins))
  {
    var gate := CheckRole(AdminManagers, user);
    if gate.Deny? {
      return Failure(Rejected(gate.error));
    }
    var invalid := UpdateAdminValidation(p);
    if invalid != [] {
      return Failure(Invalid(invalid));
    }
    if id !in db.admins {
      return Failure(Rejected(AdminNotFound));
    }
    var admin := db.admins[id];
    if p.adminType.Some? {
      admin := admin.(adminType := p.adminType.value);
    }
    if p.password.Some? {
      admin := admin.(password := p.password.value);
    }
    db.admins := db.admins[id := admin];
    return Success(View(admin));
  }

  method DeleteAdminM(db: Database, user: Option<User>, id: Id) returns (err: Option<ApiError>)
    modifies db`admins
    ensures err == DeleteAdmin(old(db.admins), user, id)
    ensures db.admins == if err.None? then old(db.admins) - {id} else old(db.admins)
  {
    err := DeleteAdmin(db.admins, user, id);
    if err.None? {
      db.admins := db.admins - {id};
    }
  }
}
