/** The club registry, server/routes/clubs.js: listing and reading clubs,
    creating a club with a unique name and an existing member admin,
    updating only the supplied fields, and deleting a club together with
    its members. The decisions are functions; the handlers over the
    database are methods proved to follow them. Names and locations are
    taken after the validators' `trim()`, an absent optional text being the
    empty string; the home page, status and member admin are as sent. */
module ClubRoutes {
  import opened Wrappers
  import opened Models
  import opened Store
  import opened ImportSpec
  import opened Tables
  import opened Access
  import opened Text

  const NoSuchClub: ApiError := ApiError(404, "Club not found")
  const ClubNameExists: ApiError := ApiError(400, "Club name already exists")
  const AdminMemberMissing: ApiError := ApiError(400, "Member not found")
  const ClubCreateFailed: ApiError := ApiError(500, "Failed to create club")
  const ClubUpdateFailed: ApiError := ApiError(500, "Failed to update club")

  /** `Club.findOne({ name })` finds a club. */
  predicate NameInUse(clubs: map<Id, Club>, name: string) {
    exists o :: o in clubs && clubs[o].name == name
  }

  /** `body('status').optional().isIn(['Active', 'Inactive'])`: `optional()`
      skips only an absent field, so null fails like any other text. */
  predicate StatusOk(status: Body<string>) {
    status.Absent? || status == Given("Active") || status == Given("Inactive")
  }

  /** The stored status for a validated body value, `Active` when absent. */
  function StatusOf(status: Body<string>): (s: ClubStatus)
    ensures StatusOk(status) && status.Given? ==> s.Name() == status.value
    ensures status.Absent? ==> s == ClubActive
  {
    if status == Given("Inactive") then ClubInactive else ClubActive
  }

  /** `optional({ checkFalsy: true }).trim().isURL()` on the home page as
      sent: an empty one is skipped; any other must be a URL once trimmed,
      so a blank one is refused. */
  predicate HomePageOk(homePage: string, isURL: string -> bool) {
    homePage == [] || isURL(Trim(homePage))
  }

  /** `body('memberAdmin').optional().isMongoId()`: null is refused. */
  function AdminValidation(memberAdmin: Body<Id>): seq<string> {
    if memberAdmin.Null? then ["Invalid member ID"] else []
  }

  // ---------------------------------------------------------------------------
  // GET / and GET /:id
  // ---------------------------------------------------------------------------

  /** The list, in stored order, for the roles `checkRole` lets through. */
  function ListClubs(order: seq<Id>, user: Option<User>): Result<seq<Id>, ApiError> {
    var gate := CheckRole(ClubManagers, user);
    if gate.Deny? then Failure(gate.error) else Success(order)
  }

  function GetClub(clubs: map<Id, Club>, user: User, id: Id): Result<Club, ApiError> {
    if id !in clubs then Failure(NoSuchClub)
    else if !MayUseClub(user, id) then Failure(InsufficientPermissions)
    else Success(clubs[id])
  }

  // ---------------------------------------------------------------------------
  // POST /
  // ---------------------------------------------------------------------------

  /** A create body: the home page is empty when absent, null or empty. */
  datatype ClubBody = ClubBody(
    name: string,
    location: string,
    homePage: string,
    status: Body<string>,
    memberAdmin: Body<Id>)

  /** The create validators' messages, in the order of the chain. */
  function CreateClubValidation(b: ClubBody, isURL: string -> bool): (msgs: seq<string>)
    ensures msgs == [] <==>
      b.name != [] && HomePageOk(b.homePage, isURL) && StatusOk(b.status) && !b.memberAdmin.Null?
  {
    (if b.name == [] then ["Club name required"] else [])
    + (if !HomePageOk(b.homePage, isURL) then ["Invalid URL"] else [])
    + (if !StatusOk(b.status) then ["Invalid status"] else [])
    + AdminValidation(b.memberAdmin)
  }

  /** `new Club({ name, location: location || '', homePage: homePage || '',
      status: status || 'Active', memberAdmin: memberAdmin || null })`, the
      home page trimmed by the validator. */
  function NewClubDoc(b: ClubBody): Club {
    Club(b.name, "", "", b.location, Trim(b.homePage), StatusOf(b.status),
         if b.memberAdmin.Given? then Some(b.memberAdmin.value) else None)
  }

  /** What the create handler answers: the club it stores under `id`, or
      why it refuses. */
  function CreateClub(clubs: map<Id, Club>, members: map<Id, Member>, id: Id, user: Option<User>,
                      b: ClubBody, isURL: string -> bool): Result<Club, Refusal>
  {
    var gate := CheckRole(ClubManagers, user);
    var invalid := CreateClubValidation(b, isURL);
    var doc := NewClubDoc(b);
    if gate.Deny? then Failure(Rejected(gate.error))
    else if invalid != [] then Failure(Invalid(invalid))
    else if NameInUse(clubs, b.name) then Failure(Rejected(ClubNameExists))
    else if b.memberAdmin.Given? && b.memberAdmin.value !in members then Failure(Rejected(AdminMemberMissing))
    else if ClubWriteError(clubs, id, doc).Some? then Failure(Rejected(ClubCreateFailed))
    else Success(doc)
  }

  // ---------------------------------------------------------------------------
  // PUT /:id
  // ---------------------------------------------------------------------------

  /** An update body: the name and location absent or given, after
      `trim()`; the home page, status and member admin absent, null or
      given as sent. */
  datatype ClubPatch = ClubPatch(
    name: Option<string>,
    location: Option<string>,
    homePage: Body<string>,
    status: Body<string>,
    memberAdmin: Body<Id>)

  /** The messages of the validators other than the member admin's. */
  function FieldValidation(p: ClubPatch, isURL: string -> bool): (msgs: seq<string>)
    ensures msgs == [] <==>
      (p.name.Some? ==> p.name.value != []) && (p.homePage.Given? ==> HomePageOk(p.homePage.value, isURL)) && StatusOk(p.status)
  {
    (if p.name.Some? && p.name.value == [] then ["Club name cannot be empty"] else [])
    + (if p.homePage.Given? && !HomePageOk(p.homePage.value, isURL) then ["Invalid URL"] else [])
    + (if !StatusOk(p.status) then ["Invalid status"] else [])
  }

  /** The update validators' messages, in the order of the chain. */
  function UpdateClubValidation(p: ClubPatch, isURL: string -> bool): (msgs: seq<string>)
    ensures msgs == [] <==>
      && (p.name.Some? ==> p.name.value != []) && (p.homePage.Given? ==> HomePageOk(p.homePage.value, isURL))
      && StatusOk(p.status) && !p.memberAdmin.Null?
  {
    FieldValidation(p, isURL) + AdminValidation(p.memberAdmin)
  }

  /** `name && name !== club.name`: the body asks for a different name. */
  predicate Renames(c: Club, p: ClubPatch) {
    p.name.Some? && p.name.value != [] && p.name.value != c.name
  }

  /** The club after the handler's assignments. */
  function PatchClub(c: Club, p: ClubPatch): Club {
    c.(name := if Renames(c, p) then p.name.value else c.name,
       location := p.location.GetOr(c.location),
       homePage := match p.homePage
                   case Absent => c.homePage
                   case Null => []
                   case Given(h) => Trim(h),
       status := if p.status.Given? then StatusOf(p.status) else c.status,
       memberAdmin := match p.memberAdmin
                      case Absent => c.memberAdmin
                      case Null => None
                      case Given(m) => Some(m))
  }

  /** What the update handler answers: the club it stores back under `id`,
      or why it refuses. */
  function UpdateClub(clubs: map<Id, Club>, members: map<Id, Member>, user: User, id: Id,
                      p: ClubPatch, isURL: string -> bool): Result<Club, Refusal>
  {
    UpdateAfterValidation(clubs, members, user, id, p, UpdateClubValidation(p, isURL))
  }

  /** The update with `optional({ nullable: true })` on `memberAdmin`, under
      which a null member admin reaches the handler's branch that clears
      it (see ClubProperties.NullAdminRefused). */
  function UpdateClubNullable(clubs: map<Id, Club>, members: map<Id, Member>, user: User, id: Id,
                              p: ClubPatch, isURL: string -> bool): Result<Club, Refusal>
  {
    UpdateAfterValidation(clubs, members, user, id, p, FieldValidation(p, isURL))
  }

  /** The handler after the validators produced `invalid`. */
  function UpdateAfterValidation(clubs: map<Id, Club>, members: map<Id, Member>, user: User, id: Id,
                                 p: ClubPatch, invalid: seq<string>): Result<Club, Refusal>
  {
    if invalid != [] then Failure(Invalid(invalid))
    else if id !in clubs then Failure(Rejected(NoSuchClub))
    else if !MayUseClub(user, id) then Failure(Rejected(InsufficientPermissions))
    else
      var c := clubs[id];
      var c' := PatchClub(c, p);
      if Renames(c, p) && NameInUse(clubs, p.name.value) then Failure(Rejected(ClubNameExists))
      else if p.memberAdmin.Given? && p.memberAdmin.value !in members then Failure(Rejected(AdminMemberMissing))
      else if ClubWriteError(clubs, id, c').Some? then Failure(Rejected(ClubUpdateFailed))
      else Success(c')
  }

  // ---------------------------------------------------------------------------
  // DELETE /:id
  // ---------------------------------------------------------------------------

  function DeleteClub(clubs: map<Id, Club>, user: Option<User>, id: Id): Option<ApiError> {
    var gate := CheckRole(ClubManagers, user);
    if gate.Deny? then Some(gate.error)
    else if id !in clubs then Some(NoSuchClub)
    else None
  }

  /** The members `Member.deleteMany({ club: id })` leaves in place. */
  function OutsideClub(members: map<Id, Member>, club: Id): Id -> bool {
    (x: Id) => !(x in members && members[x].club == Some(club))
  }

  // ---------------------------------------------------------------------------
  // The handlers over the database
  // ---------------------------------------------------------------------------

  method CreateClubM(db: Database, user: Option<User>, b: ClubBody, isURL: string -> bool)
    returns (r: Result<Club, Refusal>)
    modifies db`clubs, db`clubOrder, db`nextId
    ensures r == CreateClub(old(db.clubs), db.members, old(db.nextId), user, b, isURL)
    ensures r.Success? ==> db.clubs == old(db.clubs)[old(db.nextId) := r.value]
    ensures r.Success? ==> db.clubOrder == old(db.clubOrder) + [old(db.nextId)] && db.nextId == old(db.nextId) + 1
    ensures r.Failure? ==> db.clubs == old(db.clubs) && db.clubOrder == old(db.clubOrder) && db.nextId == old(db.nextId)
  {
    var gate := CheckRole(ClubManagers, user);
    if gate.Deny? {
      return Failure(Rejected(gate.error));
    }
    var invalid := CreateClubValidation(b, isURL);
    if invalid != [] {
      return Failure(Invalid(invalid));
    }
    if NameInUse(db.clubs, b.name) {
      return Failure(Rejected(ClubNameExists));
    }
    if b.memberAdmin.Given? && b.memberAdmin.value !in db.members {
      return Failure(Rejected(AdminMemberMissing));
    }
    var club := NewClubDoc(b);
    var id := db.nextId;
    if ClubWriteError(db.clubs, id, club).Some? {
      return Failure(Rejected(ClubCreateFailed));
    }
    db.clubs := db.clubs[id := club];
    db.clubOrder := db.clubOrder + [id];
    db.nextId := id + 1;
    return Success(club);
  }

  /** The handler's assignments on the loaded club, in its order. */
  method ApplyClubPatch(c: Club, p: ClubPatch) returns (club: Club)
    ensures club == PatchClub(c, p)
  {
    club := c;
    if p.name.Some? && p.name.value != [] && p.name.value != club.name {
      club := club.(name := p.name.value);
    }
    if p.location.Some? {
      club := club.(location := p.location.value);
    }
    if p.homePage.Null? {
      club := club.(homePage := []);
    } else if p.homePage.Given? {
      club := club.(homePage := Trim(p.homePage.value));
    }
    if p.status.Given? {
      club := club.(status := StatusOf(p.status));
    }
    if p.memberAdmin.Null? {
      club := club.(memberAdmin := None);
    } else if p.memberAdmin.Given? {
      club := club.(memberAdmin := Some(p.memberAdmin.value));
    }
  }

  method UpdateClubM(db: Database, user: User, id: Id, p: ClubPatch, isURL: string -> bool)
    returns (r: Result<Club, Refusal>)
    modifies db`clubs
    ensures r == UpdateClub(old(db.clubs), db.members, user, id, p, isURL)
    ensures db.clubs == if r.Success? then old(db.clubs)[id := r.value] else old(db.clubs)
  {
    var invalid := UpdateClubValidation(p, isURL);
    if invalid != [] {
      return Failure(Invalid(invalid));
    }
    if id !in db.clubs {
      return Failure(Rejected(NoSuchClub));
    }
    var c := db.clubs[id];
    if !MayUseClub(user, id) {
      return Failure(Rejected(InsufficientPermissions));
    }
    if Renames(c, p) && NameInUse(db.clubs, p.name.value) {
      return Failure(Rejected(ClubNameExists));
    }
    if p.memberAdmin.Given? && p.memberAdmin.value !in db.members {
      return Failure(Rejected(AdminMemberMissing));
    }
    var club := ApplyClubPatch(c, p);
    if ClubWriteError(db.clubs, id, club).Some? {
      return Failure(Rejected(ClubUpdateFailed));
    }
    db.clubs := db.clubs[id := club];
    return Success(club);
  }

  /** `Club.findByIdAndDelete`, then `Member.deleteMany({ club: id })`. */
  method DeleteClubM(db: Database, user: Option<User>, id: Id) returns (err: Option<ApiError>)
    modifies db`clubs, db`clubOrder, db`members, db`memberOrder
    ensures err == DeleteClub(old(db.clubs), user, id)
    ensures err.None? ==> db.clubs == old(db.clubs) - {id} && db.clubOrder == Filter(old(db.clubOrder), (x: Id) => x != id)
    ensures err.None? ==> db.members == Restrict(old(db.members), OutsideClub(old(db.members), id))
    ensures err.None? ==> db.memberOrder == Filter(old(db.memberOrder), OutsideClub(old(db.members), id))
    ensures err.Some? ==> db.clubs == old(db.clubs) && db.clubOrder == old(db.clubOrder)
    ensures err.Some? ==> db.members == old(db.members) && db.memberOrder == old(db.memberOrder)
  {
    var gate := CheckRole(ClubManagers, user);
    if gate.Deny? {
      return Some(gate.error);
    }
    if id !in db.clubs {
      return Some(NoSuchClub);
    }
    db.clubs := db.clubs - {id};
    db.clubOrder := Filter(db.clubOrder, (x: Id) => x != id);
    var keep := OutsideClub(db.members, id);
    db.members := Restrict(db.members, keep);
    db.memberOrder := Filter(db.memberOrder, keep);
    return None;
  }
}
