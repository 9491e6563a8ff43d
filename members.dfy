/** The member routes of server/routes/members.js: the Dec 31 expiration rule,
    who may see and change which member, and the list, read, create, update
    and delete handlers over the member table. Each request body is the one
    the handler sees after express-validator has trimmed and converted it;
    the validators' own messages are modelled, including the refusal of a
    null or unlisted phone type, membership type and club; the e-mail
    syntax check (`isEmail`) is a parameter. */
module MemberRoutes {
  import opened Wrappers
  import opened Text
  import opened Models
  import opened Store
  import opened Dates
  import opened ImportSpec
  import opened Access

  // ---------------------------------------------------------------------------
  // The Dec 31 rule (computeDec31Iso)
  // ---------------------------------------------------------------------------

  /** The cut-off day of the year from which new members get the next year's
      Dec 31 (`NEW_MEMBER_CUTOFF_MONTH` / `NEW_MEMBER_CUTOFF_DAY`). */
  datatype Cutoff = Cutoff(month: nat, day: nat)

  const DefaultCutoff: Cutoff := Cutoff(10, 30)

  /** `refDate < new Date(year, cutoffMonth - 1, cutoffDay)`: the reference
      time lies before midnight starting the cut-off day of its own year. */
  predicate BeforeCutoff(ref: Date, cutoff: Cutoff) {
    ref.month < cutoff.month || (ref.month == cutoff.month && ref.day < cutoff.day)
  }

  /** The year whose Dec 31 is offered: the reference year before the
      cut-off, the next one from it on. */
  function DecYear(ref: Date, cutoff: Cutoff): (y: nat)
    ensures y == ref.year || y == ref.year + 1
  {
    if BeforeCutoff(ref, cutoff) then ref.year else ref.year + 1
  }

  /** `computeDec31Iso(ref, month, day)`: `${decYear}-12-31`. */
  function Dec31Iso(ref: Date, cutoff: Cutoff): string {
    NatToString(DecYear(ref, cutoff)) + "-12-31"
  }

  /** The day text of a stored date, `String(date).split('T')[0]`, where
      `render` is the runtime's `String(date)`. */
  function DayText(d: Date, render: Date -> string): string {
    BeforeFirst(render(d), 'T')
  }

  /** The date the handlers store for an expiration text: its part before
      'T', read as a local calendar day. */
  function StoredExpiration(s: string): Option<Date> {
    LocalMidnight(BeforeFirst(s, 'T'))
  }

  // ---------------------------------------------------------------------------
  // Authorization
  // ---------------------------------------------------------------------------

  /** `isAuthorized` of the read, update and delete handlers: a System or
      Club Admin, or a Member Admin of the member's own club. */
  predicate MayAccessMember(user: User, m: Member) {
    || user.adminType == SystemAdmin
    || user.adminType == ClubAdmin
    || (user.adminType == MemberAdmin && m.club.Some? && Some(m.club.value) == user.clubId)
  }

  /** `Member.findOne({ email })` finds someone. */
  predicate EmailInUse(members: map<Id, Member>, email: string) {
    exists o :: o in members && members[o].email == email
  }

  // ---------------------------------------------------------------------------
  // Responses
  // ---------------------------------------------------------------------------

  const MemberNotFound: ApiError := ApiError(404, "Member not found")
  const ClubNotFound: ApiError := ApiError(400, "Club not found")
  const EmailExists: ApiError := ApiError(400, "Email already exists")
  const NotAllowedDec31: ApiError := ApiError(400, "membershipExpiration must be the allowed Dec 31 date")
  const ExpirationCleared: ApiError := ApiError(400, "membershipExpiration cannot be cleared")
  const NotAllowedExpiration: ApiError :=
    ApiError(400, "membershipExpiration must be either the existing expiration or the allowed Dec 31 date")
  const CreateFailed: ApiError := ApiError(500, "Failed to create member")
  const UpdateFailed: ApiError := ApiError(500, "Failed to update member")

  // ---------------------------------------------------------------------------
  // GET / and GET /:id
  // ---------------------------------------------------------------------------

  predicate InClub(members: map<Id, Member>, club: Option<Id>, id: Id) {
    id in members && members[id].club == club
  }

  /** `Member.find(query)`: a Member Admin's query is narrowed to the club of
      their token, everyone else's lists all members, in stored order. */
  function ListMembers(members: map<Id, Member>, order: seq<Id>, user: User): seq<Id> {
    if user.adminType == MemberAdmin then Filter(order, (id: Id) => InClub(members, user.clubId, id)) else order
  }

  function GetMember(members: map<Id, Member>, user: User, id: Id): Result<Member, ApiError> {
    if id !in members then Failure(MemberNotFound)
    else if !MayAccessMember(user, members[id]) then Failure(InsufficientPermissions)
    else Success(members[id])
  }

  // ---------------------------------------------------------------------------
  // The choice validators
  // ---------------------------------------------------------------------------

  /** The phone type whose name is exactly `s`, as `isIn(['Home', 'Cell',
      'Work'])` accepts it. */
  function PhoneTypeNamed(s: string): (t: Option<PhoneType>)
    ensures t.Some? ==> t.value.Name() == s
    ensures forall k: PhoneType :: k.Name() == s ==> t == Some(k)
  {
    if s == "Home" then Some(Home) else if s == "Cell" then Some(Cell) else if s == "Work" then Some(Work) else None
  }

  /** The membership type whose name is exactly `s`, as `isIn(['Full',
      'Associate', 'Honorary', 'Inactive'])` accepts it. */
  function MembershipTypeNamed(s: string): (t: Option<MembershipType>)
    ensures t.Some? ==> t.value.Name() == s
    ensures forall k: MembershipType :: k.Name() == s ==> t == Some(k)
  {
    if s == "Full" then Some(Full) else if s == "Associate" then Some(Associate)
    else if s == "Honorary" then Some(Honorary) else if s == "Inactive" then Some(Inactive) else None
  }

  /** `optional().isIn(list)` fails: `optional()` skips only an absent
      field, so null fails like any text outside the list. */
  predicate ChoiceInvalid<T>(given: Body<string>, named: string -> Option<T>) {
    given.Null? || (given.Given? && named(given.value).None?)
  }

  /** The choice a body names; none when it names nothing. */
  function Chosen<T>(given: Body<string>, named: string -> Option<T>): Option<T> {
    if given.Given? then named(given.value) else None
  }

  /** The choice validators' messages, in the order of the validator list:
      phone type, membership type, then `club`, whose `isMongoId()` also
      fails on null. */
  function ChoiceValidation(phoneType: Body<string>, membershipType: Body<string>, club: Body<Id>): seq<string> {
    (if ChoiceInvalid(phoneType, PhoneTypeNamed) then ["Invalid phone type"] else [])
    + (if ChoiceInvalid(membershipType, MembershipTypeNamed) then ["Invalid membership type"] else [])
    + (if club.Null? then ["Valid club ID"] else [])
  }

  // ---------------------------------------------------------------------------
  // POST /
  // ---------------------------------------------------------------------------

  /** A create body after the sanitisers: absent texts are empty, an absent
      `deceased` is false, and `membershipExpiration` is empty when absent,
      null or empty; the phone type, membership type and club are as sent. */
  datatype MemberBody = MemberBody(
    firstName: string,
    lastName: string,
    email: string,
    phone: string,
    streetAddress: string,
    address2: string,
    city: string,
    state: string,
    zip: string,
    prefix: string,
    middleName: string,
    badgeNickname: string,
    suffix: string,
    phoneType: Body<string>,
    occupation: string,
    employer: string,
    deceased: bool,
    membershipType: Body<string>,
    membershipExpiration: string,
    club: Body<Id>)

  /** The create validators' messages, in their order. */
  function CreateValidation(req: MemberBody, isEmail: string -> bool): seq<string> {
    (if req.firstName == [] then ["First name required"] else [])
    + (if req.lastName == [] then ["Last name required"] else [])
    + (if !isEmail(req.email) then ["Valid email required"] else [])
    + ChoiceValidation(req.phoneType, req.membershipType, req.club)
  }

  /** The document `new Member({...})` builds, with its defaults. */
  function NewMemberDoc(req: MemberBody): Member {
    Member(
      nfrwContactId := "",
      prefix := req.prefix,
      firstName := req.firstName,
      middleName := req.middleName,
      lastName := req.lastName,
      badgeNickname := req.badgeNickname,
      suffix := req.suffix,
      streetAddress := req.streetAddress,
      address2 := req.address2,
      city := req.city,
      state := req.state,
      zip := req.zip,
      phone := req.phone,
      phoneNormalized := "",
      phoneType := Chosen(req.phoneType, PhoneTypeNamed),
      email := req.email,
      membershipType := Chosen(req.membershipType, MembershipTypeNamed).GetOr(Full),
      membershipExpiration := if req.membershipExpiration != [] then StoredExpiration(req.membershipExpiration) else None,
      associatePrimaryMember := "",
      gender := "",
      occupation := req.occupation,
      employer := req.employer,
      dateOfBirth := None,
      deceased := Some(req.deceased),
      club := if req.club.Given? then Some(req.club.value) else None)
  }

  /** `save()` throws: an expiration was given but reads as an invalid
      date, or the schema refuses the document. */
  predicate SaveRefused(members: map<Id, Member>, id: Id, doc: Member, expirationGiven: bool) {
    (expirationGiven && doc.membershipExpiration.None?) || MemberWriteError(members, id, doc).Some?
  }

  /** The create handler's checks before it builds the document: the
      validators, the offered Dec 31, the caller's right to the club, the
      club's existence and the email's. */
  function CreateRefusal(members: map<Id, Member>, clubs: map<Id, Club>, user: User, req: MemberBody,
                         now: Date, cutoff: Cutoff, isEmail: string -> bool): Option<Refusal>
  {
    var invalid := CreateValidation(req, isEmail);
    if invalid != [] then Some(Invalid(invalid))
    else if req.membershipExpiration != [] && BeforeFirst(req.membershipExpiration, 'T') != Dec31Iso(now, cutoff) then
      Some(Rejected(NotAllowedDec31))
    else if req.club.Given? && !MayUseClub(user, req.club.value) then Some(Rejected(InsufficientPermissions))
    else if req.club.Given? && req.club.value !in clubs then Some(Rejected(ClubNotFound))
    else if EmailInUse(members, req.email) then Some(Rejected(EmailExists))
    else None
  }

  /** What the create handler answers: the member it stores under `id`, or
      why it refuses. An expiration text that is no calendar day becomes an
      invalid date, which the save rejects. */
  function CreateMember(members: map<Id, Member>, clubs: map<Id, Club>, id: Id, user: User, req: MemberBody,
                        now: Date, cutoff: Cutoff, isEmail: string -> bool): Result<Member, Refusal>
  {
    var refusal := CreateRefusal(members, clubs, user, req, now, cutoff, isEmail);
    var doc := NewMemberDoc(req);
    if refusal.Some? then Failure(refusal.value)
    else if SaveRefused(members, id, doc, req.membershipExpiration != []) then Failure(Rejected(CreateFailed))
    else Success(doc)
  }

  // ---------------------------------------------------------------------------
  // PUT /:id
  // ---------------------------------------------------------------------------

  /** An update body after the sanitisers: `None` for an absent field; the
      phone type, membership type, expiration and club as sent. */
  datatype MemberPatch = MemberPatch(
    firstName: Option<string>,
    lastName: Option<string>,
    email: Option<string>,
    phone: Option<string>,
    streetAddress: Option<string>,
    address2: Option<string>,
    city: Option<string>,
    state: Option<string>,
    zip: Option<string>,
    prefix: Option<string>,
    middleName: Option<string>,
    badgeNickname: Option<string>,
    suffix: Option<string>,
    phoneType: Body<string>,
    occupation: Option<string>,
    employer: Option<string>,
    deceased: Option<bool>,
    membershipType: Body<string>,
    membershipExpiration: Body<string>,
    club: Body<Id>)

  /** The update validators' messages, in their order. */
  function UpdateValidation(p: MemberPatch, isEmail: string -> bool): seq<string> {
    (if p.firstName == Some([]) then ["First name cannot be empty"] else [])
    + (if p.lastName == Some([]) then ["Last name cannot be empty"] else [])
    + (if p.email.Some? && !isEmail(p.email.value) then ["Valid email required"] else [])
    + ChoiceValidation(p.phoneType, p.membershipType, p.club)
  }

  /** The expiration check of the update handler: absent passes; null or
      empty is refused; otherwise the day part, when not empty, must be the
      offered Dec 31 or the day of the stored expiration. */
  function ExpirationCheck(given: Body<string>, stored: Option<Date>, decIso: string, render: Date -> string): Option<ApiError> {
    match given
    case Absent => None
    case Null => Some(ExpirationCleared)
    case Given(s) =>
      if s == [] then Some(ExpirationCleared)
      else
        var provided := BeforeFirst(s, 'T');
        var existing := if stored.Some? then DayText(stored.value, render) else [];
        if provided != [] && provided != decIso && (existing == [] || provided != existing) then Some(NotAllowedExpiration)
        else None
  }

  function Supplied<T>(current: T, given: Option<T>): T {
    if given.Some? then given.value else current
  }

  /** The member after the handler's assignments: every supplied field
      replaces the stored one, the email only when it is a different one. */
  function PatchMember(m: Member, p: MemberPatch): Member {
    m.(
      email := if p.email.Some? && p.email.value != [] && p.email.value != m.email then p.email.value else m.email,
      firstName := Supplied(m.firstName, p.firstName),
      lastName := Supplied(m.lastName, p.lastName),
      phone := Supplied(m.phone, p.phone),
      streetAddress := Supplied(m.streetAddress, p.streetAddress),
      address2 := Supplied(m.address2, p.address2),
      city := Supplied(m.city, p.city),
      state := Supplied(m.state, p.state),
      zip := Supplied(m.zip, p.zip),
      prefix := Supplied(m.prefix, p.prefix),
      middleName := Supplied(m.middleName, p.middleName),
      badgeNickname := Supplied(m.badgeNickname, p.badgeNickname),
      suffix := Supplied(m.suffix, p.suffix),
      phoneType := if p.phoneType.Given? then PhoneTypeNamed(p.phoneType.value) else m.phoneType,
      occupation := Supplied(m.occupation, p.occupation),
      employer := Supplied(m.employer, p.employer),
      deceased := if p.deceased.Some? then p.deceased else m.deceased,
      membershipType := Chosen(p.membershipType, MembershipTypeNamed).GetOr(m.membershipType),
      membershipExpiration := if p.membershipExpiration.Given? then StoredExpiration(p.membershipExpiration.value)
                              else m.membershipExpiration,
      club := if p.club.Given? then Some(p.club.value) else m.club)
  }

  /** What the update handler answers: the member it stores back under
      `id`, or why it refuses. */
  function UpdateMember(members: map<Id, Member>, user: User, id: Id, p: MemberPatch,
                        now: Date, cutoff: Cutoff, render: Date -> string, isEmail: string -> bool): Result<Member, Refusal>
  {
    var invalid := UpdateValidation(p, isEmail);
    if invalid != [] then Failure(Invalid(invalid))
    else if id !in members then Failure(Rejected(MemberNotFound))
    else
      var m := members[id];
      var m' := PatchMember(m, p);
      var expiry := ExpirationCheck(p.membershipExpiration, m.membershipExpiration, Dec31Iso(now, cutoff), render);
      if !MayAccessMember(user, m) then Failure(Rejected(InsufficientPermissions))
      else if expiry.Some? then Failure(Rejected(expiry.value))
      else if p.email.Some? && p.email.value != [] && p.email.value != m.email && EmailInUse(members, p.email.value) then
        Failure(Rejected(EmailExists))
      else if SaveRefused(members, id, m', p.membershipExpiration.Given?) then Failure(Rejected(UpdateFailed))
      else Success(m')
  }

  /** The update with the create handler's club checks applied to a club
      in the body: a Member Admin may only name their own club, and the club
      must exist. The handler as written checks neither (see
      MemberProperties.MemberAdminMovesMemberOut). */
  function UpdateMemberScoped(members: map<Id, Member>, clubs: map<Id, Club>, user: User, id: Id, p: MemberPatch,
                              now: Date, cutoff: Cutoff, render: Date -> string, isEmail: string -> bool): Result<Member, Refusal>
  {
    var r := UpdateMember(members, user, id, p, now, cutoff, render, isEmail);
    if r.Success? && p.club.Given? && !MayUseClub(user, p.club.value) then Failure(Rejected(InsufficientPermissions))
    else if r.Success? && p.club.Given? && p.club.value !in clubs then Failure(Rejected(ClubNotFound))
    else r
  }

  // ---------------------------------------------------------------------------
  // DELETE /:id
  // ---------------------------------------------------------------------------

  function DeleteMember(members: map<Id, Member>, user: User, id: Id): Option<ApiError> {
    if id !in members then Some(MemberNotFound)
    else if !MayAccessMember(user, members[id]) then Some(InsufficientPermissions)
    else None
  }

  // ---------------------------------------------------------------------------
  // The handlers over the database
  // ---------------------------------------------------------------------------

  /** The create handler's early returns. */
  method CheckCreate(db: Database, user: User, req: MemberBody, now: Date, cutoff: Cutoff, isEmail: string -> bool)
    returns (refusal: Option<Refusal>)
    ensures refusal == CreateRefusal(db.members, db.clubs, user, req, now, cutoff, isEmail)
  {
    var invalid := CreateValidation(req, isEmail);
    if invalid != [] {
      return Some(Invalid(invalid));
    }
    var decIso := Dec31Iso(now, cutoff);
    if req.membershipExpiration != [] && BeforeFirst(req.membershipExpiration, 'T') != decIso {
      return Some(Rejected(NotAllowedDec31));
    }
    if req.club.Given? {
      if !MayUseClub(user, req.club.value) {
        return Some(Rejected(InsufficientPermissions));
      }
      if req.club.value !in db.clubs {
        return Some(Rejected(ClubNotFound));
      }
    }
    if EmailInUse(db.members, req.email) {
      return Some(Rejected(EmailExists));
    }
    return None;
  }

  method CreateMemberM(db: Database, user: User, req: MemberBody, now: Date, cutoff: Cutoff, isEmail: string -> bool)
    returns (r: Result<Member, Refusal>)
    modifies db`members, db`memberOrder, db`nextId
    ensures r == CreateMember(old(db.members), db.clubs, old(db.nextId), user, req, now, cutoff, isEmail)
    ensures r.Success? ==> db.members == old(db.members)[old(db.nextId) := r.value]
    ensures r.Success? ==> db.memberOrder == old(db.memberOrder) + [old(db.nextId)] && db.nextId == old(db.nextId) + 1
    ensures r.Failure? ==> db.members == old(db.members) && db.memberOrder == old(db.memberOrder) && db.nextId == old(db.nextId)
  {
    var refusal := CheckCreate(db, user, req, now, cutoff, isEmail);
    if refusal.Some? {
      return Failure(refusal.value);
    }
    var doc := NewMemberDoc(req);
    var id := db.nextId;
    if SaveRefused(db.members, id, doc, req.membershipExpiration != []) {
      return Failure(Rejected(CreateFailed));
    }
    db.members := db.members[id := doc];
    db.memberOrder := db.memberOrder + [id];
    db.nextId := id + 1;
    return Success(doc);
  }

  /** One `if (x !== undefined) member.x = x`. */
  method Assign<T>(current: T, given: Option<T>) returns (v: T)
    ensures v == Supplied(current, given)
  {
    v := current;
    if given.Some? {
      v := given.value;
    }
  }

  /** The handler's assignments, in its order, on the loaded member. */
  method ApplyPatch(m: Member, p: MemberPatch) returns (member: Member)
    ensures member == PatchMember(m, p)
  {
    var email := m.email;
    if p.email.Some? && p.email.value != [] && p.email.value != m.email {
      email := p.email.value;
    }
    var firstName := Assign(m.firstName, p.firstName);
    var lastName := Assign(m.lastName, p.lastName);
    var phone := Assign(m.phone, p.phone);
    var streetAddress := Assign(m.streetAddress, p.streetAddress);
    var address2 := Assign(m.address2, p.address2);
    var city := Assign(m.city, p.city);
    var state := Assign(m.state, p.state);
    var zip := Assign(m.zip, p.zip);
    var prefix := Assign(m.prefix, p.prefix);
    var middleName := Assign(m.middleName, p.middleName);
    var badgeNickname := Assign(m.badgeNickname, p.badgeNickname);
    var suffix := Assign(m.suffix, p.suffix);
    var phoneType := m.phoneType;
    if p.phoneType.Given? {
      phoneType := PhoneTypeNamed(p.phoneType.value);
    }
    var occupation := Assign(m.occupation, p.occupation);
    var employer := Assign(m.employer, p.employer);
    var deceased := m.deceased;
    if p.deceased.Some? {
      deceased := p.deceased;
    }
    var membershipType := m.membershipType;
    if p.membershipType.Given? && MembershipTypeNamed(p.membershipType.value).Some? {
      membershipType := MembershipTypeNamed(p.membershipType.value).value;
    }
    var membershipExpiration := m.membershipExpiration;
    if p.membershipExpiration.Given? {
      membershipExpiration := StoredExpiration(p.membershipExpiration.value);
    }
    var club := m.club;
    if p.club.Given? {
      club := Some(p.club.value);
    }
    member := m.(
      email := email, firstName := firstName, lastName := lastName, phone := phone,
      streetAddress := streetAddress, address2 := address2, city := city, state := state, zip := zip,
      prefix := prefix, middleName := middleName, badgeNickname := badgeNickname, suffix := suffix,
      phoneType := phoneType, occupation := occupation, employer := employer, deceased := deceased,
      membershipType := membershipType, membershipExpiration := membershipExpiration, club := club);
  }

  method UpdateMemberM(db: Database, user: User, id: Id, p: MemberPatch,
                       now: Date, cutoff: Cutoff, render: Date -> string, isEmail: string -> bool)
    returns (r: Result<Member, Refusal>)
    modifies db`members
    ensures r == UpdateMember(old(db.members), user, id, p, now, cutoff, render, isEmail)
    ensures db.members == if r.Success? then old(db.members)[id := r.value] else old(db.members)
  {
    var invalid := UpdateValidation(p, isEmail);
    if invalid != [] {
      return Failure(Invalid(invalid));
    }
    if id !in db.members {
      return Failure(Rejected(MemberNotFound));
    }
    var m := db.members[id];
    if !MayAccessMember(user, m) {
      return Failure(Rejected(InsufficientPermissions));
    }
    var expiry := ExpirationCheck(p.membershipExpiration, m.membershipExpiration, Dec31Iso(now, cutoff), render);
    if expiry.Some? {
      return Failure(Rejected(expiry.value));
    }
    if p.email.Some? && p.email.value != [] && p.email.value != m.email && EmailInUse(db.members, p.email.value) {
      return Failure(Rejected(EmailExists));
    }
    var member := ApplyPatch(m, p);
    if SaveRefused(db.members, id, member, p.membershipExpiration.Given?) {
      return Failure(Rejected(UpdateFailed));
    }
    db.members := db.members[id := member];
    return Success(member);
  }

  method DeleteMemberM(db: Database, user: User, id: Id) returns (err: Option<ApiError>)
    modifies db`members, db`memberOrder
    ensures err == DeleteMember(old(db.members), user, id)
    ensures err.None? ==> db.members == old(db.members) - {id} && db.memberOrder == Filter(old(db.memberOrder), (x: Id) => x != id)
    ensures err.Some? ==> db.members == old(db.members) && db.memberOrder == old(db.memberOrder)
  {
    if id !in db.members {
      return Some(MemberNotFound);
    }
    if !MayAccessMember(user, db.members[id]) {
      return Some(InsufficientPermissions);
    }
    db.members := db.members - {id};
    db.memberOrder := Filter(db.memberOrder, (x: Id) => x != id);
    return None;
  }
}
