/** Member payments, server/routes/memberPayments.js: the checks before a
    payment is recorded, the filtered listing, and the unpaid-members query,
    which takes the club's members whose membership expires in the club
    year and are not Associates, and leaves out everyone with a payment for
    that club and year. */
module PaymentRoutes {
  import opened Wrappers
  import opened Text
  import opened Models
  import opened Store
  import opened ImportSpec
  import opened Dates

  const UnpaidParamsRequired: ApiError := ApiError(400, "clubId and clubYear required")
  const UnpaidFetchFailed: ApiError := ApiError(500, "Failed to fetch unpaid members")
  const PaymentMemberNotFound: ApiError := ApiError(400, "Member not found")
  const ClubPaymentNotFound: ApiError := ApiError(400, "ClubPayment not found")

  // ---------------------------------------------------------------------------
  // Instants and the club year
  // ---------------------------------------------------------------------------

  /** `a` is an earlier instant than `b`. */
  predicate Before(a: Date, b: Date) {
    || a.year < b.year
    || (a.year == b.year && a.month < b.month)
    || (a.year == b.year && a.month == b.month && a.day < b.day)
    || (a.year == b.year && a.month == b.month && a.day == b.day && a.msOfDay < b.msOfDay)
  }

  /** `{ $gte: start, $lt: end }` with `start` the first instant of `year`
      and `end` the first instant of the next. */
  predicate InYear(d: Date, year: nat) {
    !Before(d, Date(year, 1, 1, 0)) && Before(d, Date(year + 1, 1, 1, 0))
  }

  /** The query for the unpaid grid: a member of `club` whose membership
      expires in `year` and who is not an Associate. */
  predicate Candidate(members: map<Id, Member>, club: Id, year: nat, id: Id) {
    && id in members
    && members[id].club == Some(club)
    && members[id].membershipExpiration.Some?
    && InYear(members[id].membershipExpiration.value, year)
    && members[id].membershipType != Associate
  }

  /** `paidMemberIds`: the members of the payments recorded for `club` and
      `year`. */
  function Paid(payments: map<Id, MemberPayment>, club: Id, year: int): (paid: set<Id>)
    ensures forall m :: m in paid <==>
      exists p :: p in payments && payments[p].club == club && payments[p].clubYear == year && payments[p].member == m
  {
    set p | p in payments && payments[p].club == club && payments[p].clubYear == year :: payments[p].member
  }

  /** `GET /unpaid?clubId&clubYear`: both are required; the year is read with
      `parseInt`, and a year that does not read as a number makes the query
      fail. The answer lists members in stored order. */
  function Unpaid(members: map<Id, Member>, order: seq<Id>, payments: map<Id, MemberPayment>,
                  clubId: Option<Id>, clubYear: string): Result<seq<Id>, ApiError>
  {
    if clubId.None? || clubYear == [] then Failure(UnpaidParamsRequired)
    else
      var year := ParseIntText(clubYear);
      if year.None? then Failure(UnpaidFetchFailed)
      else
        var candidates := UnpaidCandidates(members, order, clubId.value, year.value);
        var paid := Paid(payments, clubId.value, year.value);
        Success(Filter(candidates, (id: Id) => id !in paid))
  }

  /** The candidates the unpaid list is filtered from. */
  function UnpaidCandidates(members: map<Id, Member>, order: seq<Id>, club: Id, year: nat): seq<Id> {
    Filter(order, (id: Id) => Candidate(members, club, year, id))
  }

  // ---------------------------------------------------------------------------
  // GET /
  // ---------------------------------------------------------------------------

  /** The payments matching the optional `clubId` and `clubPayment` filters. */
  function ListMemberPayments(payments: map<Id, MemberPayment>, clubId: Option<Id>, clubPayment: Option<Id>): (r: set<Id>)
    ensures forall p :: p in r <==>
      p in payments
      && (clubId.Some? ==> payments[p].club == clubId.value)
      && (clubPayment.Some? ==> payments[p].clubPayment == clubPayment.value)
  {
    set p | p in payments
            && (clubId.None? || payments[p].club == clubId.value)
            && (clubPayment.None? || payments[p].clubPayment == clubPayment.value)
  }

  // ---------------------------------------------------------------------------
  // POST /
  // ---------------------------------------------------------------------------

  /** A body value as the validators see it: missing (or empty), present but
      not of the expected form, or read as a value. */
  datatype Input<+T> = Missing | Malformed | Given(value: T)

  /** `body(f).notEmpty().<check>().withMessage(msg)`: a missing value fails
      both validators, and `notEmpty` reports the default message. */
  function FieldMessages<T>(x: Input<T>, ok: T -> bool, msg: string): (msgs: seq<string>)
    ensures msgs == [] <==> x.Given? && ok(x.value)
  {
    match x
    case Missing => ["Invalid value", msg]
    case Malformed => [msg]
    case Given(v) => if ok(v) then [] else [msg]
  }

  datatype PaymentBody = PaymentBody(
    member: Input<Id>,
    club: Input<Id>,
    clubPayment: Input<Id>,
    amount: Input<real>,
    clubYear: Input<int>)

  function PaymentValidation(b: PaymentBody): (msgs: seq<string>)
    ensures msgs == [] <==>
      && b.member.Given? && b.club.Given? && b.clubPayment.Given?
      && b.amount.Given? && b.amount.value > 0.0
      && b.clubYear.Given? && b.clubYear.value >= 1900
  {
    FieldMessages(b.member, (id: Id) => true, "Valid member ID required")
    + FieldMessages(b.club, (id: Id) => true, "Valid club ID required")
    + FieldMessages(b.clubPayment, (id: Id) => true, "Valid clubPayment ID required")
    + FieldMessages(b.amount, (a: real) => a > 0.0, "Amount required")
    + FieldMessages(b.clubYear, (y: int) => y >= 1900, "Valid club year required")
  }

  /** What the create handler stores, or why it refuses. */
  function CreateMemberPayment(members: map<Id, Member>, clubPayments: map<Id, ClubPayment>, b: PaymentBody): Result<MemberPayment, Refusal> {
    var invalid := PaymentValidation(b);
    if invalid != [] then Failure(Invalid(invalid))
    else if b.member.value !in members then Failure(Rejected(PaymentMemberNotFound))
    else if b.clubPayment.value !in clubPayments then Failure(Rejected(ClubPaymentNotFound))
    else Success(MemberPayment(b.member.value, b.club.value, b.clubPayment.value, b.amount.value, b.clubYear.value))
  }

  method CreateMemberPaymentM(db: Database, b: PaymentBody) returns (r: Result<MemberPayment, Refusal>)
    modifies db`memberPayments, db`nextId
    ensures r == CreateMemberPayment(db.members, db.clubPayments, b)
    ensures r.Success? ==> db.memberPayments == old(db.memberPayments)[old(db.nextId) := r.value] && db.nextId == old(db.nextId) + 1
    ensures r.Failure? ==> db.memberPayments == old(db.memberPayments) && db.nextId == old(db.nextId)
  {
    var invalid := PaymentValidation(b);
    if invalid != [] {
      return Failure(Invalid(invalid));
    }
    if b.member.value !in db.members {
      return Failure(Rejected(PaymentMemberNotFound));
    }
    if b.clubPayment.value !in db.clubPayments {
      return Failure(Rejected(ClubPaymentNotFound));
    }
    var payment := MemberPayment(b.member.value, b.club.value, b.clubPayment.value, b.amount.value, b.clubYear.value);
    db.memberPayments := db.memberPayments[db.nextId := payment];
    db.nextId := db.nextId + 1;
    return Success(payment);
  }
}
