/** What the payment routes promise: the unpaid list is exactly the
    candidates without a payment for the club and year, in stored order; a
    payment is recorded only against an existing member and club payment,
    and recording one takes its member off the unpaid list of that club and
    year. */
module PaymentProperties {
  import opened Wrappers
  import opened Text
  import opened Models
  import opened ImportSpec
  import opened Tables
  import opened Dates
  import opened PaymentRoutes

  /** The month and day are on the calendar. */
  predicate OnCalendar(d: Date) {
    1 <= d.month <= 12 && 1 <= d.day <= 31
  }

  /** For a date on the calendar, the range `[year-01-01, year+1-01-01)`
      holds exactly the dates of that year. */
  lemma InYearIsYear(d: Date, year: nat)
    requires OnCalendar(d)
    ensures InYear(d, year) <==> d.year == year
  {
  }

  /** Without either query parameter the answer is 400. */
  lemma UnpaidNeedsBoth(members: map<Id, Member>, order: seq<Id>, payments: map<Id, MemberPayment>,
                        clubId: Option<Id>, clubYear: string)
    requires clubId.None? || clubYear == []
    ensures Unpaid(members, order, payments, clubId, clubYear) == Failure(UnpaidParamsRequired)
  {
  }

  /** A member is listed unpaid exactly when they are in the table, in the
      club, expiring in the year, not an Associate, and without a payment
      for the club and year. */
  lemma UnpaidMembership(members: map<Id, Member>, order: seq<Id>, payments: map<Id, MemberPayment>,
                         club: Id, year: nat, id: Id)
    ensures Unpaid(members, order, payments, Some(club), NatToString(year)).Success?
    ensures id in Unpaid(members, order, payments, Some(club), NatToString(year)).value <==>
      && id in order
      && id in members
      && members[id].club == Some(club)
      && members[id].membershipExpiration.Some?
      && InYear(members[id].membershipExpiration.value, year)
      && members[id].membershipType != Associate
      && !(exists p :: p in payments && payments[p].club == club && payments[p].clubYear == year && payments[p].member == id)
  {
    ParseIntOfNatText(year);
    var r := Unpaid(members, order, payments, Some(club), NatToString(year)).value;
    var candidates := UnpaidCandidates(members, order, club, year);
    assert r == Filter(candidates, (x: Id) => x !in Paid(payments, club, year));
  }

  /** The unpaid list keeps the stored order of the candidates and lists no
      member twice. */
  lemma UnpaidOrdered(members: map<Id, Member>, order: seq<Id>, payments: map<Id, MemberPayment>,
                      club: Id, clubYear: string)
    requires Distinct(order)
    requires Unpaid(members, order, payments, Some(club), clubYear).Success?
    ensures var year := ParseIntText(clubYear).value;
      var r := Unpaid(members, order, payments, Some(club), clubYear).value;
      Subsequence(r, UnpaidCandidates(members, order, club, year)) && Subsequence(UnpaidCandidates(members, order, club, year), order)
      && Distinct(r)
  {
    var year := ParseIntText(clubYear).value;
    var candidates := UnpaidCandidates(members, order, club, year);
    var keep := (x: Id) => x !in Paid(payments, club, year);
    FilterSubsequence(order, (id: Id) => Candidate(members, club, year, id));
    FilterSubsequence(candidates, keep);
    FilterDistinct(order, (id: Id) => Candidate(members, club, year, id));
    FilterDistinct(candidates, keep);
  }

  /** A payment is recorded exactly when the body is valid and its member
      and club payment exist. */
  lemma CreatePaymentRule(members: map<Id, Member>, clubPayments: map<Id, ClubPayment>, b: PaymentBody)
    ensures CreateMemberPayment(members, clubPayments, b).Success? <==>
      && PaymentValidation(b) == []
      && b.member.value in members
      && b.clubPayment.value in clubPayments
    ensures CreateMemberPayment(members, clubPayments, b).Success? ==>
      var p := CreateMemberPayment(members, clubPayments, b).value;
      p.amount > 0.0 && p.clubYear >= 1900 && p.member in members && p.clubPayment in clubPayments
  {
  }

  /** Recording a payment takes its member off the unpaid list of its club
      and year, and puts no one on it. */
  lemma PaymentMarksPaid(members: map<Id, Member>, order: seq<Id>, payments: map<Id, MemberPayment>,
                         clubPayments: map<Id, ClubPayment>, b: PaymentBody, id: Id, x: Id)
    requires CreateMemberPayment(members, clubPayments, b).Success? && id !in payments
    ensures var p := CreateMemberPayment(members, clubPayments, b).value;
      var year := p.clubYear as nat;
      var before := Unpaid(members, order, payments, Some(p.club), NatToString(year)).value;
      var after := Unpaid(members, order, payments[id := p], Some(p.club), NatToString(year)).value;
      && p.member !in after
      && (x in after ==> x in before)
  {
    var p := CreateMemberPayment(members, clubPayments, b).value;
    var year := p.clubYear as nat;
    UnpaidMembership(members, order, payments, p.club, year, x);
    UnpaidMembership(members, order, payments[id := p], p.club, year, x);
    UnpaidMembership(members, order, payments[id := p], p.club, year, p.member);
    var payments' := payments[id := p];
    assert id in payments' && payments'[id].club == p.club && payments'[id].clubYear == year && payments'[id].member == p.member;
    if x in Unpaid(members, order, payments', Some(p.club), NatToString(year)).value {
      forall q | q in payments && payments[q].club == p.club && payments[q].clubYear == year
        ensures payments[q].member != x
      {
        assert payments'[q] == payments[q];
      }
    }
  }
}
