/** Properties of matching and merging a row into a stored member. */
module ImportMerge {
  import opened Wrappers
  import opened Text
  import opened Models
  import opened ImportSpec
  import opened ImportProperties

  /** The field-by-field comparison reports a change exactly when saving the
      merged member would alter what is stored. */
  lemma HasChangesIffMergeDiffers(m: Member, inc: Incoming, clubId: Id)
    ensures HasChanges(m, inc, clubId) <==> Merge(m, inc, clubId) != m
  {
  }

  /** Merging the same row twice is merging it once, and after one merge the
      comparison finds nothing to change. */
  lemma MergeIdempotent(m: Member, inc: Incoming, clubId: Id)
    ensures Merge(Merge(m, inc, clubId), inc, clubId) == Merge(m, inc, clubId)
    ensures !HasChanges(Merge(m, inc, clubId), inc, clubId)
  {
    HasChangesIffMergeDiffers(Merge(m, inc, clubId), inc, clubId);
  }

  /** A member the row creates already holds what the row says. */
  lemma NewMemberUnchanged(inc: Incoming, clubId: Id)
    ensures !HasChanges(NewMember(inc, clubId), inc, clubId)
  {
  }

  /** The merge never touches the normalised phone, and keeps a stored value
      wherever the row's cell is empty. */
  lemma MergeKeeps(m: Member, inc: Incoming, clubId: Id)
    ensures Merge(m, inc, clubId).phoneNormalized == m.phoneNormalized
    ensures inc.email == [] ==> Merge(m, inc, clubId).email == m.email
    ensures inc.phone == [] ==> Merge(m, inc, clubId).phone == m.phone
    ensures inc.contactId == [] ==> Merge(m, inc, clubId).nfrwContactId == m.nfrwContactId
    ensures inc.dateOfBirth == None ==> Merge(m, inc, clubId).dateOfBirth == m.dateOfBirth
    ensures Merge(m, inc, clubId).club == Some(clubId)
  {
  }

  /** Who a row resolves to, stated without the candidate list: with a contact
      id that some member has, the first such member; otherwise the first
      member, in retrieval order, with the row's names in the resolved club
      whose email or phone matches. */
  lemma MatchCharacterised(members: map<Id, Member>, order: seq<Id>, inc: Incoming, clubId: Id)
    ensures inc.contactId != [] && FirstWhere(order, MemberWithContact(members, inc.contactId)).Some? ==>
      Match(members, order, inc, clubId) == FirstWhere(order, MemberWithContact(members, inc.contactId))
    ensures inc.contactId == [] || FirstWhere(order, MemberWithContact(members, inc.contactId)).None? ==>
      Match(members, order, inc, clubId)
        == FirstWhere(order, And(SameNameInClub(members, inc.firstName, inc.lastName, clubId),
                                 MatchesContact(members, inc)))
  {
    FirstOfFilter(order, SameNameInClub(members, inc.firstName, inc.lastName, clubId), MatchesContact(members, inc));
  }

  /** After the matched member is saved with the row merged in, the same row
      matches that member again. */
  lemma MatchAfterUpdate(members: map<Id, Member>, order: seq<Id>, inc: Incoming, clubId: Id, id: Id)
    requires id in members && id in order
    requires Match(members, order, inc, clubId) == Some(id)
    requires ToLower(inc.email) == inc.email
    ensures Match(members[id := Merge(members[id], inc, clubId)], order, inc, clubId) == Some(id)
  {
    var m' := Merge(members[id], inc, clubId);
    var members' := members[id := m'];
    MatchCharacterised(members, order, inc, clubId);
    MatchCharacterised(members', order, inc, clubId);
    var p := MemberWithContact(members, inc.contactId);
    var p' := MemberWithContact(members', inc.contactId);
    if inc.contactId != [] {
      assert p'(id);
      FirstWhereAfterChange(order, p, p', id);
    } else {
      var q := And(SameNameInClub(members, inc.firstName, inc.lastName, clubId), MatchesContact(members, inc));
      var q' := And(SameNameInClub(members', inc.firstName, inc.lastName, clubId), MatchesContact(members', inc));
      assert q(id);
      assert ContactMatches(inc, m');
      assert q'(id);
      FirstWhereAfterChange(order, q, q', id);
    }
  }

  /** After a row that matched nobody creates its member under a fresh
      identity, last in order, the same row matches that member. */
  lemma MatchAfterCreate(members: map<Id, Member>, order: seq<Id>, inc: Incoming, clubId: Id, id: Id)
    requires id !in order && (forall y :: y in members ==> y in order)
    requires Match(members, order, inc, clubId) == None
    requires inc.email != [] && ToLower(inc.email) == inc.email
    ensures Match(members[id := NewMember(inc, clubId)], order + [id], inc, clubId) == Some(id)
  {
    var members' := members[id := NewMember(inc, clubId)];
    MatchCharacterised(members, order, inc, clubId);
    MatchCharacterised(members', order + [id], inc, clubId);
    if inc.contactId != [] {
      FirstWhereAppend(order, MemberWithContact(members, inc.contactId), MemberWithContact(members', inc.contactId), id);
    } else {
      var q := And(SameNameInClub(members, inc.firstName, inc.lastName, clubId), MatchesContact(members, inc));
      var q' := And(SameNameInClub(members', inc.firstName, inc.lastName, clubId), MatchesContact(members', inc));
      assert q'(id);
      FirstWhereAppend(order, q, q', id);
    }
  }
}
