/** What the phone backfill promises: after a pass every member's normalised
    phone is the digits of its phone, nothing else changes, the counter is
    the number of members saved, and a second pass saves nobody. The last
    two hold once the stored normalised phone is read; as written, a second
    pass saves again every member whose phone has a digit, and a stale value
    beside a phone without digits is never corrected. */
module PhoneBackfillProperties {
  import opened Text
  import opened Models
  import opened Store
  import opened PhoneBackfill

  /** The members a pass over `order` saves. */
  function SavedAmong(members: map<Id, Member>, order: seq<Id>, p: Projection): (r: set<Id>)
    ensures forall id :: id in r <==> id in order && id in members && Saves(p, members[id])
  {
    set id | id in order && id in members && Saves(p, members[id])
  }

  /** The counter is the number of members saved, each member being visited
      once. */
  lemma {:induction false} SaveCountIsSaved(members: map<Id, Member>, order: seq<Id>, p: Projection)
    requires forall j, k :: 0 <= j < k < |order| ==> order[j] != order[k]
    ensures SaveCount(members, order, p) == |SavedAmong(members, order, p)|
    decreases |order|
  {
    if order != [] {
      var init, last := order[..|order| - 1], order[|order| - 1];
      assert forall j, k :: 0 <= j < k < |init| ==> init[j] != init[k] by {
        forall j, k | 0 <= j < k < |init| ensures init[j] != init[k] {
          assert init[j] == order[j] && init[k] == order[k];
        }
      }
      SaveCountIsSaved(members, init, p);
      assert last !in init by {
        forall j | 0 <= j < |init| ensures init[j] != last {
          assert init[j] == order[j];
        }
      }
      assert order == init + [last];
      SavedAmongSnoc(members, init, p, last);
    }
  }

  /** Visiting one more member adds it to the saved ones exactly when it is
      stored and saved. */
  lemma SavedAmongSnoc(members: map<Id, Member>, order: seq<Id>, p: Projection, id: Id)
    ensures SavedAmong(members, order + [id], p)
      == SavedAmong(members, order, p) + (if id in members && Saves(p, members[id]) then {id} else {})
  {
    var s, t := SavedAmong(members, order + [id], p), SavedAmong(members, order, p);
    forall x ensures x in s <==> x in t || (x == id && id in members && Saves(p, members[id])) {
      assert x in order + [id] <==> x in order || x == id;
    }
  }

  /** `updated` is the number of stored members whose value read differs
      from the digits of their phone. */
  lemma UpdatedCountsSaves(members: map<Id, Member>, order: seq<Id>, next: Id, p: Projection)
    requires OrderedTable(members, order, next)
    ensures SaveCount(members, order, p) == |set id | id in members && Saves(p, members[id])|
  {
    SaveCountIsSaved(members, order, p);
    assert SavedAmong(members, order, p) == set id | id in members && Saves(p, members[id]);
  }

  /** Two tables that save the same members in `order` count the same. */
  lemma {:induction false} SaveCountSame(a: map<Id, Member>, b: map<Id, Member>, order: seq<Id>, p: Projection)
    requires forall k :: 0 <= k < |order| ==>
      (order[k] in a && Saves(p, a[order[k]])) == (order[k] in b && Saves(p, b[order[k]]))
    ensures SaveCount(a, order, p) == SaveCount(b, order, p)
    decreases |order|
  {
    if order != [] {
      SaveCountSame(a, b, order[..|order| - 1], p);
    }
  }

  /** A pass over members none of which is saved counts nothing. */
  lemma SaveCountNone(members: map<Id, Member>, order: seq<Id>, p: Projection)
    requires forall id :: id in members ==> !Saves(p, members[id])
    ensures SaveCount(members, order, p) == 0
  {
    SaveCountSame(members, map[], order, p);
  }

  /** After a pass, a member differs from what it was at most in its
      normalised phone, and that is the digits of its phone wherever the
      pass saved it. */
  lemma PassChangesOnlyNormalized(members: map<Id, Member>, p: Projection)
    ensures var after := Backfilled(members, members.Keys, p);
      forall id :: id in members ==>
        && after[id].(phoneNormalized := members[id].phoneNormalized) == members[id]
        && (Saves(p, members[id]) ==> after[id].phoneNormalized == DigitsOf(members[id].phone))
        && (!Saves(p, members[id]) ==> after[id] == members[id])
  {
  }

  /** Reading the stored value, every member agrees with its phone
      afterwards. */
  lemma PassNormalizesAll(members: map<Id, Member>)
    ensures var after := Backfilled(members, members.Keys, PhoneAndNormalized);
      forall id :: id in after ==> after[id].phoneNormalized == DigitsOf(after[id].phone)
  {
  }

  /** Reading the stored value, an immediate re-run saves nobody, and its
      pass leaves the members as they are. */
  lemma RerunSavesNothing(members: map<Id, Member>, order: seq<Id>)
    ensures var after := Backfilled(members, members.Keys, PhoneAndNormalized);
      && SaveCount(after, order, PhoneAndNormalized) == 0
      && Backfilled(after, after.Keys, PhoneAndNormalized) == after
  {
    var after := Backfilled(members, members.Keys, PhoneAndNormalized);
    PassNormalizesAll(members);
    SaveCountNone(after, order, PhoneAndNormalized);
  }

  /** As written, the normalised phone is never read, so every member whose
      phone has a digit is saved on every pass: a re-run saves exactly the
      members the first pass saved, and in particular a member whose phone
      has a digit is saved again. */
  lemma AsWrittenRerunSavesAgain(members: map<Id, Member>, order: seq<Id>, id: Id)
    requires id in members && DigitsOf(members[id].phone) != []
    ensures var after := Backfilled(members, members.Keys, PhoneOnly);
      && Saves(PhoneOnly, after[id])
      && SaveCount(after, order, PhoneOnly) == SaveCount(members, order, PhoneOnly)
      && (id in order ==> SaveCount(after, order, PhoneOnly) > 0)
  {
    var after := Backfilled(members, members.Keys, PhoneOnly);
    SaveCountSame(after, members, order, PhoneOnly);
    if id in order {
      var k :| 0 <= k < |order| && order[k] == id;
      SavedCounted(members, order, PhoneOnly, k);
    }
  }

  /** A pass that saves the member at position `k` counts at least one. */
  lemma {:induction false} SavedCounted(members: map<Id, Member>, order: seq<Id>, p: Projection, k: nat)
    requires k < |order| && order[k] in members && Saves(p, members[order[k]])
    ensures SaveCount(members, order, p) > 0
    decreases |order|
  {
    if k < |order| - 1 {
      SavedCounted(members, order[..|order| - 1], p, k);
    }
  }

  /** As written, a member whose phone has no digit is never saved, so a
      stale normalised phone beside it is left as it was. */
  lemma AsWrittenLeavesStale(members: map<Id, Member>, id: Id)
    requires id in members && DigitsOf(members[id].phone) == []
    ensures Backfilled(members, members.Keys, PhoneOnly)[id] == members[id]
  {
  }
}
