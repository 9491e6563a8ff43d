/** The phone backfill, server/scripts/update_phone_normalized.js: one pass
    over the stored members that writes the digits of each member's phone
    into its normalised phone when the value it read differs from them, and
    counts the members it saves. The script reads members with
    `.select('phone')`, so the normalised phone it compares against is the
    projected one: never loaded as written, the stored one once the
    projection includes it. */
module PhoneBackfill {
  import opened Text
  import opened Models
  import opened Store

  /** The fields the members are read with. */
  datatype Projection =
    | PhoneOnly            // `.select('phone')`, as written
    | PhoneAndNormalized   // `.select('phone phoneNormalized')`

  /** `m.phoneNormalized || ''` on the document as loaded: a field left out
      of the projection reads as undefined. */
  function Loaded(p: Projection, m: Member): (pn: string)
    ensures p.PhoneAndNormalized? ==> pn == m.phoneNormalized
    ensures p.PhoneOnly? ==> pn == []
  {
    match p
    case PhoneOnly => []
    case PhoneAndNormalized => m.phoneNormalized
  }

  /** The member is saved: what was read differs from `norm || ''`, the
      digits of its phone (none for an empty phone). */
  predicate Saves(p: Projection, m: Member) {
    Loaded(p, m) != DigitsOf(m.phone)
  }

  /** The member as saved: `phoneNormalized = norm || undefined`. */
  function Fix(m: Member): (r: Member)
    ensures r.phoneNormalized == DigitsOf(r.phone)
    ensures r.(phoneNormalized := m.phoneNormalized) == m
  {
    m.(phoneNormalized := DigitsOf(m.phone))
  }

  /** The members once the ids in `visited` have been through the loop. */
  function Backfilled(members: map<Id, Member>, visited: set<Id>, p: Projection): (r: map<Id, Member>)
    ensures r.Keys == members.Keys
    ensures forall id :: id in members && id !in visited ==> r[id] == members[id]
  {
    map id | id in members :: if id in visited then Visit(p, members[id]) else members[id]
  }

  /** One turn of the loop on one member. */
  function Visit(p: Projection, m: Member): (r: Member)
    ensures r == m || Saves(p, m)
  {
    if Saves(p, m) then Fix(m) else m
  }

  /** The number of saves a pass over `order` makes. */
  function SaveCount(members: map<Id, Member>, order: seq<Id>, p: Projection): (n: nat)
    ensures n <= |order|
  {
    if order == [] then 0
    else
      var last := order[|order| - 1];
      SaveCount(members, order[..|order| - 1], p) + (if last in members && Saves(p, members[last]) then 1 else 0)
  }

  /** A pass over one more member counts one more save when it saves it. */
  lemma SaveCountSnoc(members: map<Id, Member>, order: seq<Id>, p: Projection, id: Id)
    requires id in members
    ensures SaveCount(members, order + [id], p) == SaveCount(members, order, p) + (if Saves(p, members[id]) then 1 else 0)
  {
    assert (order + [id])[..|order|] == order;
  }

  /** Visiting one more member replaces at most that member. */
  lemma BackfilledStep(members: map<Id, Member>, visited: set<Id>, p: Projection, id: Id)
    requires id in members && id !in visited
    ensures Backfilled(members, visited + {id}, p) ==
      Backfilled(members, visited, p)[id := Visit(p, members[id])]
  {
    var a, b := Backfilled(members, visited + {id}, p), Backfilled(members, visited, p)[id := Visit(p, members[id])];
    assert a.Keys == b.Keys;
    forall k | k in a ensures a[k] == b[k] {
    }
  }

  /** Before the loop nothing has changed. */
  lemma BackfilledNone(members: map<Id, Member>, p: Projection)
    ensures Backfilled(members, {}, p) == members
  {
  }

  /** The loop body for one member: save it with its digits when what was
      read differs from them. */
  method VisitMember(db: Database, p: Projection, id: Id) returns (saved: bool)
    requires id in db.members
    modifies db`members
    ensures saved == Saves(p, old(db.members)[id])
    ensures db.members == old(db.members)[id := Visit(p, old(db.members)[id])]
  {
    var m := db.members[id];
    saved := Loaded(p, m) != DigitsOf(m.phone);
    if saved {
      db.members := db.members[id := Fix(m)];
    }
  }

  /** One turn of the loop keeps its invariant: the member at `i` is stored
      and not yet visited, and visiting it extends the pass by one. */
  lemma LoopStep(before: map<Id, Member>, order: seq<Id>, next: Id, p: Projection, visited: set<Id>, i: nat)
    requires OrderedTable(before, order, next) && i < |order|
    requires forall id :: id in visited <==> id in order[..i]
    ensures order[i] in before && order[i] !in visited
    ensures forall id :: id in visited + {order[i]} <==> id in order[..i + 1]
    ensures Backfilled(before, visited + {order[i]}, p) == Backfilled(before, visited, p)[order[i] := Visit(p, before[order[i]])]
    ensures SaveCount(before, order[..i + 1], p) == SaveCount(before, order[..i], p) + (if Saves(p, before[order[i]]) then 1 else 0)
  {
    var id := order[i];
    assert order[..i + 1] == order[..i] + [id];
    assert id !in order[..i] by {
      forall k | 0 <= k < i ensures order[..i][k] != id {
        assert order[..i][k] == order[k];
      }
    }
    BackfilledStep(before, visited, p, id);
    SaveCountSnoc(before, order[..i], p, id);
  }

  /** The script's loop, over the members in stored order. */
  method Backfill(db: Database, p: Projection) returns (updated: nat)
    requires OrderedTable(db.members, db.memberOrder, db.nextId)
    modifies db`members
    ensures db.members == Backfilled(old(db.members), old(db.members).Keys, p)
    ensures updated == SaveCount(old(db.members), db.memberOrder, p)
  {
    var before, order := db.members, db.memberOrder;
    ghost var visited: set<Id> := {};
    BackfilledNone(before, p);
    updated := 0;
    for i := 0 to |order|
      invariant forall id :: id in visited <==> id in order[..i]
      invariant db.members == Backfilled(before, visited, p)
      invariant updated == SaveCount(before, order[..i], p)
    {
      LoopStep(before, order, db.nextId, p, visited, i);
      var saved := VisitMember(db, p, order[i]);
      if saved {
        updated := updated + 1;
      }
      visited := visited + {order[i]};
    }
    assert order[..|order|] == order;
    assert visited == before.Keys;
  }
}
