/** Facts about the stored tables shared by the handlers that remove
    records: the order sequences stay free of repeats under `Filter`, and
    dropping records together with their places keeps a table exact. */
module Tables {
  import opened Models
  import opened Store
  import opened ImportSpec

  predicate Distinct(s: seq<Id>) {
    forall j, k :: 0 <= j < k < |s| ==> s[j] != s[k]
  }

  /** `Filter` keeps the elements it keeps distinct. */
  lemma {:induction false} FilterDistinct(order: seq<Id>, p: Id -> bool)
    requires Distinct(order)
    ensures Distinct(Filter(order, p))
  {
    if order != [] {
      var tail := order[1..];
      assert Distinct(tail) by {
        forall j, k | 0 <= j < k < |tail| ensures tail[j] != tail[k] {
          assert tail[j] == order[j + 1] && tail[k] == order[k + 1];
        }
      }
      FilterDistinct(tail, p);
      var rest := Filter(tail, p);
      assert order[0] !in tail by {
        forall k | 0 <= k < |tail| ensures tail[k] != order[0] {
          assert tail[k] == order[k + 1];
        }
      }
      if p(order[0]) {
        var r := [order[0]] + rest;
        assert Filter(order, p) == r;
        forall j, k | 0 <= j < k < |r| ensures r[j] != r[k] {
          assert r[k] == rest[k - 1];
          if j > 0 {
            assert r[j] == rest[j - 1];
          } else {
            assert rest[k - 1] in rest;
          }
        }
      } else {
        assert Filter(order, p) == [] + rest;
      }
    }
  }

  /** Removing a record and its place in the order keeps the order exact. */
  lemma OrderedTableRemove<T>(table: map<Id, T>, order: seq<Id>, next: Id, id: Id)
    requires OrderedTable(table, order, next)
    ensures OrderedTable(table - {id}, Filter(order, (x: Id) => x != id), next)
  {
    var keep := (x: Id) => x != id;
    var r := Filter(order, keep);
    assert Distinct(order);
    FilterDistinct(order, keep);
    assert Distinct(r);
    forall x | true ensures x in table - {id} <==> x in r {
      assert x in r <==> x in order && keep(x);
    }
  }


  /** The records of `table` whose identity satisfies `keep`. */
  function Restrict<T>(table: map<Id, T>, keep: Id -> bool): (r: map<Id, T>)
    ensures forall id :: id in r <==> id in table && keep(id)
    ensures forall id :: id in r ==> r[id] == table[id]
  {
    map id | id in table && keep(id) :: table[id]
  }

  /** Keeping the records that satisfy `keep`, and their places in the
      order, keeps the order exact. */
  lemma OrderedTableKeep<T>(table: map<Id, T>, order: seq<Id>, next: Id, keep: Id -> bool)
    requires OrderedTable(table, order, next)
    ensures OrderedTable(Restrict(table, keep), Filter(order, keep), next)
  {
    var r := Filter(order, keep);
    assert Distinct(order);
    FilterDistinct(order, keep);
    assert Distinct(r);
  }

  /** `s` is `t` with some elements left out, the rest in the same order. */
  predicate Subsequence(s: seq<Id>, t: seq<Id>)
    decreases |t|
  {
    if s == [] then true
    else if t == [] then false
    else if s[0] == t[0] then Subsequence(s[1..], t[1..])
    else Subsequence(s, t[1..])
  }

  /** `Filter` keeps the order of what it keeps. */
  lemma {:induction false} FilterSubsequence(order: seq<Id>, p: Id -> bool)
    ensures Subsequence(Filter(order, p), order)
  {
    if order != [] {
      FilterSubsequence(order[1..], p);
      var rest := Filter(order[1..], p);
      if p(order[0]) {
        assert Filter(order, p) == [order[0]] + rest;
        assert ([order[0]] + rest)[1..] == rest;
      } else {
        assert Filter(order, p) == rest;
        SubsequenceSkip(rest, order);
      }
    }
  }

  /** A subsequence of the tail is a subsequence of the whole. */
  lemma {:induction false} SubsequenceSkip(s: seq<Id>, t: seq<Id>)
    requires t != [] && Subsequence(s, t[1..])
    ensures Subsequence(s, t)
    decreases |t|, 0
  {
    if s != [] && s[0] == t[0] {
      SubsequenceDropHead(s, t[1..]);
    }
  }

  /** Leaving out the first element of a subsequence keeps it one. */
  lemma {:induction false} SubsequenceDropHead(s: seq<Id>, u: seq<Id>)
    requires s != [] && Subsequence(s, u)
    ensures Subsequence(s[1..], u)
    decreases |u|, 1
  {
    if s[0] != u[0] {
      SubsequenceDropHead(s, u[1..]);
    }
    SubsequenceSkip(s[1..], u);
  }
}
