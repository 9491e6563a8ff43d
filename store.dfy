/** The document database the routes talk to, as in-memory tables. Each
    collection is a map from identity to record; the collections that are read
    back in their natural order (clubs, members) keep that order as a
    sequence, and the import audit rows, which are only ever appended and read
    back in creation order, are a sequence. One counter hands out identities
    for every collection, as object ids are unique across a database. */
module Store {
  import opened Models

  /** `order` lists the keys of `table`, each once, and every key is below `next`. */
  ghost predicate OrderedTable<T>(table: map<Id, T>, order: seq<Id>, next: Id) {
    && (forall id :: id in table <==> id in order)
    && (forall j, k :: 0 <= j < k < |order| ==> order[j] != order[k])
    && (forall id :: id in table ==> id < next)
  }

  ghost predicate KeysBelow<T>(table: map<Id, T>, next: Id) {
    forall id :: id in table ==> id < next
  }

  /** Storing a record under the next identity, last in order, keeps the
      order exact. */
  lemma OrderedTableAdd<T>(table: map<Id, T>, order: seq<Id>, next: Id, v: T)
    requires OrderedTable(table, order, next)
    ensures OrderedTable(table[next := v], order + [next], next + 1)
  {
    assert next !in order;
  }

  /** Replacing a stored record keeps the order exact. */
  lemma OrderedTableReplace<T>(table: map<Id, T>, order: seq<Id>, next: Id, id: Id, v: T)
    requires OrderedTable(table, order, next) && id in table
    ensures OrderedTable(table[id := v], order, next)
  {
  }

  /** A larger counter keeps the order exact. */
  lemma OrderedTableRaise<T>(table: map<Id, T>, order: seq<Id>, next: Id, next': Id)
    requires OrderedTable(table, order, next) && next <= next'
    ensures OrderedTable(table, order, next')
  {
  }

  class Database {
    var clubs: map<Id, Club>
    var clubOrder: seq<Id>
    var members: map<Id, Member>
    var memberOrder: seq<Id>
    var imports: map<Id, FileImport>
    var importRows: seq<FileImportRow>
    var exports: map<Id, FileExport>
    var admins: map<Id, Admin>
    var clubPayments: map<Id, ClubPayment>
    var memberPayments: map<Id, MemberPayment>
    var nextId: Id

    /** Every identity in use was handed out by the counter, and the order
        sequences list exactly the stored clubs and members. */
    ghost predicate Valid()
      reads this
    {
      && OrderedTable(clubs, clubOrder, nextId)
      && OrderedTable(members, memberOrder, nextId)
      && KeysBelow(imports, nextId)
      && KeysBelow(exports, nextId)
      && KeysBelow(admins, nextId)
      && KeysBelow(clubPayments, nextId)
      && KeysBelow(memberPayments, nextId)
    }

    constructor ()
      ensures Valid()
      ensures clubs == map[] && clubOrder == [] && members == map[] && memberOrder == []
      ensures imports == map[] && importRows == [] && exports == map[] && admins == map[]
      ensures clubPayments == map[] && memberPayments == map[] && nextId == 0
    {
      clubs, clubOrder := map[], [];
      members, memberOrder := map[], [];
      imports, importRows, exports := map[], [], map[];
      admins, clubPayments, memberPayments := map[], map[], map[];
      nextId := 0;
    }
  }
}
