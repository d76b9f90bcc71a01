/**
 The encrypted record store as its callers see it: a table from record id to
 (revision, value), with compare-and-swap saves and all-or-nothing batches.
 Encryption, serialization and SQL are exact storage here.
 */
module RecordStore {

  datatype Option<+T> = None | Some(value: T)

  datatype Result<+R, +E> = Ok(value: R) | Err(error: E)

  datatype StoreError = StaleRevision | DuplicateBatchEntity | ListCapacity

  datatype Stored<+V> = Stored(revision: nat, value: V)

  type Table<K, +V> = map<K, Stored<V>>

  datatype Save<+K, +V> = Save(id: K, expected: nat, value: V)

  datatype Delete<+K> = Delete(id: K, expected: nat)

  const U64_MAX: nat := 0xFFFF_FFFF_FFFF_FFFF

  function Smaller(a: int, b: int): int {
    if a < b then a else b
  }

  /** Two tables agree at this id. */
  predicate SameRow<K, V(==)>(a: Table<K, V>, b: Table<K, V>, id: K) {
    (id in a <==> id in b) && (id in a ==> a[id] == b[id])
  }

  /** Revision 0 means that the record is absent. */
  function Revision<K, V>(t: Table<K, V>, id: K): nat {
    if id in t then t[id].revision else 0
  }

  predicate DistinctSaves<K(==), V>(saves: seq<Save<K, V>>) {
    forall i, j | 0 <= i < j < |saves| :: saves[i].id != saves[j].id
  }

  predicate DistinctIds<K(==), V>(saves: seq<Save<K, V>>, deletes: seq<Delete<K>>) {
    && DistinctSaves(saves)
    && (forall i, j | 0 <= i < j < |deletes| :: deletes[i].id != deletes[j].id)
    && (forall i, j | 0 <= i < |saves| && 0 <= j < |deletes| :: saves[i].id != deletes[j].id)
    && (forall j | 0 <= j < |deletes| :: deletes[j].expected != 0)
  }

  /** Every operation of the batch names the revision that is stored now. */
  predicate Current<K, V>(t: Table<K, V>, saves: seq<Save<K, V>>, deletes: seq<Delete<K>>) {
    && (forall i | 0 <= i < |saves| :: Revision(t, saves[i].id) == saves[i].expected)
    && (forall j | 0 <= j < |deletes| :: Revision(t, deletes[j].id) == deletes[j].expected)
  }

  /** The rows after writing every save: each saved id holds its value one revision up. */
  function Written<K(==), V>(t: Table<K, V>, saves: seq<Save<K, V>>): (r: Table<K, V>)
    requires DistinctSaves(saves)
    ensures forall i | 0 <= i < |saves| ::
              saves[i].id in r && r[saves[i].id] == Stored(saves[i].expected + 1, saves[i].value)
    ensures forall k | k in r :: k in t || exists i | 0 <= i < |saves| :: saves[i].id == k
    ensures forall k | k in t && (forall i | 0 <= i < |saves| :: saves[i].id != k) :: k in r && r[k] == t[k]
    decreases |saves|
  {
    if saves == [] then t
    else
      var last := saves[|saves| - 1];
      Written(t, saves[..|saves| - 1])[last.id := Stored(last.expected + 1, last.value)]
  }

  function DeletedIds<K>(deletes: seq<Delete<K>>): set<K> {
    set j | 0 <= j < |deletes| :: deletes[j].id
  }

  /**
   One transaction: refused whole when an id repeats or any named revision is
   not the stored one, otherwise every save and delete takes effect.
   */
  function ApplyBatch<K(==), V>(t: Table<K, V>, saves: seq<Save<K, V>>, deletes: seq<Delete<K>>)
    : Result<Table<K, V>, StoreError>
  {
    if !DistinctIds(saves, deletes) then Err(DuplicateBatchEntity)
    else if !Current(t, saves, deletes) then Err(StaleRevision)
    else Ok(Written(t, saves) - DeletedIds(deletes))
  }

  function SaveEntity<K(==), V>(t: Table<K, V>, id: K, expected: nat, value: V)
    : Result<Table<K, V>, StoreError>
  {
    if Revision(t, id) != expected then Err(StaleRevision)
    else Ok(t[id := Stored(expected + 1, value)])
  }

  /** The store object shared by its callers; each method is one transaction. */
  class WalletStore<K(==), V> {
    var table: Table<K, V>

    constructor (initial: Table<K, V>)
      ensures table == initial
    {
      table := initial;
    }

    method Apply(saves: seq<Save<K, V>>, deletes: seq<Delete<K>>) returns (r: Result<(), StoreError>)
      modifies this
      ensures r.Ok? == ApplyBatch(old(table), saves, deletes).Ok?
      ensures r.Ok? ==> table == ApplyBatch(old(table), saves, deletes).value
      ensures r.Err? ==> table == old(table) && r.error == ApplyBatch(table, saves, deletes).error
    {
      match ApplyBatch(table, saves, deletes)
      case Ok(next) => table := next; r := Ok(());
      case Err(e) => r := Err(e);
    }

    method SaveOne(id: K, expected: nat, value: V) returns (r: Result<nat, StoreError>)
      modifies this
      ensures r.Ok? == SaveEntity(old(table), id, expected, value).Ok?
      ensures r.Ok? ==> table == SaveEntity(old(table), id, expected, value).value && r.value == expected + 1
      ensures r.Err? ==> table == old(table) && r.error == StaleRevision
    {
      match SaveEntity(table, id, expected, value)
      case Ok(next) => table := next; r := Ok(expected + 1);
      case Err(e) => r := Err(e);
    }
  }

  /**
   A batch is all or nothing: an accepted one leaves exactly its saves, one
   revision up, drops exactly its deletes and touches no other record.
   */
  lemma BatchEffect<K, V>(t: Table<K, V>, saves: seq<Save<K, V>>, deletes: seq<Delete<K>>, k: K)
    requires ApplyBatch(t, saves, deletes).Ok?
    ensures var r := ApplyBatch(t, saves, deletes).value;
            && (forall i | 0 <= i < |saves| && saves[i].id == k ::
                  k in r && r[k] == Stored(Revision(t, k) + 1, saves[i].value))
            && (k in DeletedIds(deletes) ==> k !in r && k in t)
            && ((forall i | 0 <= i < |saves| :: saves[i].id != k) && k !in DeletedIds(deletes) ==>
                  (k in r <==> k in t) && (k in t ==> r[k] == t[k]))
  {
  }

  /** A batch of saves alone, each at its current revision. */
  lemma SavesApply<K, V>(t: Table<K, V>, saves: seq<Save<K, V>>)
    requires DistinctSaves(saves)
    requires forall i | 0 <= i < |saves| :: Revision(t, saves[i].id) == saves[i].expected
    ensures ApplyBatch(t, saves, []) == Ok(Written(t, saves))
  {
    var none: seq<Delete<K>> := [];
    assert DeletedIds(none) == {};
    assert Written(t, saves) - DeletedIds(none) == Written(t, saves);
  }

  /** A record that a batch of saves does not name keeps its row. */
  lemma UntouchedRow<K, V>(t: Table<K, V>, saves: seq<Save<K, V>>, k: K)
    requires ApplyBatch(t, saves, []).Ok? && forall i | 0 <= i < |saves| :: saves[i].id != k
    ensures var r := ApplyBatch(t, saves, []).value; (k in r <==> k in t) && (k in t ==> r[k] == t[k])
  {
    var none: seq<Delete<K>> := [];
    assert k !in DeletedIds(none);
  }

  /** A batch of two saves, written out. */
  lemma TwoSaves<K, V>(t: Table<K, V>, a: Save<K, V>, b: Save<K, V>)
    requires a.id != b.id
    ensures ApplyBatch(t, [a, b], []) ==
            if Revision(t, a.id) != a.expected || Revision(t, b.id) != b.expected then Err(StaleRevision)
            else Ok(t[a.id := Stored(a.expected + 1, a.value)][b.id := Stored(b.expected + 1, b.value)])
  {
    var saves := [a, b];
    var none: seq<Delete<K>> := [];
    assert saves[0] == a && saves[1] == b;
    assert DistinctIds(saves, none);
    assert DeletedIds(none) == {};
    assert Current(t, saves, none) <==> Revision(t, a.id) == a.expected && Revision(t, b.id) == b.expected by {
      if Current(t, saves, none) {
        assert Revision(t, saves[0].id) == saves[0].expected && Revision(t, saves[1].id) == saves[1].expected;
      }
    }
    assert saves[..1] == [a] && [a][..0] == [];
    assert Written(t, [a]) == t[a.id := Stored(a.expected + 1, a.value)];
    assert Written(t, saves) == Written(t, [a])[b.id := Stored(b.expected + 1, b.value)];
    assert Written(t, saves) - DeletedIds(none) == Written(t, saves);
  }

  /** Of two batches prepared against one revision of a record, the second to arrive is refused. */
  lemma OneWinner<K, V>(t: Table<K, V>, first: seq<Save<K, V>>, second: seq<Save<K, V>>, i: nat, j: nat)
    requires i < |first| && j < |second|
    requires first[i].id == second[j].id && first[i].expected == second[j].expected
    requires ApplyBatch(t, first, []).Ok?
    ensures ApplyBatch(ApplyBatch(t, first, []).value, second, []).Err?
  {
    BatchEffect(t, first, [], first[i].id);
  }

  lemma NoLarger<T>(a: set<T>, b: set<T>)
    requires a <= b
    ensures |a| <= |b|
  {
    assert b == a + (b - a);
  }

  lemma {:induction false} FindLeast(s: set<nat>) returns (m: nat)
    requires s != {}
    ensures m in s && forall x | x in s :: m <= x
    decreases |s|
  {
    m :| m in s;
    var rest := s - {m};
    assert forall y | y in s :: y == m || y in rest;
    if rest != {} {
      var other := FindLeast(rest);
      if other < m { m := other; }
    }
  }

  /** The least member of a nonempty set of numbers. */
  function Least(s: set<nat>): (m: nat)
    requires s != {}
    ensures m in s && forall x | x in s :: m <= x
  {
    assert exists m :: m in s && forall x | x in s :: m <= x by {
      var m := FindLeast(s);
    }
    var m :| m in s && forall x | x in s :: m <= x;
    m
  }

  /** The members of a set in ascending order, as an ordered listing returns them. */
  function Ascending(s: set<nat>): (r: seq<nat>)
    ensures forall i, j | 0 <= i < j < |r| :: r[i] < r[j]
    ensures forall x :: x in r <==> x in s
    ensures |r| == |s|
    decreases |s|
  {
    if s == {} then []
    else
      var m := Least(s);
      [m] + Ascending(s - {m})
  }
}
