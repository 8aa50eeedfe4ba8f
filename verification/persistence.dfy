/**
 * The persistence side the import works against: the `training` table
 * (as the managed entities loaded from it, in insertion order), the
 * entities scheduled for insertion by `persist`, and `flush`, which
 * writes the scheduled ones and gives each its auto-increment id.
 *
 * A lookup by googleSheetId sees only flushed rows: an entity persisted
 * earlier in the same run is not found.
 */
module Persistence {
  import opened Base
  import opened TrainingEntity

  /** Position of the first stored row whose googleSheetId is `key`. */
  function KeyIndex(rows: seq<TrainingData>, key: string): (r: Option<nat>)
    ensures r.Some? ==> r.value < |rows| && rows[r.value].googleSheetId == Some(key)
  {
    if rows == [] then None
    else if rows[0].googleSheetId == Some(key) then Some(0)
    else
      match KeyIndex(rows[1..], key)
      case None => None
      case Some(i) => Some(i + 1)
  }

  /** The lookup finds the first row with the key, and finds nothing only
      when no row has it. */
  lemma {:induction false} KeyIndexFirst(rows: seq<TrainingData>, key: string)
    ensures KeyIndex(rows, key).Some? ==>
              forall j :: 0 <= j < KeyIndex(rows, key).value ==> rows[j].googleSheetId != Some(key)
    ensures KeyIndex(rows, key).None? <==> forall j :: 0 <= j < |rows| ==> rows[j].googleSheetId != Some(key)
  {
    if rows != [] {
      KeyIndexFirst(rows[1..], key);
      assert forall j :: 1 <= j < |rows| ==> rows[j] == rows[1..][j - 1];
    }
  }

  /** The identity keys present among `rows`. */
  function KeySet(rows: seq<TrainingData>): set<string> {
    set i | 0 <= i < |rows| && rows[i].googleSheetId.Some? :: rows[i].googleSheetId.value
  }

  /** A key is found by the lookup exactly when some row carries it. */
  lemma KeyIndexFindsKeySet(rows: seq<TrainingData>, key: string)
    ensures KeyIndex(rows, key).Some? <==> key in KeySet(rows)
  {
    KeyIndexFirst(rows, key);
    if key in KeySet(rows) {
      var i :| 0 <= i < |rows| && rows[i].googleSheetId.Some? && rows[i].googleSheetId.value == key;
      assert rows[i].googleSheetId == Some(key);
    }
  }

  /** The rows a flush writes, each with the id the table hands out. */
  function AssignIds(rows: seq<TrainingData>, first: int): (r: seq<TrainingData>)
    ensures |r| == |rows|
    ensures forall i :: 0 <= i < |rows| ==> r[i] == rows[i].(id := Some(first + i))
  {
    seq(|rows|, i requires 0 <= i < |rows| => rows[i].(id := Some(first + i)))
  }

  class EntityManager {
    /** Flushed trainings, in the order they were inserted. */
    var table: seq<Training>
    /** Trainings passed to `persist` and not flushed yet. */
    var pending: seq<Training>
    /** The id the next inserted row receives. */
    var nextId: int
    /** Every training handed to `persist`. */
    ghost var Repr: set<Training>

    function Managed(): set<Training>
      reads this
    {
      (set t | t in table) + (set t | t in pending)
    }

    /** No entity is managed twice, and every stored row satisfies the
        table's NOT NULL columns. */
    ghost predicate Valid()
      reads this, Managed()
    {
      NoDuplicates(table + pending) && AllComplete(Rows())
    }

    /** Every scheduled training was handed over through `persist`. */
    ghost predicate Tracked()
      reads this
    {
      forall t :: t in pending ==> t in Repr
    }

    /** Every scheduled entity can be written. */
    ghost predicate CanFlush()
      reads this, Managed()
    {
      AllComplete(PendingRows())
    }

    function Rows(): seq<TrainingData>
      reads this, Managed()
    {
      Snapshot(table)
    }

    function PendingRows(): seq<TrainingData>
      reads this, Managed()
    {
      Snapshot(pending)
    }

    constructor ()
      ensures table == [] && pending == [] && nextId == 1 && Repr == {}
      ensures Valid() && Tracked()
    {
      table, pending, nextId := [], [], 1;
      Repr := {};
    }

    /** `findOneBy(['googleSheetId' => key])`: the first stored training
        with that key, or null. */
    method FindOneByGoogleSheetId(key: string) returns (t: Training?)
      ensures t == null <==> KeyIndex(Rows(), key).None?
      ensures t != null ==> t == table[KeyIndex(Rows(), key).value]
    {
      KeyIndexFirst(Rows(), key);
      var i := 0;
      while i < |table|
        invariant 0 <= i <= |table|
        invariant forall j :: 0 <= j < i ==> table[j].googleSheetId != Some(key)
      {
        if table[i].googleSheetId == Some(key) {
          return table[i];
        }
        i := i + 1;
      }
      return null;
    }

    /** `persist`: schedules a new entity; an entity already managed is
        left as it is. */
    method Persist(t: Training)
      requires Valid()
      modifies this
      ensures Valid()
      ensures table == old(table) && nextId == old(nextId) && Repr == old(Repr) + {t}
      ensures old(Tracked()) ==> Tracked()
      ensures pending == if t in old(table) || t in old(pending) then old(pending) else old(pending) + [t]
      ensures Rows() == old(Rows())
      ensures PendingRows() == if t in old(table) || t in old(pending) then old(PendingRows())
                               else old(PendingRows()) + [t.Data()]
    {
      if t !in table && t !in pending {
        ghost var stored := Rows();
        assert table + (pending + [t]) == (table + pending) + [t];
        SnapshotAppend(pending, [t]);
        pending, Repr := pending + [t], Repr + {t};
        assert Rows() == stored;
      } else {
        Repr := Repr + {t};
      }
    }

    /** `flush`: inserts every scheduled entity, in order, each receiving
        the next id; nothing else about the stored rows changes. */
    method Flush()
      requires Valid() && CanFlush()
      modifies this, set t | t in pending
      ensures Valid()
      ensures table == old(table) + old(pending) && pending == [] && Repr == old(Repr) && Tracked()
      ensures nextId == old(nextId) + old(|pending|)
      ensures Rows() == old(Rows()) + AssignIds(old(PendingRows()), old(nextId))
    {
      var ts, ps, first := table, pending, nextId;
      ghost var stored, written := Snapshot(ts), Snapshot(ps);
      SplitDistinct(ts, ps);
      NumberInOrder(ps, first);
      table, pending, nextId := ts + ps, [], first + |ps|;
      FlushedRows(ts, ps, stored, written, first);
      assert table + pending == ts + ps;
      AllCompleteFlushed(stored, written, first);
    }
  }

  /** Stored rows and written rows that are all complete stay so. */
  lemma AllCompleteFlushed(stored: seq<TrainingData>, written: seq<TrainingData>, first: int)
    requires AllComplete(stored) && AllComplete(written)
    ensures AllComplete(stored + AssignIds(written, first))
  {
    var r := stored + AssignIds(written, first);
    forall i | 0 <= i < |r| ensures Complete(r[i]) {
      if i >= |stored| {
        assert r[i] == written[i - |stored|].(id := Some(first + i - |stored|));
      }
    }
  }

  /** The two halves of a duplicate-free list are duplicate-free and share
      no element. */
  lemma SplitDistinct<T>(a: seq<T>, b: seq<T>)
    requires NoDuplicates(a + b)
    ensures NoDuplicates(a) && NoDuplicates(b)
    ensures forall i, j :: 0 <= i < |a| && 0 <= j < |b| ==> a[i] != b[j]
    ensures forall i :: 0 <= i < |a| ==> a[i] !in b
  {
    forall i, j | 0 <= i < |a| && 0 <= j < |b| ensures a[i] != b[j] {
      assert (a + b)[i] == a[i] && (a + b)[|a| + j] == b[j];
    }
    forall i, j | 0 <= i < j < |a| ensures a[i] != a[j] {
      assert (a + b)[i] == a[i] && (a + b)[j] == a[j];
    }
    forall i, j | 0 <= i < j < |b| ensures b[i] != b[j] {
      assert (a + b)[|a| + i] == b[i] && (a + b)[|a| + j] == b[j];
    }
  }

  /** Hands out consecutive ids, starting at `first`, to the entities in
      `ps` in order. */
  method NumberInOrder(ps: seq<Training>, first: int)
    requires NoDuplicates(ps)
    modifies set t | t in ps
    ensures forall j :: 0 <= j < |ps| ==> ps[j].Data() == old(ps[j].Data()).(id := Some(first + j))
  {
    var k := 0;
    while k < |ps|
      invariant 0 <= k <= |ps|
      invariant forall j :: 0 <= j < k ==> ps[j].Data() == old(ps[j].Data()).(id := Some(first + j))
      invariant forall j :: k <= j < |ps| ==> ps[j].Data() == old(ps[j].Data())
    {
      ps[k].id := Some(first + k);
      k := k + 1;
    }
  }

  /** After the ids are assigned, the stored rows are the old ones followed
      by the written ones. */
  lemma FlushedRows(ts: seq<Training>, ps: seq<Training>, stored: seq<TrainingData>,
                    written: seq<TrainingData>, first: int)
    requires |stored| == |ts| && |written| == |ps|
    requires forall j :: 0 <= j < |ps| ==> ps[j].Data() == written[j].(id := Some(first + j))
    requires forall j :: 0 <= j < |ts| ==> ts[j].Data() == stored[j]
    ensures Snapshot(ts + ps) == stored + AssignIds(written, first)
  {
    SnapshotAppend(ts, ps);
    assert Snapshot(ts) == stored;
    assert Snapshot(ps) == AssignIds(written, first);
  }
}
