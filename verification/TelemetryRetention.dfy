/** Retention of old telemetry rows: every call sweeps a few resources of one table, starting after
    a stored cursor, and starts over when it reaches the end. */
module TelemetryRetention {
  import opened Options
  import opened Sql

  type Pk = nat

  /** A row of the table, named by its primary key. */
  datatype Row = Row(resource: Pk, time: int)

  /** The row of `retention_cursors` for this table. */
  datatype Cursor = Cursor(resource: Pk, time: int)

  /** Resources have positive keys; 0 is the cursor before the first. */
  datatype Store = Store(resources: set<Pk>, rows: set<Row>, cursor: Option<Cursor>)

  function CursorOf(db: Store): Pk {
    if db.cursor.Some? then db.cursor.value.resource else 0
  }

  function TimeOf(db: Store): int {
    if db.cursor.Some? then db.cursor.value.time else 0
  }

  function OldRowsOf(rows: set<Row>, resource: Pk, cutoff: int): set<Row> {
    set row | row in rows && row.resource == resource && row.time < cutoff
  }

  /** What retention is for. */
  function OldRows(db: Store, cutoff: int): set<Row> {
    set row | row in db.rows && row.resource in db.resources && row.time < cutoff
  }

  function Ahead(db: Store, cursor: Pk): set<Pk> {
    set r | r in db.resources && r > cursor
  }

  ghost predicate WorkAhead(db: Store, cutoff: int) {
    exists row | row in OldRows(db, cutoff) :: row.resource > CursorOf(db)
  }

  /** How far the cursor is from a resource with old rows, going round once if need be. */
  ghost function Distance(db: Store, cutoff: int): nat {
    |Ahead(db, CursorOf(db))| + if WorkAhead(db, cutoff) then 0 else |db.resources| + 1
  }

  function PkRank(all: set<Pk>): map<Pk, Rank> {
    map r | r in all :: (r, 0)
  }

  function TimeRank(rows: set<Row>): map<Row, Rank> {
    map row | row in rows :: (row.time, 0)
  }

  class Retention {
    const resourceBatch: nat
    const rowBatch: nat
    var db: Store

    constructor (resourceBatch: nat, rowBatch: nat, db: Store)
      requires resourceBatch >= 1 && rowBatch >= 1
      ensures this.resourceBatch == resourceBatch && this.rowBatch == rowBatch && this.db == db
    {
      this.resourceBatch, this.rowBatch, this.db := resourceBatch, rowBatch, db;
    }

    /** `deleteResourceRows`: the oldest first. */
    method DeleteResourceRows(resource: Pk, cutoff: int) returns (changes: nat)
      modifies this
      ensures db == old(db).(rows := db.rows) && db.rows <= old(db).rows
      ensures forall row | row in old(db).rows && row !in db.rows :: row.resource == resource && row.time < cutoff
      ensures changes == |old(db).rows| - |db.rows|
      ensures changes <= rowBatch
      ensures changes < rowBatch ==> forall row | row in db.rows && row.resource == resource :: row.time >= cutoff
      ensures forall row, kept | row in old(db).rows && row !in db.rows && kept in db.rows && kept.resource == resource ::
        row.time <= kept.time
    {
      var found := OldRowsOf(db.rows, resource, cutoff);
      var first := SelectFirst(found, TimeRank(found), rowBatch);
      DistinctSize(first);
      if |first| < rowBatch { AllChosen(found, TimeRank(found), rowBatch, first); }
      SubsetSizeLe(Elements(first), db.rows);
      changes := |first|;
      forall row, kept | row in first && kept in found && kept !in first ensures row.time <= kept.time {
        assert RankLe(TimeRank(found)[row], TimeRank(found)[kept]);
      }
      db := db.(rows := db.rows - Elements(first));
    }

    /** `cleanTelemetryTarget`. */
    method CleanTelemetryTarget(cutoff: int) returns (deleted: nat)
      requires resourceBatch >= 1 && rowBatch >= 1 && forall r | r in db.resources :: r > 0
      modifies this
      ensures db.resources == old(db).resources && db.rows <= old(db).rows
      ensures forall row | row in old(db).rows && row !in db.rows :: row in OldRows(old(db), cutoff)
      ensures deleted == |old(db).rows| - |db.rows|
      ensures db.cursor.Some? && (db.cursor.value.time == cutoff || db.cursor.value.time == TimeOf(old(db)))
      ensures CursorOf(db) != CursorOf(old(db)) ==> db.cursor.value.time == cutoff
      ensures deleted == 0 && OldRows(old(db), cutoff) != {} ==>
        db.rows == old(db).rows && Distance(db, cutoff) < Distance(old(db), cutoff)
    {
      ghost var before := db;
      var previous := CursorOf(db);
      var ahead := Ahead(db, previous);
      var resources := SelectFirst(ahead, PkRank(ahead), resourceBatch);
      var next, time, filled, i := previous, TimeOf(db), false, 0;
      deleted := 0;
      while i < |resources| && !filled
        invariant 0 <= i <= |resources|
        invariant db == before.(rows := db.rows) && db.rows <= before.rows
        invariant forall row | row in before.rows && row !in db.rows :: row in OldRows(before, cutoff)
        invariant deleted == |before.rows| - |db.rows|
        invariant filled ==> deleted > 0
        invariant time == cutoff || (time == TimeOf(before) && next == previous)
        invariant !filled ==> next == if i == 0 then previous else resources[i - 1]
        invariant !filled ==> forall k | 0 <= k < i :: OldRowsOf(db.rows, resources[k], cutoff) == {}
        decreases |resources| - i, !filled
      {
        assert resources[i] in resources;
        var changes := DeleteResourceRows(resources[i], cutoff);
        deleted := deleted + changes;
        if changes >= rowBatch {
          filled := true;
        } else {
          next := resources[i];
          time := cutoff;
          i := i + 1;
        }
      }
      if !filled && |resources| < resourceBatch {
        next := 0;
        time := cutoff;
      }
      db := db.(cursor := Some(Cursor(next, time)));
      if deleted == 0 && OldRows(before, cutoff) != {} {
        NothingDeleted(before, db.rows);
        NothingFound(before, cutoff, resources, resourceBatch, next);
        assert db == before.(cursor := db.cursor);
        SameDistance(db, before.(cursor := Some(Cursor(next, 0))), cutoff);
      }
    }

    /** With a fixed cutoff and no new rows, repeated calls come to an end: then every old row of a
        listed resource is gone, and no other row is. */
    method CleanAll(cutoff: int)
      requires resourceBatch >= 1 && rowBatch >= 1 && forall r | r in db.resources :: r > 0
      modifies this
      ensures db.resources == old(db).resources
      ensures db.rows == old(db).rows - OldRows(old(db), cutoff)
      ensures forall row :: row in db.rows <==>
        row in old(db).rows && (row.resource !in old(db).resources || row.time >= cutoff)
    {
      ghost var before := db;
      while OldRows(db, cutoff) != {}
        invariant db.resources == before.resources && db.rows <= before.rows
        invariant forall row | row in before.rows && row !in db.rows :: row in OldRows(before, cutoff)
        decreases |db.rows|, Distance(db, cutoff)
      {
        ghost var now := db;
        var deleted := CleanTelemetryTarget(cutoff);
        SubsetSizeLe(db.rows, now.rows);
      }
      assert forall row | row in OldRows(before, cutoff) :: row !in db.rows || row in OldRows(db, cutoff);
    }
  }

  lemma NothingDeleted(before: Store, rows: set<Row>)
    requires rows <= before.rows && |rows| == |before.rows|
    ensures rows == before.rows
  {
    SubsetSizeLe(rows, before.rows);
    assert before.rows == rows + (before.rows - rows);
  }

  lemma SameDistance(db: Store, db': Store, cutoff: int)
    requires db.rows == db'.rows && db.resources == db'.resources && CursorOf(db) == CursorOf(db')
    ensures Distance(db, cutoff) == Distance(db', cutoff)
  {
    assert OldRows(db, cutoff) == OldRows(db', cutoff);
    assert Ahead(db, CursorOf(db)) == Ahead(db', CursorOf(db'));
  }

  /** A sweep that finds nothing gets closer to the old rows there are. */
  lemma NothingFound(db: Store, cutoff: int, swept: seq<Pk>, limit: nat, next: Pk)
    requires limit >= 1 && forall r | r in db.resources :: r > 0
    requires FirstByRank(Ahead(db, CursorOf(db)), PkRank(Ahead(db, CursorOf(db))), limit, swept)
    requires OldRows(db, cutoff) != {}
    requires forall k | 0 <= k < |swept| :: OldRowsOf(db.rows, swept[k], cutoff) == {}
    requires next == if |swept| < limit then 0 else swept[|swept| - 1]
    ensures Distance(db.(cursor := Some(Cursor(next, 0))), cutoff) < Distance(db, cutoff)
  {
    var moved := db.(cursor := Some(Cursor(next, 0)));
    var ahead := Ahead(db, CursorOf(db));
    assert OldRows(moved, cutoff) == OldRows(db, cutoff);
    forall r | r in swept ensures OldRowsOf(db.rows, r, cutoff) == {} {
      var k :| 0 <= k < |swept| && swept[k] == r;
    }
    if |swept| < limit {
      AllChosen(ahead, PkRank(ahead), limit, swept);
      NoneAheadWrapped(db, moved, cutoff, swept);
    } else {
      assert next in swept;
      AheadShrinks(db, moved, next);
      StillAhead(db, moved, cutoff, swept);
    }
  }

  lemma AheadShrinks(db: Store, moved: Store, next: Pk)
    requires moved == db.(cursor := moved.cursor) && CursorOf(moved) == next && next in Ahead(db, CursorOf(db))
    ensures |Ahead(moved, next)| < |Ahead(db, CursorOf(db))|
  {
    assert Ahead(moved, next) < Ahead(db, CursorOf(db));
    SubsetSize(Ahead(moved, next), Ahead(db, CursorOf(db)));
  }

  lemma NoneAheadWrapped(db: Store, moved: Store, cutoff: int, swept: seq<Pk>)
    requires moved == db.(cursor := moved.cursor) && CursorOf(moved) == 0 && forall r | r in db.resources :: r > 0
    requires Elements(swept) == Ahead(db, CursorOf(db)) && OldRows(db, cutoff) != {}
    requires forall r | r in swept :: OldRowsOf(db.rows, r, cutoff) == {}
    ensures Distance(moved, cutoff) < Distance(db, cutoff)
  {
    forall row | row in OldRows(db, cutoff) ensures row.resource <= CursorOf(db) {
      assert row in OldRowsOf(db.rows, row.resource, cutoff);
      assert row.resource !in Elements(swept);
    }
    var row :| row in OldRows(db, cutoff);
    assert row in OldRows(moved, cutoff);
    SubsetSizeLe(Ahead(moved, 0), db.resources);
  }

  lemma StillAhead(db: Store, moved: Store, cutoff: int, swept: seq<Pk>)
    requires moved == db.(cursor := moved.cursor) && swept != [] && CursorOf(moved) == swept[|swept| - 1]
    requires FirstByRank(Ahead(db, CursorOf(db)), PkRank(Ahead(db, CursorOf(db))), |swept|, swept)
    requires forall r | r in swept :: OldRowsOf(db.rows, r, cutoff) == {}
    ensures WorkAhead(moved, cutoff) == WorkAhead(db, cutoff)
  {
    var last := swept[|swept| - 1];
    assert last in swept;
    assert OldRows(moved, cutoff) == OldRows(db, cutoff);
    forall row | row in OldRows(db, cutoff) && row.resource > CursorOf(db) ensures row.resource > last {
      assert row in OldRowsOf(db.rows, row.resource, cutoff);
      assert row.resource !in swept;
      assert row.resource in Ahead(db, CursorOf(db));
    }
  }
}
