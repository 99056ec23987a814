/**
 The PostgreSQL event store (cqrs/impl/pg/event_store.go): a table of rows whose only guard against
 concurrent writers is the unique key (aggregate_id, version) of pg/migrate.go.
 */
module PgEventStore {
  import opened Wrappers

  datatype Row<E> = Row(aggregateId: string, version: int, event: E)

  predicate HasKey<E>(rows: seq<Row<E>>, id: string, version: int) {
    exists i | 0 <= i < |rows| :: rows[i].aggregateId == id && rows[i].version == version
  }

  /** The loop of inserts from event i on; None is a unique violation. */
  function InsertFrom<E>(
      rows: seq<Row<E>>, batch: seq<E>, i: nat, expectedVersion: int, idOf: E -> string): Option<seq<Row<E>>>
    requires i <= |batch|
    decreases |batch| - i
  {
    if i == |batch| then Some(rows)
    else
      var row := Row(idOf(batch[i]), expectedVersion + i + 1, batch[i]);
      if HasKey(rows, row.aggregateId, row.version) then None
      else InsertFrom(rows + [row], batch, i + 1, expectedVersion, idOf)
  }

  /** The rows when the loop of inserts ends, at a unique violation or after the last event. */
  function InsertedFrom<E>(
      rows: seq<Row<E>>, batch: seq<E>, i: nat, expectedVersion: int, idOf: E -> string): seq<Row<E>>
    requires i <= |batch|
    decreases |batch| - i
  {
    if i == |batch| then rows
    else
      var row := Row(idOf(batch[i]), expectedVersion + i + 1, batch[i]);
      if HasKey(rows, row.aggregateId, row.version) then rows
      else InsertedFrom(rows + [row], batch, i + 1, expectedVersion, idOf)
  }

  /** A loop that gets to its end inserts everything; one that does not leaves a proper part of the batch. */
  lemma {:induction false} InsertedIsAllOrPart<E>(
      rows: seq<Row<E>>, batch: seq<E>, i: nat, expectedVersion: int, idOf: E -> string)
    requires i <= |batch|
    ensures var r, inserted := InsertFrom(rows, batch, i, expectedVersion, idOf),
        InsertedFrom(rows, batch, i, expectedVersion, idOf);
            && rows <= inserted
            && (r.Some? ==> inserted == r.value && |inserted| == |rows| + |batch| - i)
            && (r.None? ==> |inserted| < |rows| + |batch| - i)
    decreases |batch| - i
  {
    if i < |batch| {
      var row := Row(idOf(batch[i]), expectedVersion + i + 1, batch[i]);
      if !HasKey(rows, row.aggregateId, row.version) {
        InsertedIsAllOrPart(rows + [row], batch, i + 1, expectedVersion, idOf);
      }
    }
  }

  /** The row of event i of a batch. */
  function RowOf<E>(batch: seq<E>, i: nat, expectedVersion: int, idOf: E -> string): Row<E>
    requires i < |batch|
  {
    Row(idOf(batch[i]), expectedVersion + 1 + i, batch[i])
  }

  ghost predicate KeyIsTaken<E>(rows: seq<Row<E>>, batch: seq<E>, i: nat, expectedVersion: int, idOf: E -> string)
    requires i < |batch|
  {
    HasKey(rows, idOf(batch[i]), expectedVersion + 1 + i)
  }

  lemma KeysOfLongerRows<E>(rows: seq<Row<E>>, row: Row<E>, id: string, version: int)
    ensures HasKey(rows + [row], id, version) <==>
            HasKey(rows, id, version) || (row.aggregateId == id && row.version == version)
  {
    var longer := rows + [row];
    if HasKey(rows, id, version) {
      var i :| 0 <= i < |rows| && rows[i].aggregateId == id && rows[i].version == version;
      assert longer[i] == rows[i];
    }
    assert longer[|rows|] == row;
  }

  /**
   On any rows and any batch: the inserts succeed exactly when no event's own key is taken, and then add
   the events in order, each under its own id with the next version. Nothing compares the expected version
   with the length of the stream.
   */
  lemma {:induction false} InsertsExactly<E>(
      rows: seq<Row<E>>, batch: seq<E>, i: nat, expectedVersion: int, idOf: E -> string)
    requires i <= |batch|
    ensures var r := InsertFrom(rows, batch, i, expectedVersion, idOf);
            && (r.Some? <==> forall j | i <= j < |batch| :: !KeyIsTaken(rows, batch, j, expectedVersion, idOf))
            && (r.Some? ==>
                  && |r.value| == |rows| + |batch| - i && rows <= r.value
                  && forall j | i <= j < |batch| :: r.value[|rows| + j - i] == RowOf(batch, j, expectedVersion, idOf))
    decreases |batch| - i
  {
    if i < |batch| {
      var row := RowOf(batch, i, expectedVersion, idOf);
      if KeyIsTaken(rows, batch, i, expectedVersion, idOf) {
        assert HasKey(rows, row.aggregateId, row.version);
      } else {
        InsertsExactly(rows + [row], batch, i + 1, expectedVersion, idOf);
        forall j | i < j < |batch|
          ensures KeyIsTaken(rows + [row], batch, j, expectedVersion, idOf)
                  == KeyIsTaken(rows, batch, j, expectedVersion, idOf)
        {
          KeysOfLongerRows(rows, row, idOf(batch[j]), expectedVersion + 1 + j);
        }
      }
    }
  }

  /** The loop inserts the rows of exactly the events before the first one whose key is taken. */
  lemma {:induction false} InsertsUpToTheViolation<E>(
      rows: seq<Row<E>>, batch: seq<E>, i: nat, expectedVersion: int, idOf: E -> string)
    requires i <= |batch|
    ensures var inserted := InsertedFrom(rows, batch, i, expectedVersion, idOf);
            var n := |inserted| - |rows|;
            && 0 <= n <= |batch| - i && rows <= inserted
            && (forall j | i <= j < i + n ::
                  !KeyIsTaken(rows, batch, j, expectedVersion, idOf)
                  && inserted[|rows| + j - i] == RowOf(batch, j, expectedVersion, idOf))
            && (i + n < |batch| ==> KeyIsTaken(rows, batch, i + n, expectedVersion, idOf))
    decreases |batch| - i
  {
    if i < |batch| {
      var row := RowOf(batch, i, expectedVersion, idOf);
      if KeyIsTaken(rows, batch, i, expectedVersion, idOf) {
        assert HasKey(rows, row.aggregateId, row.version);
      } else {
        InsertsUpToTheViolation(rows + [row], batch, i + 1, expectedVersion, idOf);
        forall j | i < j < |batch|
          ensures KeyIsTaken(rows + [row], batch, j, expectedVersion, idOf)
                  == KeyIsTaken(rows, batch, j, expectedVersion, idOf)
        {
          KeysOfLongerRows(rows, row, idOf(batch[j]), expectedVersion + 1 + j);
        }
      }
    }
  }

  /** Append in a transaction of its own: a violation undoes the rows inserted before it. */
  function AfterAppend<E>(rows: seq<Row<E>>, expectedVersion: int, batch: seq<E>, idOf: E -> string): seq<Row<E>> {
    match InsertFrom(rows, batch, 0, expectedVersion, idOf)
    case Some(inserted) => inserted
    case None => rows
  }

  /** WHERE aggregate_id = id AND version > afterVersion, over the first n rows. */
  function Matching<E>(rows: seq<Row<E>>, n: nat, id: string, afterVersion: int): seq<Row<E>>
    requires n <= |rows|
  {
    if n == 0 then []
    else
      var row := rows[n - 1];
      Matching(rows, n - 1, id, afterVersion)
      + (if row.aggregateId == id && row.version > afterVersion then [row] else [])
  }

  function InsertByVersion<E>(sorted: seq<Row<E>>, row: Row<E>): seq<Row<E>> {
    if sorted == [] || sorted[|sorted| - 1].version <= row.version then sorted + [row]
    else InsertByVersion(sorted[..|sorted| - 1], row) + [sorted[|sorted| - 1]]
  }

  /** ORDER BY version */
  function OrderByVersion<E>(rows: seq<Row<E>>): seq<Row<E>> {
    if rows == [] then []
    else InsertByVersion(OrderByVersion(rows[..|rows| - 1]), rows[|rows| - 1])
  }

  function Payloads<E>(rows: seq<Row<E>>): (events: seq<E>)
    ensures |events| == |rows|
    ensures forall i | 0 <= i < |rows| :: events[i] == rows[i].event
  {
    if rows == [] then [] else Payloads(rows[..|rows| - 1]) + [rows[|rows| - 1].event]
  }

  function Load<E>(rows: seq<Row<E>>, id: string, afterVersion: int): seq<E> {
    Payloads(OrderByVersion(Matching(rows, |rows|, id, afterVersion)))
  }

  // ---------------------------------------------------------------- contiguous streams

  /** The rows of the aggregate are those of a stream with versions 1..n, inserted in order. */
  ghost predicate Holds<E>(rows: seq<Row<E>>, id: string, stream: seq<E>) {
    var own := Own(rows, |rows|, id);
    |own| == |stream| && forall i | 0 <= i < |stream| :: own[i] == Row(id, i + 1, stream[i])
  }

  function Own<E>(rows: seq<Row<E>>, n: nat, id: string): seq<Row<E>>
    requires n <= |rows|
  {
    if n == 0 then []
    else Own(rows, n - 1, id) + (if rows[n - 1].aggregateId == id then [rows[n - 1]] else [])
  }

  lemma {:induction false} OwnIgnoresTheRest<E>(rows: seq<Row<E>>, row: Row<E>, n: nat, id: string)
    requires n <= |rows|
    ensures Own(rows + [row], n, id) == Own(rows, n, id)
  {
    if n > 0 { OwnIgnoresTheRest(rows, row, n - 1, id); }
  }

  lemma OwnGrows<E>(rows: seq<Row<E>>, row: Row<E>, id: string)
    ensures Own(rows + [row], |rows| + 1, id) ==
              Own(rows, |rows|, id) + (if row.aggregateId == id then [row] else [])
  {
    OwnIgnoresTheRest(rows, row, |rows|, id);
  }

  lemma {:induction false} OwnHasExactlyTheKeys<E>(rows: seq<Row<E>>, n: nat, id: string)
    requires n <= |rows|
    ensures forall row :: row in Own(rows, n, id) <==> row in rows[..n] && row.aggregateId == id
  {
    if n > 0 {
      OwnHasExactlyTheKeys(rows, n - 1, id);
      assert rows[..n] == rows[..n - 1] + [rows[n - 1]];
    }
  }

  lemma KeysAre1ToN<E>(rows: seq<Row<E>>, id: string, stream: seq<E>, version: int)
    requires Holds(rows, id, stream)
    ensures HasKey(rows, id, version) <==> 1 <= version <= |stream|
  {
    OwnHasExactlyTheKeys(rows, |rows|, id);
    assert rows[..|rows|] == rows;
    var own := Own(rows, |rows|, id);
    if HasKey(rows, id, version) {
      var i :| 0 <= i < |rows| && rows[i].aggregateId == id && rows[i].version == version;
      assert rows[i] in own;
    }
    if 1 <= version <= |stream| {
      assert own[version - 1] in own;
      assert own[version - 1] in rows;
    }
  }

  lemma {:induction false} InsertFromExtends<E>(
      rows: seq<Row<E>>, id: string, stream: seq<E>, batch: seq<E>, i: nat, idOf: E -> string)
    requires i <= |batch| && i <= |stream| && forall j | 0 <= j < |batch| :: idOf(batch[j]) == id
    requires Holds(rows, id, stream)
    ensures var r := InsertFrom(rows, batch, i, |stream| - i, idOf);
            && r.Some? && Holds(r.value, id, stream + batch[i..])
            && forall other | other != id :: Own(r.value, |r.value|, other) == Own(rows, |rows|, other)
    decreases |batch| - i
  {
    if i < |batch| {
      var row := Row(id, |stream| + 1, batch[i]);
      KeysAre1ToN(rows, id, stream, |stream| + 1);
      OwnGrows(rows, row, id);
      forall other | other != id ensures Own(rows + [row], |rows| + 1, other) == Own(rows, |rows|, other) {
        OwnGrows(rows, row, other);
      }
      InsertFromExtends(rows + [row], id, stream + [batch[i]], batch, i + 1, idOf);
      assert stream + [batch[i]] + batch[i + 1..] == stream + batch[i..];
    } else {
      assert stream + batch[i..] == stream;
    }
  }

  /**
   On a contiguous stream a nonempty batch of one aggregate, expected at a version that the stream has
   reached, is accepted exactly when that version is the last; then it extends the stream.
   */
  lemma AppendChecksTheVersion<E>(
      rows: seq<Row<E>>, id: string, stream: seq<E>, expectedVersion: int, batch: seq<E>, idOf: E -> string)
    requires Holds(rows, id, stream) && 0 <= expectedVersion <= |stream| && batch != []
    requires forall j | 0 <= j < |batch| :: idOf(batch[j]) == id
    ensures InsertFrom(rows, batch, 0, expectedVersion, idOf).Some? <==> expectedVersion == |stream|
    ensures var rows' := AfterAppend(rows, expectedVersion, batch, idOf);
            && Holds(rows', id, if expectedVersion == |stream| then stream + batch else stream)
            && forall other | other != id :: Own(rows', |rows'|, other) == Own(rows, |rows|, other)
  {
    if expectedVersion == |stream| {
      InsertFromExtends(rows, id, stream, batch, 0, idOf);
      assert batch[0..] == batch;
    } else {
      KeysAre1ToN(rows, id, stream, expectedVersion + 1);
    }
  }

  ghost predicate VersionsAscend<E>(rows: seq<Row<E>>) {
    forall i, j | 0 <= i < j < |rows| :: rows[i].version < rows[j].version
  }

  lemma {:induction false} OrderedAlready<E>(rows: seq<Row<E>>)
    requires VersionsAscend(rows)
    ensures OrderByVersion(rows) == rows
  {
    if rows != [] {
      var n := |rows| - 1;
      var front, last := rows[..n], rows[n];
      OrderedAlready(front);
      AppendsAtTheEnd(front, last);
      assert rows == front + [last];
    }
  }

  lemma AppendsAtTheEnd<E>(sorted: seq<Row<E>>, row: Row<E>)
    requires forall i | 0 <= i < |sorted| :: sorted[i].version <= row.version
    ensures InsertByVersion(sorted, row) == sorted + [row]
  {
  }

  ghost predicate SortedByVersion<E>(rows: seq<Row<E>>) {
    forall i, j | 0 <= i < j < |rows| :: rows[i].version <= rows[j].version
  }

  ghost predicate AtMost<E>(rows: seq<Row<E>>, version: int) {
    forall i | 0 <= i < |rows| :: rows[i].version <= version
  }

  lemma SortedWithLast<E>(front: seq<Row<E>>, last: Row<E>)
    requires SortedByVersion(front) && AtMost(front, last.version)
    ensures SortedByVersion(front + [last])
  {
  }

  lemma {:induction false} InsertKeepsSorted<E>(sorted: seq<Row<E>>, row: Row<E>, version: int)
    requires SortedByVersion(sorted) && AtMost(sorted, version) && row.version <= version
    ensures SortedByVersion(InsertByVersion(sorted, row)) && AtMost(InsertByVersion(sorted, row), version)
    decreases |sorted|
  {
    if sorted == [] || sorted[|sorted| - 1].version <= row.version {
      SortedWithLast(sorted, row);
    } else {
      var front, last := sorted[..|sorted| - 1], sorted[|sorted| - 1];
      InsertKeepsSorted(front, row, last.version);
      SortedWithLast(InsertByVersion(front, row), last);
    }
  }

  lemma {:induction false} InsertKeepsRows<E>(sorted: seq<Row<E>>, row: Row<E>)
    ensures multiset(InsertByVersion(sorted, row)) == multiset(sorted) + multiset{row}
    decreases |sorted|
  {
    if sorted != [] && sorted[|sorted| - 1].version > row.version {
      InsertKeepsRows(sorted[..|sorted| - 1], row);
      assert sorted == sorted[..|sorted| - 1] + [sorted[|sorted| - 1]];
    }
  }

  /** Any rows come back by version, none lost and none added. */
  lemma {:induction false} OrderedByVersion<E>(rows: seq<Row<E>>)
    ensures SortedByVersion(OrderByVersion(rows)) && multiset(OrderByVersion(rows)) == multiset(rows)
  {
    if rows != [] {
      var front, last := rows[..|rows| - 1], rows[|rows| - 1];
      OrderedByVersion(front);
      var sorted := OrderByVersion(front);
      var top := if sorted == [] || sorted[|sorted| - 1].version <= last.version then last.version
                 else sorted[|sorted| - 1].version;
      InsertKeepsSorted(sorted, last, top);
      InsertKeepsRows(sorted, last);
      assert rows == front + [last];
    }
  }

  /** The filter takes the tail of the aggregate's own rows. */
  lemma {:induction false} MatchingIsATail<E>(rows: seq<Row<E>>, n: nat, id: string, afterVersion: int)
    requires n <= |rows| && forall i | 0 <= i < |Own(rows, n, id)| :: Own(rows, n, id)[i].version == i + 1
    ensures var own := Own(rows, n, id);
            var skip := if afterVersion < 0 then 0 else if afterVersion < |own| then afterVersion else |own|;
            Matching(rows, n, id, afterVersion) == own[skip..]
  {
    if n > 0 {
      var before, own := Own(rows, n - 1, id), Own(rows, n, id);
      assert forall i | 0 <= i < |before| :: own[i] == before[i];
      MatchingIsATail(rows, n - 1, id, afterVersion);
      if rows[n - 1].aggregateId == id { assert own[|before|] == rows[n - 1]; }
    }
  }

  lemma TailIsOrdered<E>(own: seq<Row<E>>, id: string, stream: seq<E>, skip: nat)
    requires |own| == |stream| && forall i | 0 <= i < |stream| :: own[i] == Row(id, i + 1, stream[i])
    requires skip <= |own|
    ensures OrderByVersion(own[skip..]) == own[skip..]
    ensures Payloads(own[skip..]) == stream[skip..]
  {
    var found := own[skip..];
    forall i, j | 0 <= i < j < |found| ensures found[i].version < found[j].version {
      assert found[i] == own[skip + i] && found[j] == own[skip + j];
    }
    OrderedAlready(found);
  }

  /** Loading a contiguous stream after a version gives the rest of the stream in order. */
  lemma LoadGivesTheRest<E>(rows: seq<Row<E>>, id: string, stream: seq<E>, afterVersion: int)
    requires Holds(rows, id, stream)
    ensures var skip := if afterVersion < 0 then 0 else if afterVersion < |stream| then afterVersion else |stream|;
            Load(rows, id, afterVersion) == stream[skip..]
  {
    var skip := if afterVersion < 0 then 0 else if afterVersion < |stream| then afterVersion else |stream|;
    MatchingIsATail(rows, |rows|, id, afterVersion);
    TailIsOrdered(Own(rows, |rows|, id), id, stream, skip);
  }

  // ---------------------------------------------------------------- the store's methods

  class EventSourceStore<E> {
    const idOf: E -> string
    var rows: seq<Row<E>>

    constructor (idOf: E -> string)
      ensures this.idOf == idOf && rows == []
    {
      this.idOf := idOf;
      rows := [];
    }

    /**
     In a transaction of its own a violation undoes the rows before it. In a transaction of the caller,
     `ambient`, undoing them is left to the caller's rollback.
     */
    method Append(aggregateID: string, expectedVersion: int, batch: seq<E>, ambient: bool) returns (nil: bool)
      modifies this
      ensures nil == InsertFrom(old(rows), batch, 0, expectedVersion, idOf).Some?
      ensures !ambient ==> rows == AfterAppend(old(rows), expectedVersion, batch, idOf)
      ensures !ambient && !nil ==> rows == old(rows)
      ensures ambient ==> rows == InsertedFrom(old(rows), batch, 0, expectedVersion, idOf)
    {
      if ambient {
        nil := AppendEvents(expectedVersion, batch);
        return;
      }
      var begun := rows;
      nil := AppendEvents(expectedVersion, batch);
      if !nil { rows := begun; }
      InsertedIsAllOrPart(begun, batch, 0, expectedVersion, idOf);
    }

    /** The loop of inserts; on a violation the rows before it stay until the transaction is undone. */
    method AppendEvents(expectedVersion: int, batch: seq<E>) returns (nil: bool)
      modifies this
      ensures nil == InsertFrom(old(rows), batch, 0, expectedVersion, idOf).Some?
      ensures rows == InsertedFrom(old(rows), batch, 0, expectedVersion, idOf)
    {
      var i := 0;
      while i < |batch|
        invariant i <= |batch|
        invariant InsertFrom(old(rows), batch, 0, expectedVersion, idOf)
            == InsertFrom(rows, batch, i, expectedVersion, idOf)
        invariant InsertedFrom(old(rows), batch, 0, expectedVersion, idOf)
            == InsertedFrom(rows, batch, i, expectedVersion, idOf)
      {
        var row := Row(idOf(batch[i]), expectedVersion + i + 1, batch[i]);
        if HasKey(rows, row.aggregateId, row.version) { return false; }
        rows := rows + [row];
        i := i + 1;
      }
      nil := true;
    }

    method LoadEvents(aggregateID: string, afterVersion: int) returns (result: seq<E>)
      ensures result == Load(rows, aggregateID, afterVersion)
    {
      var found := OrderByVersion(Matching(rows, |rows|, aggregateID, afterVersion));
      result := [];
      var i := 0;
      while i < |found|
        invariant i <= |found| && result == Payloads(found)[..i]
      {
        result := result + [found[i].event];
        i := i + 1;
      }
    }
  }
}
