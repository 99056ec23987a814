/**
 The event-sourced repository with snapshots (infra/repository/pg/repository.go) over the PostgreSQL
 event store. All aggregates of one repository are of one type, so a snapshot row is found by its id.
 */
module SnapshotRepository {
  import opened Wrappers
  import opened Aggregates
  import PgEventStore

  datatype Serializer<!S, !B> = Serializer(serialize: S -> B, deserialize: B -> Option<S>)

  /** A row of ddd_aggregate_snapshots; aggregate_id is the table's primary key. */
  datatype Snapshot<B> = Snapshot(data: B, version: int)

  datatype Backend<E, B> = Backend(rows: seq<PgEventStore.Row<E>>, snapshots: map<string, Snapshot<B>>)

  datatype SaveError = NoError | AppendConflict | OptimisticLockError

  datatype Saved<S, E, B> = Saved(db: Backend<E, B>, agg: Agg<S, E>, error: SaveError)

  /** The broken ones are a snapshot that does not deserialize and a history with an unhandled event. */
  datatype LoadError = NoLoadError | MissingError | BrokenError

  datatype Loaded<S, E> = Found(agg: Agg<S, E>) | NotFound | Broken

  /** Insert when the aggregate has no snapshot, otherwise update the row of the version it knows. */
  function SaveSnapshot<S, E, B>(z: Serializer<S, B>, db: Backend<E, B>, a: Agg<S, E>): Saved<S, E, B> {
    var row := Snapshot(z.serialize(a.state), a.version);
    var written := db.(snapshots := db.snapshots[a.id := row]);
    if a.snapshotVersion < 0 then
      if a.id in db.snapshots then Saved(db, a, OptimisticLockError)
      else Saved(written, SetSnapshotVersion(a, a.version), NoError)
    else if a.id in db.snapshots && db.snapshots[a.id].version == a.snapshotVersion then
      Saved(written, SetSnapshotVersion(a, a.version), NoError)
    else
      Saved(db, a, OptimisticLockError)
  }

  predicate SnapshotDue(version: int, snapshotEvery: int) {
    snapshotEvery > 0 && version % snapshotEvery == 0
  }

  /** Without an ambient transaction: a failed snapshot write leaves the appended events in place. */
  function Save<S, E, B>(
      d: Domain<S, E>, z: Serializer<S, B>, snapshotEvery: int, db: Backend<E, B>, a: Agg<S, E>): Saved<S, E, B>
  {
    if a.uncommitted == [] then Saved(db, a, NoError)
    else
      match PgEventStore.InsertFrom(db.rows, a.uncommitted, 0, ExpectedVersion(a), d.idOf)
      case None => Saved(db, a, AppendConflict)
      case Some(rows) =>
        var appended := db.(rows := rows);
        var r := if SnapshotDue(a.version, snapshotEvery) then SaveSnapshot(z, appended, a)
                 else Saved(appended, a, NoError);
        if r.error == NoError then r.(agg := MarkEventsAsCommitted(r.agg)) else r
  }

  /** The aggregate to start from and the version after which events are loaded. */
  function Baseline<S, E, B>(d: Domain<S, E>, z: Serializer<S, B>, db: Backend<E, B>, id: string): Option<Agg<S, E>> {
    if id !in db.snapshots then Some(Fresh(d, id))
    else
      match z.deserialize(db.snapshots[id].data)
      case None => None
      case Some(state) => Some(SetSnapshotVersion(Agg(id, state, 0, -1, []), db.snapshots[id].version))
  }

  function Load<S, E, B>(d: Domain<S, E>, z: Serializer<S, B>, db: Backend<E, B>, id: string): Loaded<S, E> {
    match Baseline(d, z, db, id)
    case None => Broken
    case Some(start) =>
      var events := PgEventStore.Load(db.rows, id, start.snapshotVersion);
      if events == [] && start.snapshotVersion < 0 then NotFound
      else match LoadFromHistory(d, start, events)
           case None => Broken
           case Some(a) => Found(a)
  }

  // ---------------------------------------------------------------- when a snapshot is written

  function Times(q: int, n: int): int {
    q * n
  }

  ghost predicate IsMultiple(version: int, n: int) {
    exists q :: Times(q, n) == version
  }

  lemma DueIffMultiple(version: int, snapshotEvery: int)
    requires snapshotEvery > 0
    ensures SnapshotDue(version, snapshotEvery) <==> IsMultiple(version, snapshotEvery)
  {
    if SnapshotDue(version, snapshotEvery) {
      assert Times(version / snapshotEvery, snapshotEvery) == version;
    }
    if IsMultiple(version, snapshotEvery) {
      var q :| Times(q, snapshotEvery) == version;
      MultipleLeavesNothing(q, snapshotEvery);
    }
  }

  lemma MultipleLeavesNothing(q: int, n: int)
    requires n > 0
    ensures (q * n) % n == 0
  {
    var v := q * n;
    var p, r := v / n, v % n;
    assert v == p * n + r;
    assert (q - p) * n == r;
    OnlyZeroIsSmall(q - p, n);
  }

  lemma OnlyZeroIsSmall(k: int, n: int)
    requires n > 0 && 0 <= k * n < n
    ensures k * n == 0
  {
    assert k >= 1 ==> k * n >= n;
    assert k <= -1 ==> k * n <= -n;
  }

  /** The client may write the snapshot row: there is none and it knows of none, or it knows the stored one. */
  predicate KnowsTheSnapshot<S, E, B>(db: Backend<E, B>, a: Agg<S, E>) {
    if a.snapshotVersion < 0 then a.id !in db.snapshots
    else a.id in db.snapshots && db.snapshots[a.id].version == a.snapshotVersion
  }

  /**
   Save from the inputs: what is appended stays whatever the snapshot does; a snapshot of the new version
   is written exactly when the version is a multiple of snapshotEvery and the client knows the stored one;
   a client that does not gets an error and keeps its events as uncommitted.
   */
  lemma SaveExactly<S, E, B>(
      d: Domain<S, E>, z: Serializer<S, B>, snapshotEvery: int, db: Backend<E, B>, a: Agg<S, E>)
    requires a.uncommitted != [] && PgEventStore.InsertFrom(db.rows, a.uncommitted, 0, ExpectedVersion(a), d.idOf).Some?
    ensures var r := Save(d, z, snapshotEvery, db, a);
            var due := snapshotEvery > 0 && IsMultiple(a.version, snapshotEvery);
            var row := Snapshot(z.serialize(a.state), a.version);
            && r.db.rows == PgEventStore.InsertFrom(db.rows, a.uncommitted, 0, ExpectedVersion(a), d.idOf).value
            && r.db.snapshots == (if due && KnowsTheSnapshot(db, a) then db.snapshots[a.id := row] else db.snapshots)
            && r.error == (if due && !KnowsTheSnapshot(db, a) then OptimisticLockError else NoError)
            && r.agg == (if r.error != NoError then a
                         else a.(uncommitted := [], snapshotVersion := if due then a.version else a.snapshotVersion))
  {
    if snapshotEvery > 0 { DueIffMultiple(a.version, snapshotEvery); }
  }

  // ---------------------------------------------------------------- load from snapshot, or replay

  /** The serializer restores every domain state that it has written. */
  ghost predicate RoundTrips<S(!new), B>(z: Serializer<S, B>) {
    forall s :: z.deserialize(z.serialize(s)) == Some(s)
  }

  /** The version of the stored snapshot, -1 when there is none. */
  function StoredVersion<E, B>(db: Backend<E, B>, id: string): int {
    if id in db.snapshots then db.snapshots[id].version else -1
  }

  /** The stored snapshot is the replay of a nonempty prefix of the stream. */
  ghost predicate SnapshotOk<S, E, B>(
      d: Domain<S, E>, z: Serializer<S, B>, db: Backend<E, B>, id: string, stream: seq<E>)
  {
    id in db.snapshots ==>
      var snap := db.snapshots[id];
      && 1 <= snap.version <= |stream|
      && z.deserialize(snap.data) == Replay(d, d.blank(id), stream, snap.version)
  }

  /**
   Loading through a snapshot gives what replaying the whole stream on a fresh aggregate gives, in
   domain state and version; only the snapshot version tells the two apart.
   */
  lemma LoadEqualsReplay<S, E, B>(d: Domain<S, E>, z: Serializer<S, B>, db: Backend<E, B>, id: string, stream: seq<E>)
    requires PgEventStore.Holds(db.rows, id, stream) && SnapshotOk(d, z, db, id, stream)
    requires Replay(d, d.blank(id), stream, |stream|).Some?
    ensures Load(d, z, db, id) ==
              if stream == [] then NotFound
              else Found(LoadFromHistory(d, Fresh(d, id), stream).value.(snapshotVersion := StoredVersion(db, id)))
  {
    if id in db.snapshots {
      var v := db.snapshots[id].version;
      PgEventStore.LoadGivesTheRest(db.rows, id, stream, v);
      ReplayContinues(d, d.blank(id), stream, v, |stream|);
    } else {
      PgEventStore.LoadGivesTheRest(db.rows, id, stream, -1);
      assert stream[0..] == stream;
    }
  }

  // ---------------------------------------------------------------- the repository's methods

  class PgEventSourcedRepository<S, E, B> {
    const domain: Domain<S, E>
    const serializer: Serializer<S, B>
    const eventStore: PgEventStore.EventSourceStore<E>
    const snapshotEvery: int
    var snapshots: map<string, Snapshot<B>>

    constructor (
        domain: Domain<S, E>, serializer: Serializer<S, B>, eventStore: PgEventStore.EventSourceStore<E>,
        snapshotEvery: int)
      requires eventStore.idOf == domain.idOf
      ensures this.domain == domain && this.serializer == serializer && this.eventStore == eventStore
      ensures this.snapshotEvery == snapshotEvery && snapshots == map[]
    {
      this.domain, this.serializer, this.eventStore, this.snapshotEvery :=
          domain, serializer, eventStore, snapshotEvery;
      snapshots := map[];
    }

    ghost predicate Valid() {
      eventStore.idOf == domain.idOf
    }

    ghost function View(): Backend<E, B>
      reads this, eventStore
    {
      Backend(eventStore.rows, snapshots)
    }

    method SaveAggregate(agg: Aggregate<S, E>) returns (error: SaveError)
      requires Valid() && agg.domain == domain
      modifies this, eventStore, agg
      ensures Saved(View(), agg.View(), error) == Save(domain, serializer, snapshotEvery, old(View()), old(agg.View()))
      ensures error == NoError ==> agg.uncommittedEvents == []
      ensures error != NoError ==> agg.View() == old(agg.View()) && snapshots == old(snapshots)
      ensures error == AppendConflict ==> View() == old(View())
    {
      var domainEvents := agg.uncommittedEvents;
      if domainEvents == [] { return NoError; }
      var nil := eventStore.Append(agg.id, agg.version - |domainEvents|, domainEvents, false);
      if !nil { return AppendConflict; }
      if snapshotEvery > 0 && agg.version % snapshotEvery == 0 {
        error := WriteSnapshot(agg);
        if error != NoError { return; }
      }
      agg.MarkCommitted();
      error := NoError;
    }

    method WriteSnapshot(agg: Aggregate<S, E>) returns (error: SaveError)
      modifies this, agg
      ensures Saved(View(), agg.View(), error) == SaveSnapshot(serializer, old(View()), old(agg.View()))
      ensures error == NoError <==> old(KnowsTheSnapshot(View(), agg.View()))
      ensures error != NoError ==>
                && error == OptimisticLockError
                && View() == old(View()) && agg.View() == old(agg.View())
      ensures error == NoError ==>
                && snapshots == old(snapshots)[agg.id := Snapshot(serializer.serialize(agg.state), agg.version)]
                && agg.View() == old(agg.View()).(snapshotVersion := agg.version)
    {
      var data, newVersion := serializer.serialize(agg.state), agg.version;
      if agg.snapshotVersion < 0 {
        if agg.id in snapshots { return OptimisticLockError; }
      } else if agg.id !in snapshots || snapshots[agg.id].version != agg.snapshotVersion {
        return OptimisticLockError;
      }
      snapshots := snapshots[agg.id := Snapshot(data, newVersion)];
      agg.SetSnapshot(newVersion);
      error := NoError;
    }

    method LoadAggregate(id: string) returns (agg: Aggregate?<S, E>, error: LoadError)
      ensures agg != null ==> fresh(agg) && agg.domain == domain
      ensures id in snapshots && serializer.deserialize(snapshots[id].data).None? ==> error == BrokenError
      ensures match Load(domain, serializer, View(), id)
              case Found(a) => error == NoLoadError && agg != null && agg.View() == a
              case NotFound => error == MissingError && agg == null
              case Broken => error == BrokenError && agg == null
    {
      var found := new Aggregate(domain, id);
      var snapshotVersion := -1;
      if id in snapshots {
        var restored := serializer.deserialize(snapshots[id].data);
        if restored.None? { return null, BrokenError; }
        found := new Aggregate.Restored(domain, id, restored.value);
        found.SetSnapshot(snapshots[id].version);
        snapshotVersion := snapshots[id].version;
      }
      var events := eventStore.LoadEvents(id, snapshotVersion);
      if events == [] && snapshotVersion < 0 { return null, MissingError; }
      var nil := found.LoadHistory(events);
      if !nil { return null, BrokenError; }
      return found, NoLoadError;
    }
  }
}
