/**
 Any number of clients of the snapshotting repository, in any interleaving: each creates or loads
 aggregates, applies events locally and saves. Load and Save are atomic. A memory store receives the
 same Appends as the PostgreSQL store, so that the two can be compared.
 */
module ClientRuns {
  import opened Wrappers
  import opened Aggregates
  import SnapshotRepository
  import PgEventStore
  import MemoryEventStore

  type Backend<E, B> = SnapshotRepository.Backend<E, B>
  type Serializer<!S, !B> = SnapshotRepository.Serializer<S, B>

  /** `clients` are the aggregate objects that clients hold. */
  datatype World<S, E, B> = World(db: Backend<E, B>, mem: MemoryEventStore.Events<E>, clients: map<nat, Agg<S, E>>)

  /** An event carries the id of the aggregate it is applied to; otherwise the action is not one. */
  datatype Action<E> =
    | Create(c: nat, id: string, e: E)
    | Load(c: nat, id: string)
    | Issue(c: nat, e: E)
    | Save(c: nat, snapshotEvery: int)

  function Apply<S, E, B>(d: Domain<S, E>, w: World<S, E, B>, c: nat, a: Agg<S, E>, e: E): World<S, E, B> {
    match ApplyChange(d, a, e)
    case None => w
    case Some(changed) => w.(clients := w.clients[c := changed])
  }

  function SaveClient<S, E, B>(
      d: Domain<S, E>, z: Serializer<S, B>, w: World<S, E, B>, c: nat, snapshotEvery: int): World<S, E, B>
    requires c in w.clients
  {
    var a := w.clients[c];
    var r := SnapshotRepository.Save(d, z, snapshotEvery, w.db, a);
    var mem := if a.uncommitted == [] then w.mem
               else MemoryEventStore.AfterAppend(w.mem, a.id, ExpectedVersion(a), a.uncommitted, d.idOf);
    World(r.db, mem, w.clients[c := r.agg])
  }

  function Step<S, E, B>(d: Domain<S, E>, z: Serializer<S, B>, w: World<S, E, B>, action: Action<E>): World<S, E, B> {
    match action
    case Create(c, id, e) =>
      if d.idOf(e) == id && d.birth(e) then Apply(d, w, c, Fresh(d, id), e) else w
    case Load(c, id) =>
      (match SnapshotRepository.Load(d, z, w.db, id)
       case Found(a) => w.(clients := w.clients[c := a])
       case _ => w)
    case Issue(c, e) =>
      if c in w.clients && d.idOf(e) == w.clients[c].id && d.may(w.clients[c].state, e)
      then Apply(d, w, c, w.clients[c], e) else w
    case Save(c, snapshotEvery) =>
      if c in w.clients then SaveClient(d, z, w, c, snapshotEvery) else w
  }

  function Start<S, E, B>(): World<S, E, B> {
    World(SnapshotRepository.Backend([], map[]), MemoryEventStore.Empty(), map[])
  }

  function After<S, E, B>(d: Domain<S, E>, z: Serializer<S, B>, actions: seq<Action<E>>, k: nat): World<S, E, B>
    requires k <= |actions|
  {
    if k == 0 then Start() else Step(d, z, After(d, z, actions, k - 1), actions[k - 1])
  }

  function Stream<S, E, B>(w: World<S, E, B>, id: string): seq<E> {
    MemoryEventStore.Stream(w.mem, id)
  }

  // ---------------------------------------------------------------- histories

  /** Event i was allowed in the state that the i events before it lead to. */
  ghost predicate DecidedAt<S, E>(d: Domain<S, E>, id: string, events: seq<E>, i: nat)
    requires i < |events|
  {
    && d.idOf(events[i]) == id
    && if i == 0 then d.birth(events[0])
       else var before := Replay(d, d.blank(id), events, i);
            before.Some? && d.may(before.value, events[i])
  }

  ghost predicate Decided<S, E>(d: Domain<S, E>, id: string, events: seq<E>) {
    && Replay(d, d.blank(id), events, |events|).Some?
    && forall i | 0 <= i < |events| :: DecidedAt(d, id, events, i)
  }

  lemma DecidedGrows<S, E>(d: Domain<S, E>, id: string, events: seq<E>, e: E)
    requires Decided(d, id, events) && d.idOf(e) == id
    requires var s := Replay(d, d.blank(id), events, |events|).value;
             d.when(s, e).Some? && (if events == [] then d.birth(e) else d.may(s, e))
    ensures Decided(d, id, events + [e])
    ensures Replay(d, d.blank(id), events + [e], |events| + 1) ==
              d.when(Replay(d, d.blank(id), events, |events|).value, e)
  {
    var longer := events + [e];
    ReplayIgnoresTheRest(d, d.blank(id), events, [e], |events|);
    forall i | 0 <= i < |longer| ensures DecidedAt(d, id, longer, i) {
      if i < |events| {
        assert DecidedAt(d, id, events, i);
        ReplayIgnoresTheRest(d, d.blank(id), events, [e], i);
      }
    }
  }

  // ---------------------------------------------------------------- the invariant

  /** What a client has replayed and then applied itself. */
  function History<S, E>(stream: seq<E>, a: Agg<S, E>): seq<E>
    requires 0 <= ExpectedVersion(a) <= |stream|
  {
    stream[..ExpectedVersion(a)] + a.uncommitted
  }

  /**
   The client's state is the fold of a prefix of the stream and its own events; if that prefix is the
   whole stream, the client knows the version of the stored snapshot.
   */
  ghost predicate ClientOk<S, E>(d: Domain<S, E>, stream: seq<E>, storedVersion: int, a: Agg<S, E>) {
    && 0 <= ExpectedVersion(a) <= |stream|
    && History(stream, a) != []
    && Decided(d, a.id, History(stream, a))
    && Replay(d, d.blank(a.id), History(stream, a), |History(stream, a)|) == Some(a.state)
    && (ExpectedVersion(a) == |stream| ==> a.snapshotVersion == storedVersion)
  }

  ghost predicate StreamOk<S, E, B>(
      d: Domain<S, E>, z: Serializer<S, B>, db: Backend<E, B>, id: string, stream: seq<E>)
  {
    && PgEventStore.Holds(db.rows, id, stream)
    && Decided(d, id, stream)
    && SnapshotRepository.SnapshotOk(d, z, db, id, stream)
  }

  ghost predicate AggregateOk<S, E, B>(
      d: Domain<S, E>, z: Serializer<S, B>, db: Backend<E, B>, mem: MemoryEventStore.Events<E>, id: string) {
    StreamOk(d, z, db, id, MemoryEventStore.Stream(mem, id))
  }

  ghost predicate HolderOk<S, E, B>(
      d: Domain<S, E>, db: Backend<E, B>, mem: MemoryEventStore.Events<E>, a: Agg<S, E>) {
    ClientOk(d, MemoryEventStore.Stream(mem, a.id), SnapshotRepository.StoredVersion(db, a.id), a)
  }

  ghost predicate Inv<S, E, B>(d: Domain<S, E>, z: Serializer<S, B>, w: World<S, E, B>) {
    && (forall id :: AggregateOk(d, z, w.db, w.mem, id))
    && (forall c | c in w.clients :: HolderOk(d, w.db, w.mem, w.clients[c]))
  }

  lemma ClientApplies<S, E>(d: Domain<S, E>, stream: seq<E>, storedVersion: int, a: Agg<S, E>, e: E)
    requires ClientOk(d, stream, storedVersion, a) && d.idOf(e) == a.id && d.may(a.state, e)
    requires ApplyChange(d, a, e).Some?
    ensures ClientOk(d, stream, storedVersion, ApplyChange(d, a, e).value)
  {
    var a' := ApplyChange(d, a, e).value;
    DecidedGrows(d, a.id, History(stream, a), e);
    assert History(stream, a') == History(stream, a) + [e];
  }

  lemma ClientIsBorn<S, E>(d: Domain<S, E>, stream: seq<E>, storedVersion: int, id: string, e: E)
    requires d.idOf(e) == id && d.birth(e) && ApplyChange(d, Fresh(d, id), e).Some?
    requires stream == [] ==> storedVersion == -1
    ensures ClientOk(d, stream, storedVersion, ApplyChange(d, Fresh(d, id), e).value)
  {
    var a := ApplyChange(d, Fresh(d, id), e).value;
    assert Decided(d, id, []);
    DecidedGrows(d, id, [], e);
    assert [] + [e] == [e];
    assert History(stream, a) == [e];
  }

  /** A longer stream leaves a client that has not reached its end where it was. */
  lemma ClientFallsBehind<S, E>(
      d: Domain<S, E>, stream: seq<E>, storedVersion: int, a: Agg<S, E>, batch: seq<E>, storedVersion': int)
    requires ClientOk(d, stream, storedVersion, a) && batch != []
    ensures ClientOk(d, stream + batch, storedVersion', a)
  {
    assert (stream + batch)[..ExpectedVersion(a)] == stream[..ExpectedVersion(a)];
  }

  /**
   Save with events to save: it is accepted exactly when the client has replayed the whole stream;
   then the snapshot write, if due, succeeds, and everything is again as it should be.
   */
  lemma SaveOutcome<S(!new), E, B>(
      d: Domain<S, E>, z: Serializer<S, B>, every: int, db: Backend<E, B>, stream: seq<E>, a: Agg<S, E>)
    requires SnapshotRepository.RoundTrips(z) && StreamOk(d, z, db, a.id, stream)
    requires ClientOk(d, stream, SnapshotRepository.StoredVersion(db, a.id), a) && a.uncommitted != []
    ensures var r := SnapshotRepository.Save(d, z, every, db, a);
            if ExpectedVersion(a) == |stream| then
              && r.error == SnapshotRepository.NoError
              && StreamOk(d, z, r.db, a.id, stream + a.uncommitted)
              && r.agg.id == a.id
              && ClientOk(d, stream + a.uncommitted, SnapshotRepository.StoredVersion(r.db, a.id), r.agg)
              && OthersKeep(db, r.db, a.id)
            else
              r == SnapshotRepository.Saved(db, a, SnapshotRepository.AppendConflict)
  {
    var e := ExpectedVersion(a);
    forall j | 0 <= j < |a.uncommitted| ensures d.idOf(a.uncommitted[j]) == a.id {
      assert DecidedAt(d, a.id, History(stream, a), e + j);
      assert History(stream, a)[e + j] == a.uncommitted[j];
    }
    PgEventStore.AppendChecksTheVersion(db.rows, a.id, stream, e, a.uncommitted, d.idOf);
    if e == |stream| {
      var stream' := stream + a.uncommitted;
      assert History(stream, a) == stream';
      var r := SnapshotRepository.Save(d, z, every, db, a);
      assert History(stream', r.agg) == stream';
      if !SnapshotRepository.SnapshotDue(a.version, every) && a.id in db.snapshots {
        ReplayIgnoresTheRest(d, d.blank(a.id), stream, a.uncommitted, db.snapshots[a.id].version);
      }
    }
  }

  /** Rows and snapshots of the other aggregates stay. */
  ghost predicate OthersKeep<E, B>(db: Backend<E, B>, db': Backend<E, B>, id: string) {
    forall other | other != id ::
      && PgEventStore.Own(db'.rows, |db'.rows|, other) == PgEventStore.Own(db.rows, |db.rows|, other)
      && (other in db'.snapshots <==> other in db.snapshots)
      && (other in db.snapshots ==> db'.snapshots[other] == db.snapshots[other])
  }

  lemma LoadedClientOk<S, E, B>(d: Domain<S, E>, z: Serializer<S, B>, db: Backend<E, B>, id: string, stream: seq<E>)
    requires StreamOk(d, z, db, id, stream) && SnapshotRepository.Load(d, z, db, id).Found?
    ensures var a := SnapshotRepository.Load(d, z, db, id).agg;
            a.id == id && ClientOk(d, stream, SnapshotRepository.StoredVersion(db, id), a)
  {
    SnapshotRepository.LoadEqualsReplay(d, z, db, id, stream);
    var a := SnapshotRepository.Load(d, z, db, id).agg;
    assert History(stream, a) == stream;
  }

  /** Replacing one client keeps the invariant when the new aggregate is in order. */
  lemma InvNewClient<S, E, B>(d: Domain<S, E>, z: Serializer<S, B>, w: World<S, E, B>, c: nat, a: Agg<S, E>)
    requires Inv(d, z, w)
    requires ClientOk(d, Stream(w, a.id), SnapshotRepository.StoredVersion(w.db, a.id), a)
    ensures Inv(d, z, w.(clients := w.clients[c := a]))
  {
    var w' := w.(clients := w.clients[c := a]);
    assert forall id :: Stream(w', id) == Stream(w, id);
  }

  lemma InvSave<S(!new), E, B>(d: Domain<S, E>, z: Serializer<S, B>, w: World<S, E, B>, c: nat, every: int)
    requires Inv(d, z, w) && SnapshotRepository.RoundTrips(z) && c in w.clients && w.clients[c].uncommitted != []
    ensures Inv(d, z, SaveClient(d, z, w, c, every))
    ensures var a := w.clients[c];
            var w' := SaveClient(d, z, w, c, every);
            && Stream(w', a.id) ==
                 (if ExpectedVersion(a) == |Stream(w, a.id)| then Stream(w, a.id) + a.uncommitted else Stream(w, a.id))
            && forall other | other != a.id :: Stream(w', other) == Stream(w, other)
  {
    var a, w' := w.clients[c], SaveClient(d, z, w, c, every);
    var stream := Stream(w, a.id);
    assert AggregateOk(d, z, w.db, w.mem, a.id);
    SaveOutcome(d, z, every, w.db, stream, a);
    if ExpectedVersion(a) == |stream| {
      BatchIsOwn(d, stream, SnapshotRepository.StoredVersion(w.db, a.id), a);
      MemoryEventStore.FilingExtendsOneStream(w.mem, a.uncommitted, |a.uncommitted|, a.id, d.idOf);
      assert a.uncommitted[..|a.uncommitted|] == a.uncommitted;
      forall id ensures AggregateOk(d, z, w'.db, w'.mem, id) {
        if id != a.id { assert AggregateOk(d, z, w.db, w.mem, id); }
      }
      forall b | b in w'.clients ensures HolderOk(d, w'.db, w'.mem, w'.clients[b]) {
        if b != c { assert HolderOk(d, w.db, w.mem, w.clients[b]); }
        if b != c && w.clients[b].id == a.id {
          ClientFallsBehind(d, stream, SnapshotRepository.StoredVersion(w.db, a.id), w.clients[b],
                            a.uncommitted, SnapshotRepository.StoredVersion(w'.db, a.id));
        }
      }
    } else {
      assert w' == w.(clients := w.clients[c := a]);
      InvNewClient(d, z, w, c, a);
    }
  }

  lemma BatchIsOwn<S, E>(d: Domain<S, E>, stream: seq<E>, storedVersion: int, a: Agg<S, E>)
    requires ClientOk(d, stream, storedVersion, a)
    ensures forall j | 0 <= j < |a.uncommitted| :: d.idOf(a.uncommitted[j]) == a.id
  {
    forall j | 0 <= j < |a.uncommitted| ensures d.idOf(a.uncommitted[j]) == a.id {
      assert DecidedAt(d, a.id, History(stream, a), ExpectedVersion(a) + j);
      assert History(stream, a)[ExpectedVersion(a) + j] == a.uncommitted[j];
    }
  }

  lemma InvStep<S(!new), E, B>(d: Domain<S, E>, z: Serializer<S, B>, w: World<S, E, B>, action: Action<E>)
    requires Inv(d, z, w) && SnapshotRepository.RoundTrips(z)
    ensures Inv(d, z, Step(d, z, w, action))
  {
    match action
    case Create(c, id, e) =>
      if d.idOf(e) == id && d.birth(e) && ApplyChange(d, Fresh(d, id), e).Some? {
        assert AggregateOk(d, z, w.db, w.mem, id);
        ClientIsBorn(d, Stream(w, id), SnapshotRepository.StoredVersion(w.db, id), id, e);
        InvNewClient(d, z, w, c, ApplyChange(d, Fresh(d, id), e).value);
      }
    case Load(c, id) =>
      if SnapshotRepository.Load(d, z, w.db, id).Found? {
        assert AggregateOk(d, z, w.db, w.mem, id);
        LoadedClientOk(d, z, w.db, id, Stream(w, id));
        InvNewClient(d, z, w, c, SnapshotRepository.Load(d, z, w.db, id).agg);
      }
    case Issue(c, e) =>
      if c in w.clients && d.idOf(e) == w.clients[c].id && d.may(w.clients[c].state, e) {
        var a := w.clients[c];
        if ApplyChange(d, a, e).Some? {
          ClientApplies(d, Stream(w, a.id), SnapshotRepository.StoredVersion(w.db, a.id), a, e);
          InvNewClient(d, z, w, c, ApplyChange(d, a, e).value);
        }
      }
    case Save(c, every) =>
      if c in w.clients {
        if w.clients[c].uncommitted == [] {
          InvNewClient(d, z, w, c, w.clients[c]);
        } else {
          InvSave(d, z, w, c, every);
        }
      }
  }

  lemma InvStart<S, E, B>(d: Domain<S, E>, z: Serializer<S, B>)
    ensures Inv(d, z, Start<S, E, B>())
  {
    var w := Start<S, E, B>();
    forall id ensures AggregateOk(d, z, w.db, w.mem, id) {
      assert Stream(w, id) == [];
    }
  }

  lemma {:induction false} InvHolds<S(!new), E, B>(
      d: Domain<S, E>, z: Serializer<S, B>, actions: seq<Action<E>>, k: nat)
    requires k <= |actions| && SnapshotRepository.RoundTrips(z)
    ensures Inv(d, z, After(d, z, actions, k))
  {
    if k == 0 {
      InvStart(d, z);
    } else {
      InvHolds(d, z, actions, k - 1);
      InvStep(d, z, After(d, z, actions, k - 1), actions[k - 1]);
    }
  }

  // ---------------------------------------------------------------- theorems

  /**
   The PostgreSQL store has no version check, yet over every run it holds exactly the streams of the
   memory store, with versions 1..n, and takes and refuses exactly the same batches.
   */
  lemma StoresAgree<S(!new), E, B>(d: Domain<S, E>, z: Serializer<S, B>, actions: seq<Action<E>>, k: nat, c: nat)
    requires k <= |actions| && SnapshotRepository.RoundTrips(z)
    ensures var w := After(d, z, actions, k);
            && (forall id :: PgEventStore.Holds(w.db.rows, id, Stream(w, id)))
            && (c in w.clients && w.clients[c].uncommitted != [] ==>
                  var a := w.clients[c];
                  PgEventStore.InsertFrom(w.db.rows, a.uncommitted, 0, ExpectedVersion(a), d.idOf).Some?
                  <==> MemoryEventStore.Accepts(w.mem, a.id, ExpectedVersion(a)))
  {
    InvHolds(d, z, actions, k);
    var w := After(d, z, actions, k);
    forall id ensures PgEventStore.Holds(w.db.rows, id, Stream(w, id)) {
      assert AggregateOk(d, z, w.db, w.mem, id);
    }
    if c in w.clients && w.clients[c].uncommitted != [] {
      var a := w.clients[c];
      assert AggregateOk(d, z, w.db, w.mem, a.id);
      SaveOutcome(d, z, 0, w.db, Stream(w, a.id), a);
    }
  }

  /**
   A Save whose Append is accepted never fails on its snapshot, however often snapshots are taken: a
   client that has replayed the whole stream knows the stored snapshot.
   */
  lemma NoLockErrorAfterAppend<S(!new), E, B>(
      d: Domain<S, E>, z: Serializer<S, B>, actions: seq<Action<E>>, k: nat, c: nat, every: int)
    requires k <= |actions| && SnapshotRepository.RoundTrips(z) && c in After(d, z, actions, k).clients
    ensures var w := After(d, z, actions, k);
            var a := w.clients[c];
            && ExpectedVersion(a) <= |Stream(w, a.id)|
            && (ExpectedVersion(a) == |Stream(w, a.id)|
                ==> a.snapshotVersion == SnapshotRepository.StoredVersion(w.db, a.id))
            && SnapshotRepository.Save(d, z, every, w.db, a).error ==
                 (if a.uncommitted == [] || ExpectedVersion(a) == |Stream(w, a.id)| then SnapshotRepository.NoError
                  else SnapshotRepository.AppendConflict)
  {
    InvHolds(d, z, actions, k);
    var w := After(d, z, actions, k);
    var a := w.clients[c];
    assert AggregateOk(d, z, w.db, w.mem, a.id);
    if a.uncommitted != [] { SaveOutcome(d, z, every, w.db, Stream(w, a.id), a); }
  }

  /**
   In every reachable state: a Save that is accepted stores a snapshot of the new version exactly when that
   is a multiple of snapshotEvery; otherwise, and for all other aggregates, the stored snapshots stay.
   */
  lemma SnapshotTakenIff<S(!new), E, B>(
      d: Domain<S, E>, z: Serializer<S, B>, actions: seq<Action<E>>, k: nat, c: nat, every: int)
    requires k <= |actions| && SnapshotRepository.RoundTrips(z) && c in After(d, z, actions, k).clients
    requires var w := After(d, z, actions, k);
             w.clients[c].uncommitted != [] && ExpectedVersion(w.clients[c]) == |Stream(w, w.clients[c].id)|
    ensures var w := After(d, z, actions, k);
            var a, db' := w.clients[c], SaveClient(d, z, w, c, every).db;
            var row := SnapshotRepository.Snapshot(z.serialize(a.state), a.version);
            db'.snapshots == if every > 0 && SnapshotRepository.IsMultiple(a.version, every)
                             then w.db.snapshots[a.id := row] else w.db.snapshots
  {
    InvHolds(d, z, actions, k);
    var w := After(d, z, actions, k);
    var a := w.clients[c];
    assert AggregateOk(d, z, w.db, w.mem, a.id);
    SaveOutcome(d, z, every, w.db, Stream(w, a.id), a);
    SnapshotRepository.SaveExactly(d, z, every, w.db, a);
  }

  /** The repository's setting: every Save uses the same one. */
  ghost predicate FixedSetting<E>(actions: seq<Action<E>>, every: int) {
    forall i | 0 <= i < |actions| && actions[i].Save? :: actions[i].snapshotEvery == every
  }

  ghost predicate SnapshotsAtMultiples<E, B>(db: Backend<E, B>, every: int) {
    forall id | id in db.snapshots :: every > 0 && SnapshotRepository.IsMultiple(db.snapshots[id].version, every)
  }

  lemma SaveAtMultiples<S, E, B>(d: Domain<S, E>, z: Serializer<S, B>, w: World<S, E, B>, c: nat, every: int)
    requires c in w.clients && SnapshotsAtMultiples(w.db, every)
    ensures SnapshotsAtMultiples(SaveClient(d, z, w, c, every).db, every)
  {
    var a := w.clients[c];
    if a.uncommitted != []
       && PgEventStore.InsertFrom(w.db.rows, a.uncommitted, 0, ExpectedVersion(a), d.idOf).Some?
    {
      SnapshotRepository.SaveExactly(d, z, every, w.db, a);
    }
  }

  /** Over whole runs with one setting, snapshots are stored only at multiples of it; none without a setting. */
  lemma {:induction false} StoredSnapshotsAreMultiples<S, E, B>(
      d: Domain<S, E>, z: Serializer<S, B>, actions: seq<Action<E>>, k: nat, every: int)
    requires k <= |actions| && FixedSetting(actions, every)
    ensures SnapshotsAtMultiples(After(d, z, actions, k).db, every)
  {
    if k > 0 {
      StoredSnapshotsAreMultiples(d, z, actions, k - 1, every);
      var w, action := After(d, z, actions, k - 1), actions[k - 1];
      if action.Save? && action.c in w.clients { SaveAtMultiples(d, z, w, action.c, every); }
    }
  }

  /** In every reachable state, loading an aggregate gives what replaying its whole stream gives. */
  lemma LoadIsReplay<S(!new), E, B>(d: Domain<S, E>, z: Serializer<S, B>, actions: seq<Action<E>>, k: nat, id: string)
    requires k <= |actions| && SnapshotRepository.RoundTrips(z)
    ensures var w := After(d, z, actions, k);
            var stream := Stream(w, id);
            match SnapshotRepository.Load(d, z, w.db, id)
            case Found(a) =>
              && stream != [] && a.id == id && a.version == |stream| && a.uncommitted == []
              && Replay(d, d.blank(id), stream, |stream|) == Some(a.state)
            case NotFound => stream == []
            case Broken => false
  {
    InvHolds(d, z, actions, k);
    var w := After(d, z, actions, k);
    assert AggregateOk(d, z, w.db, w.mem, id);
    SnapshotRepository.LoadEqualsReplay(d, z, w.db, id, Stream(w, id));
  }

  /** Every stored event was allowed in the state that exactly the events before it lead to. */
  lemma StoredEventsAreDecided<S(!new), E, B>(
      d: Domain<S, E>, z: Serializer<S, B>, actions: seq<Action<E>>, k: nat, id: string)
    requires k <= |actions| && SnapshotRepository.RoundTrips(z)
    ensures Decided(d, id, Stream(After(d, z, actions, k), id))
  {
    InvHolds(d, z, actions, k);
    var w := After(d, z, actions, k);
    assert AggregateOk(d, z, w.db, w.mem, id);
  }

  /** A step extends one stream by a whole batch, or no stream: streams are concatenations of batches. */
  lemma StreamsGrowByBatches<S(!new), E, B>(
      d: Domain<S, E>, z: Serializer<S, B>, actions: seq<Action<E>>, k: nat, id: string)
    requires k < |actions| && SnapshotRepository.RoundTrips(z)
    ensures var w, w' := After(d, z, actions, k), After(d, z, actions, k + 1);
            var action := actions[k];
            Stream(w', id) ==
              if action.Save? && action.c in w.clients && w.clients[action.c].id == id
                 && ExpectedVersion(w.clients[action.c]) == |Stream(w, id)|
              then Stream(w, id) + w.clients[action.c].uncommitted
              else Stream(w, id)
  {
    InvHolds(d, z, actions, k);
    var w := After(d, z, actions, k);
    match actions[k]
    case Save(c, every) =>
      if c in w.clients && w.clients[c].uncommitted != [] { InvSave(d, z, w, c, every); }
    case _ =>
  }

  // ---------------------------------------------------------------- every history can be stored

  /** A client creates the aggregate or loads it, applies the n-th event and saves, once per event. */
  function ActionsFor<E>(id: string, events: seq<E>, n: nat, every: int): seq<Action<E>>
    requires n <= |events|
  {
    if n == 0 then []
    else if n == 1 then [Create(0, id, events[0]), Save(0, every)]
    else ActionsFor(id, events, n - 1, every) + [Load(0, id), Issue(0, events[n - 1]), Save(0, every)]
  }

  lemma {:induction false} AfterIgnoresTheRest<S, E, B>(
      d: Domain<S, E>, z: Serializer<S, B>, actions: seq<Action<E>>, more: seq<Action<E>>, k: nat)
    requires k <= |actions|
    ensures After<S, E, B>(d, z, actions + more, k) == After<S, E, B>(d, z, actions, k)
  {
    if k > 0 { AfterIgnoresTheRest(d, z, actions, more, k - 1); }
  }

  lemma DecidedPrefix<S, E>(d: Domain<S, E>, id: string, events: seq<E>, n: nat)
    requires Decided(d, id, events) && n <= |events|
    ensures Decided(d, id, events[..n])
  {
    var front, rest := events[..n], events[n..];
    assert events == front + rest;
    if Replay(d, d.blank(id), events, n).None? { NoReplayPast(d, d.blank(id), events, n, |events|); }
    ReplayIgnoresTheRest(d, d.blank(id), front, rest, n);
    forall i | 0 <= i < n ensures DecidedAt(d, id, front, i) {
      assert DecidedAt(d, id, events, i);
      ReplayIgnoresTheRest(d, d.blank(id), front, rest, i);
    }
  }

  /** What the last event of a decided history needs: its id, its guard, and a When that handles it. */
  lemma LastIsAllowed<S, E>(d: Domain<S, E>, id: string, events: seq<E>)
    requires Decided(d, id, events) && |events| > 0
    ensures var n := |events| - 1;
            var before := Replay(d, d.blank(id), events[..n], n);
            && d.idOf(events[n]) == id && before.Some? && d.when(before.value, events[n]).Some?
            && (if n == 0 then d.birth(events[0]) else d.may(before.value, events[n]))
  {
    var n := |events| - 1;
    assert events == events[..n] + [events[n]];
    ReplayIgnoresTheRest(d, d.blank(id), events[..n], [events[n]], n);
    assert DecidedAt(d, id, events, n);
  }

  /** The client's Save from the end of the stream stores what it has applied. */
  lemma SaveStores<S(!new), E, B>(d: Domain<S, E>, z: Serializer<S, B>, w: World<S, E, B>, c: nat, every: int)
    requires Inv(d, z, w) && SnapshotRepository.RoundTrips(z) && c in w.clients && w.clients[c].uncommitted != []
    requires ExpectedVersion(w.clients[c]) == |Stream(w, w.clients[c].id)|
    ensures var id := w.clients[c].id;
            Stream(Step(d, z, w, Save(c, every)), id) == Stream(w, id) + w.clients[c].uncommitted
  {
    InvSave(d, z, w, c, every);
  }

  lemma FirstEventStored<S(!new), E, B>(d: Domain<S, E>, z: Serializer<S, B>, id: string, e: E, every: int)
    requires SnapshotRepository.RoundTrips(z) && Decided(d, id, [e])
    ensures var w := Step(d, z, Start<S, E, B>(), Create(0, id, e));
            Stream(Step(d, z, w, Save(0, every)), id) == [e]
  {
    LastIsAllowed(d, id, [e]);
    InvStart<S, E, B>(d, z);
    InvStep(d, z, Start<S, E, B>(), Create(0, id, e));
    var w := Step(d, z, Start<S, E, B>(), Create(0, id, e));
    SaveStores(d, z, w, 0, every);
    assert [] + [e] == [e];
  }

  lemma NextEventStored<S(!new), E, B>(
      d: Domain<S, E>, z: Serializer<S, B>, w: World<S, E, B>, id: string, e: E, every: int)
    requires Inv(d, z, w) && SnapshotRepository.RoundTrips(z) && Stream(w, id) != []
    requires Decided(d, id, Stream(w, id) + [e])
    ensures var w2 := Step(d, z, Step(d, z, w, Load(0, id)), Issue(0, e));
            Stream(Step(d, z, w2, Save(0, every)), id) == Stream(w, id) + [e]
  {
    var stream := Stream(w, id);
    assert AggregateOk(d, z, w.db, w.mem, id);
    SnapshotRepository.LoadEqualsReplay(d, z, w.db, id, stream);
    LastIsAllowed(d, id, stream + [e]);
    assert (stream + [e])[..|stream|] == stream;
    InvStep(d, z, w, Load(0, id));
    var w1 := Step(d, z, w, Load(0, id));
    InvStep(d, z, w1, Issue(0, e));
    var w2 := Step(d, z, w1, Issue(0, e));
    assert w2.clients[0].uncommitted == [e] && w2.mem == w.mem;
    SaveStores(d, z, w2, 0, every);
  }

  lemma AfterThree<S, E, B>(
      d: Domain<S, E>, z: Serializer<S, B>, before: seq<Action<E>>, a1: Action<E>, a2: Action<E>, a3: Action<E>)
    ensures var actions, k := before + [a1, a2, a3], |before|;
            After<S, E, B>(d, z, actions, k + 3) ==
              Step(d, z, Step(d, z, Step(d, z, After<S, E, B>(d, z, before, k), a1), a2), a3)
  {
    var actions, k := before + [a1, a2, a3], |before|;
    AfterIgnoresTheRest<S, E, B>(d, z, before, [a1, a2, a3], k);
    assert After<S, E, B>(d, z, actions, k + 1) == Step(d, z, After(d, z, actions, k), actions[k]);
    assert After<S, E, B>(d, z, actions, k + 2) == Step(d, z, After(d, z, actions, k + 1), actions[k + 1]);
  }

  lemma AfterTwo<S, E, B>(d: Domain<S, E>, z: Serializer<S, B>, a1: Action<E>, a2: Action<E>)
    ensures After<S, E, B>(d, z, [a1, a2], 2) == Step(d, z, Step(d, z, Start<S, E, B>(), a1), a2)
  {
    assert After<S, E, B>(d, z, [a1, a2], 1) == Step(d, z, Start<S, E, B>(), [a1, a2][0]);
  }

  lemma OneMoreStored<S(!new), E, B>(
      d: Domain<S, E>, z: Serializer<S, B>, before: seq<Action<E>>, id: string, stream: seq<E>, e: E, every: int)
    requires SnapshotRepository.RoundTrips(z) && stream == Stream(After<S, E, B>(d, z, before, |before|), id) != []
    requires Decided(d, id, stream + [e])
    ensures var actions := before + [Load(0, id), Issue(0, e), Save(0, every)];
            Stream(After<S, E, B>(d, z, actions, |actions|), id) == stream + [e]
  {
    InvHolds<S, E, B>(d, z, before, |before|);
    NextEventStored(d, z, After<S, E, B>(d, z, before, |before|), id, e, every);
    AfterThree<S, E, B>(d, z, before, Load(0, id), Issue(0, e), Save(0, every));
  }

  /**
   The guards are the only limit: every history that they allow, with events that When handles, is the
   stream of some run, one accepted Save per event, with any snapshot setting.
   */
  lemma {:induction false} EveryDecidedHistoryIsStored<S(!new), E, B>(
      d: Domain<S, E>, z: Serializer<S, B>, id: string, events: seq<E>, n: nat, every: int)
    requires SnapshotRepository.RoundTrips(z) && Decided(d, id, events) && n <= |events|
    ensures var actions := ActionsFor(id, events, n, every);
            Stream(After(d, z, actions, |actions|), id) == events[..n]
  {
    DecidedPrefix(d, id, events, n);
    if n == 1 {
      assert events[..1] == [events[0]];
      FirstEventStored(d, z, id, events[0], every);
      AfterTwo<S, E, B>(d, z, Create(0, id, events[0]), Save(0, every));
    } else if n > 1 {
      EveryDecidedHistoryIsStored(d, z, id, events, n - 1, every);
      assert events[..n] == events[..n - 1] + [events[n - 1]];
      OneMoreStored(d, z, ActionsFor(id, events, n - 1, every), id, events[..n - 1], events[n - 1], every);
    }
  }

  // ---------------------------------------------------------------- no lost update

  /** An event with the state that its client saw when it applied it. */
  datatype Sight<S, E> = Sight(event: E, state: S)

  /** What client c saw when it applied the events that it has not saved yet. */
  function Sights<S, E, B>(
      d: Domain<S, E>, z: Serializer<S, B>, actions: seq<Action<E>>, k: nat, c: nat): seq<Sight<S, E>>
    requires k <= |actions|
  {
    if k == 0 then []
    else NextSights(d, z, After(d, z, actions, k - 1), actions[k - 1], c, Sights(d, z, actions, k - 1, c))
  }

  function NextSights<S, E, B>(
      d: Domain<S, E>, z: Serializer<S, B>, w: World<S, E, B>, action: Action<E>, c: nat, sights: seq<Sight<S, E>>)
    : seq<Sight<S, E>>
  {
    if action.c != c then sights
    else match action
      case Create(_, id, e) =>
        if d.idOf(e) == id && d.birth(e) && d.when(d.blank(id), e).Some? then [Sight(e, d.blank(id))] else sights
      case Load(_, id) =>
        if SnapshotRepository.Load(d, z, w.db, id).Found? then [] else sights
      case Issue(_, e) =>
        if c in w.clients && d.idOf(e) == w.clients[c].id && d.may(w.clients[c].state, e)
           && d.when(w.clients[c].state, e).Some?
        then sights + [Sight(e, w.clients[c].state)] else sights
      case Save(_, every) =>
        if c in w.clients && Saves(d, z, w, c, every) then [] else sights
  }

  predicate Saves<S, E, B>(d: Domain<S, E>, z: Serializer<S, B>, w: World<S, E, B>, c: nat, every: int)
    requires c in w.clients
  {
    SnapshotRepository.Save(d, z, every, w.db, w.clients[c]).error == SnapshotRepository.NoError
  }

  /** What the clients saw whose Saves made the stream of an aggregate. */
  function StoredSights<S, E, B>(
      d: Domain<S, E>, z: Serializer<S, B>, actions: seq<Action<E>>, k: nat, id: string): seq<Sight<S, E>>
    requires k <= |actions|
  {
    if k == 0 then []
    else
      var own := Sights(d, z, actions, k - 1, actions[k - 1].c);
      NextStored(d, z, After(d, z, actions, k - 1), actions[k - 1], id, StoredSights(d, z, actions, k - 1, id), own)
  }

  /** `own` is what the client of the action has seen. */
  function NextStored<S, E, B>(
      d: Domain<S, E>, z: Serializer<S, B>, w: World<S, E, B>, action: Action<E>, id: string,
      stored: seq<Sight<S, E>>, own: seq<Sight<S, E>>): seq<Sight<S, E>>
  {
    if action.Save? && action.c in w.clients && w.clients[action.c].id == id
       && Saves(d, z, w, action.c, action.snapshotEvery)
    then stored + own else stored
  }

  /** The sights belong to the events from position `from` of a history, and are its folds. */
  ghost predicate SeesFolds<S, E>(d: Domain<S, E>, id: string, history: seq<E>, from: nat, sights: seq<Sight<S, E>>) {
    && from + |sights| == |history|
    && forall i | 0 <= i < |sights| :: SeesFold(d, id, history, from, sights, i)
  }

  ghost predicate SeesFold<S, E>(
      d: Domain<S, E>, id: string, history: seq<E>, from: nat, sights: seq<Sight<S, E>>, i: nat)
    requires i < |sights| && from + |sights| == |history|
  {
    sights[i].event == history[from + i] && Replay(d, d.blank(id), history, from + i) == Some(sights[i].state)
  }

  ghost predicate ClientSees<S, E>(d: Domain<S, E>, stream: seq<E>, a: Agg<S, E>, sights: seq<Sight<S, E>>) {
    0 <= ExpectedVersion(a) <= |stream| && SeesFolds(d, a.id, History(stream, a), ExpectedVersion(a), sights)
  }

  lemma SeesOneMore<S, E>(
      d: Domain<S, E>, id: string, history: seq<E>, from: nat, sights: seq<Sight<S, E>>, e: E, state: S)
    requires SeesFolds(d, id, history, from, sights)
    requires Replay(d, d.blank(id), history, |history|) == Some(state)
    ensures SeesFolds(d, id, history + [e], from, sights + [Sight(e, state)])
  {
    ReplayIgnoresTheRest(d, d.blank(id), history, [e], |history|);
    forall i | 0 <= i < |sights| + 1
      ensures SeesFold(d, id, history + [e], from, sights + [Sight(e, state)], i)
    {
      if i < |sights| {
        assert SeesFold(d, id, history, from, sights, i);
        ReplayIgnoresTheRest(d, d.blank(id), history, [e], from + i);
      }
    }
  }

  /** Two stretches of one history, the second one from where the first one ends. */
  lemma SeesJoin<S, E>(
      d: Domain<S, E>, id: string, first: seq<E>, whole: seq<E>, sights: seq<Sight<S, E>>, more: seq<Sight<S, E>>)
    requires first <= whole && SeesFolds(d, id, first, 0, sights) && SeesFolds(d, id, whole, |first|, more)
    ensures SeesFolds(d, id, whole, 0, sights + more)
  {
    var rest := whole[|first|..];
    assert whole == first + rest;
    forall i | 0 <= i < |sights| + |more| ensures SeesFold(d, id, whole, 0, sights + more, i) {
      if i < |sights| {
        assert SeesFold(d, id, first, 0, sights, i);
        ReplayIgnoresTheRest(d, d.blank(id), first, rest, i);
      } else {
        assert SeesFold(d, id, whole, |first|, more, i - |sights|);
      }
    }
  }

  lemma ClientSeesWhatItIssues<S, E>(
      d: Domain<S, E>, stream: seq<E>, storedVersion: int, a: Agg<S, E>, sights: seq<Sight<S, E>>, e: E)
    requires ClientOk(d, stream, storedVersion, a) && ClientSees(d, stream, a, sights) && ApplyChange(d, a, e).Some?
    ensures ClientSees(d, stream, ApplyChange(d, a, e).value, sights + [Sight(e, a.state)])
  {
    SeesOneMore(d, a.id, History(stream, a), ExpectedVersion(a), sights, e, a.state);
    assert History(stream, ApplyChange(d, a, e).value) == History(stream, a) + [e];
  }

  lemma NewClientSees<S, E>(d: Domain<S, E>, stream: seq<E>, id: string, e: E)
    requires ApplyChange(d, Fresh(d, id), e).Some?
    ensures ClientSees(d, stream, ApplyChange(d, Fresh(d, id), e).value, [Sight(e, d.blank(id))])
  {
    assert SeesFolds(d, id, [], 0, []);
    SeesOneMore(d, id, [], 0, [], e, d.blank(id));
    assert [] + [e] == [e] && [] + [Sight(e, d.blank(id))] == [Sight(e, d.blank(id))];
    assert History(stream, ApplyChange(d, Fresh(d, id), e).value) == [e];
  }

  /** A client with nothing to save has seen nothing that is not stored. */
  lemma SavedClientSees<S, E>(d: Domain<S, E>, stream: seq<E>, storedVersion: int, a: Agg<S, E>)
    requires ClientOk(d, stream, storedVersion, a) && a.uncommitted == []
    ensures ClientSees(d, stream, a, [])
  {
  }

  /** Another client's batch at the end of the stream leaves what this client has seen as it was. */
  lemma ClientStillSees<S, E>(d: Domain<S, E>, stream: seq<E>, a: Agg<S, E>, sights: seq<Sight<S, E>>, batch: seq<E>)
    requires ClientSees(d, stream, a, sights)
    ensures ClientSees(d, stream + batch, a, sights)
  {
    assert (stream + batch)[..ExpectedVersion(a)] == stream[..ExpectedVersion(a)];
  }

  /** A Save succeeds exactly with nothing to save or from the end of the stream, and says what it leaves. */
  lemma SavesIff<S(!new), E, B>(d: Domain<S, E>, z: Serializer<S, B>, w: World<S, E, B>, c: nat, every: int)
    requires Inv(d, z, w) && SnapshotRepository.RoundTrips(z) && c in w.clients
    ensures var a, a', w' := w.clients[c], SaveClient(d, z, w, c, every).clients[c], SaveClient(d, z, w, c, every);
            && (Saves(d, z, w, c, every) <==> a.uncommitted == [] || ExpectedVersion(a) == |Stream(w, a.id)|)
            && a'.id == a.id
            && (if Saves(d, z, w, c, every) then a'.uncommitted == [] else a' == a)
            && Stream(w', a.id) == Stream(w, a.id) + if Saves(d, z, w, c, every) then a.uncommitted else []
  {
    var a := w.clients[c];
    assert AggregateOk(d, z, w.db, w.mem, a.id);
    if a.uncommitted != [] {
      SaveOutcome(d, z, every, w.db, Stream(w, a.id), a);
      InvSave(d, z, w, c, every);
    }
  }

  lemma SaverSees<S(!new), E, B>(
      d: Domain<S, E>, z: Serializer<S, B>, w: World<S, E, B>, c: nat, every: int, sights: seq<Sight<S, E>>)
    requires Inv(d, z, w) && SnapshotRepository.RoundTrips(z) && c in w.clients
    requires ClientSees(d, Stream(w, w.clients[c].id), w.clients[c], sights)
    ensures var w' := SaveClient(d, z, w, c, every);
            ClientSees(d, Stream(w', w'.clients[c].id), w'.clients[c], if Saves(d, z, w, c, every) then [] else sights)
  {
    SavesIff(d, z, w, c, every);
    InvStep(d, z, w, Save(c, every));
    var w' := SaveClient(d, z, w, c, every);
    var a' := w'.clients[c];
    if Saves(d, z, w, c, every) {
      SavedClientSees(d, Stream(w', a'.id), SnapshotRepository.StoredVersion(w'.db, a'.id), a');
    }
  }

  lemma LoaderSees<S, E, B>(d: Domain<S, E>, z: Serializer<S, B>, w: World<S, E, B>, id: string)
    requires Inv(d, z, w) && SnapshotRepository.Load(d, z, w.db, id).Found?
    ensures var a := SnapshotRepository.Load(d, z, w.db, id).agg;
            a.id == id && ClientSees(d, Stream(w, id), a, [])
  {
    assert AggregateOk(d, z, w.db, w.mem, id);
    LoadedClientOk(d, z, w.db, id, Stream(w, id));
    SnapshotRepository.LoadEqualsReplay(d, z, w.db, id, Stream(w, id));
    var a := SnapshotRepository.Load(d, z, w.db, id).agg;
    SavedClientSees(d, Stream(w, id), SnapshotRepository.StoredVersion(w.db, id), a);
  }

  lemma OthersStillSee<S(!new), E, B>(
      d: Domain<S, E>, z: Serializer<S, B>, w: World<S, E, B>, action: Action<E>, c: nat, sights: seq<Sight<S, E>>)
    requires Inv(d, z, w) && SnapshotRepository.RoundTrips(z) && action.c != c && c in w.clients
    requires ClientSees(d, Stream(w, w.clients[c].id), w.clients[c], sights)
    ensures var w' := Step(d, z, w, action);
            && c in w'.clients && w'.clients[c] == w.clients[c]
            && ClientSees(d, Stream(w', w.clients[c].id), w.clients[c], sights)
  {
    if action.Save? && action.c in w.clients && w.clients[action.c].uncommitted != [] {
      InvSave(d, z, w, action.c, action.snapshotEvery);
      ClientStillSees(d, Stream(w, w.clients[c].id), w.clients[c], sights, w.clients[action.c].uncommitted);
    }
  }

  lemma ActorSees<S(!new), E, B>(
      d: Domain<S, E>, z: Serializer<S, B>, w: World<S, E, B>, action: Action<E>, sights: seq<Sight<S, E>>)
    requires Inv(d, z, w) && SnapshotRepository.RoundTrips(z)
    requires action.c in w.clients ==> ClientSees(d, Stream(w, w.clients[action.c].id), w.clients[action.c], sights)
    requires action.c in Step(d, z, w, action).clients
    ensures var w' := Step(d, z, w, action);
            ClientSees(d, Stream(w', w'.clients[action.c].id), w'.clients[action.c],
                       NextSights(d, z, w, action, action.c, sights))
  {
    match action
    case Create(c, id, e) =>
      if d.idOf(e) == id && d.birth(e) && ApplyChange(d, Fresh(d, id), e).Some? {
        NewClientSees(d, Stream(w, id), id, e);
      }
    case Load(c, id) => if SnapshotRepository.Load(d, z, w.db, id).Found? { LoaderSees(d, z, w, id); }
    case Issue(c, e) =>
      var a := w.clients[c];
      if d.idOf(e) == a.id && d.may(a.state, e) && ApplyChange(d, a, e).Some? {
        ClientSeesWhatItIssues(d, Stream(w, a.id), SnapshotRepository.StoredVersion(w.db, a.id), a, sights, e);
      }
    case Save(c, every) => SaverSees(d, z, w, c, every, sights);
  }

  ghost predicate SeesIfPresent<S, E, B>(d: Domain<S, E>, w: World<S, E, B>, c: nat, sights: seq<Sight<S, E>>) {
    c in w.clients ==> ClientSees(d, Stream(w, w.clients[c].id), w.clients[c], sights)
  }

  lemma ClientsSeeNext<S(!new), E, B>(
      d: Domain<S, E>, z: Serializer<S, B>, w: World<S, E, B>, action: Action<E>, c: nat, sights: seq<Sight<S, E>>)
    requires Inv(d, z, w) && SnapshotRepository.RoundTrips(z) && SeesIfPresent(d, w, c, sights)
    ensures SeesIfPresent(d, Step(d, z, w, action), c, NextSights(d, z, w, action, c, sights))
  {
    if c in Step(d, z, w, action).clients {
      if action.c == c { ActorSees(d, z, w, action, sights); } else { OthersStillSee(d, z, w, action, c, sights); }
    }
  }

  lemma ClientsSeeNextInRun<S(!new), E, B>(
      d: Domain<S, E>, z: Serializer<S, B>, actions: seq<Action<E>>, k: nat, c: nat, w: World<S, E, B>,
      sights: seq<Sight<S, E>>)
    requires 0 < k <= |actions| && SnapshotRepository.RoundTrips(z)
    requires w == After(d, z, actions, k - 1) && sights == Sights(d, z, actions, k - 1, c)
    requires SeesIfPresent(d, w, c, sights)
    ensures SeesIfPresent(d, Step(d, z, w, actions[k - 1]), c, NextSights(d, z, w, actions[k - 1], c, sights))
  {
    InvHolds(d, z, actions, k - 1);
    ClientsSeeNext(d, z, w, actions[k - 1], c, sights);
  }

  lemma {:induction false} ClientsSeeFolds<S(!new), E, B>(
      d: Domain<S, E>, z: Serializer<S, B>, actions: seq<Action<E>>, k: nat, c: nat)
    requires k <= |actions| && SnapshotRepository.RoundTrips(z)
    ensures SeesIfPresent(d, After(d, z, actions, k), c, Sights(d, z, actions, k, c))
  {
    if k > 0 {
      ClientsSeeFolds(d, z, actions, k - 1, c);
      ClientsSeeNextInRun(d, z, actions, k, c, After(d, z, actions, k - 1), Sights(d, z, actions, k - 1, c));
    }
  }

  lemma BatchJoins<S, E>(
      d: Domain<S, E>, stream: seq<E>, a: Agg<S, E>, stored: seq<Sight<S, E>>, sights: seq<Sight<S, E>>)
    requires SeesFolds(d, a.id, stream, 0, stored) && ClientSees(d, stream, a, sights)
    requires a.uncommitted == [] || ExpectedVersion(a) == |stream|
    ensures SeesFolds(d, a.id, stream + a.uncommitted, 0, stored + sights)
  {
    if a.uncommitted == [] {
      assert stored + sights == stored && stream + a.uncommitted == stream;
    } else {
      assert History(stream, a) == stream + a.uncommitted;
      SeesJoin(d, a.id, stream, History(stream, a), stored, sights);
    }
  }

  lemma StoredNextHolds<S(!new), E, B>(
      d: Domain<S, E>, z: Serializer<S, B>, w: World<S, E, B>, action: Action<E>, id: string,
      stored: seq<Sight<S, E>>, own: seq<Sight<S, E>>)
    requires InOrder(d, z, w, action.c, own) && SnapshotRepository.RoundTrips(z)
    requires SeesFolds(d, id, Stream(w, id), 0, stored)
    ensures SeesFolds(d, id, Stream(Step(d, z, w, action), id), 0, NextStored(d, z, w, action, id, stored, own))
  {
    if action.Save? && action.c in w.clients {
      var a := w.clients[action.c];
      if a.id == id {
        SavesIff(d, z, w, action.c, action.snapshotEvery);
        if Saves(d, z, w, action.c, action.snapshotEvery) { BatchJoins(d, Stream(w, id), a, stored, own); }
      } else if a.uncommitted != [] {
        InvSave(d, z, w, action.c, action.snapshotEvery);
      }
    }
  }

  /** What a run gives at any point to the client of the next action. */
  ghost predicate InOrder<S, E, B>(
      d: Domain<S, E>, z: Serializer<S, B>, w: World<S, E, B>, c: nat, own: seq<Sight<S, E>>) {
    Inv(d, z, w) && SeesIfPresent(d, w, c, own)
  }

  lemma RunsAreInOrder<S(!new), E, B>(
      d: Domain<S, E>, z: Serializer<S, B>, actions: seq<Action<E>>, k: nat, c: nat)
    requires k <= |actions| && SnapshotRepository.RoundTrips(z)
    ensures InOrder(d, z, After(d, z, actions, k), c, Sights(d, z, actions, k, c))
  {
    InvHolds(d, z, actions, k);
    ClientsSeeFolds(d, z, actions, k, c);
  }

  lemma StoredNextInRun<S(!new), E, B>(
      d: Domain<S, E>, z: Serializer<S, B>, actions: seq<Action<E>>, k: nat, id: string, w: World<S, E, B>,
      action: Action<E>, stored: seq<Sight<S, E>>, own: seq<Sight<S, E>>)
    requires 0 < k <= |actions| && SnapshotRepository.RoundTrips(z)
    requires w == After(d, z, actions, k - 1) && action == actions[k - 1]
    requires own == Sights(d, z, actions, k - 1, action.c)
    requires SeesFolds(d, id, Stream(w, id), 0, stored)
    ensures SeesFolds(d, id, Stream(Step(d, z, w, action), id), 0, NextStored(d, z, w, action, id, stored, own))
  {
    RunsAreInOrder(d, z, actions, k - 1, action.c);
    StoredNextHolds(d, z, w, action, id, stored, own);
  }

  /**
   No lost update: in every run, one client's state was seen per stored event, the event was applied in
   that state, and the state is the fold of exactly the events stored before it.
   */
  lemma {:induction false} NoLostUpdate<S(!new), E, B>(
      d: Domain<S, E>, z: Serializer<S, B>, actions: seq<Action<E>>, k: nat, id: string)
    requires k <= |actions| && SnapshotRepository.RoundTrips(z)
    ensures SeesFolds(d, id, Stream(After(d, z, actions, k), id), 0, StoredSights(d, z, actions, k, id))
  {
    if k > 0 {
      NoLostUpdate(d, z, actions, k - 1, id);
      StoredNextInRun(d, z, actions, k, id, After(d, z, actions, k - 1), actions[k - 1],
                      StoredSights(d, z, actions, k - 1, id), Sights(d, z, actions, k - 1, actions[k - 1].c));
    }
  }
}
