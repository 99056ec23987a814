/**
 The aggregate root of event sourcing (domain/aggregate/aggregate.go) for any domain whose When is a
 function of the state and the event.
 */
module Aggregates {
  import opened Wrappers

  /**
   A kind of aggregate. `blank` is what the reconstructor returns, `when` is None where When returns
   an error, `birth` says which events may be the first one, and `may` is the guard of the commands.
   */
  datatype Domain<!S, !E> = Domain(
    blank: string -> S,
    when: (S, E) -> Option<S>,
    idOf: E -> string,
    birth: E -> bool,
    may: (S, E) -> bool)

  /** The aggregate's fields: domain state and AggregateRoot. */
  datatype Agg<S, E> = Agg(id: string, state: S, version: int, snapshotVersion: int, uncommitted: seq<E>)

  function Fresh<S, E>(d: Domain<S, E>, id: string): Agg<S, E> {
    Agg(id, d.blank(id), 0, -1, [])
  }

  function ExpectedVersion<S, E>(a: Agg<S, E>): int {
    a.version - |a.uncommitted|
  }

  /** None is the error of When, which leaves the aggregate as it was. */
  function ApplyChange<S, E>(d: Domain<S, E>, a: Agg<S, E>, e: E): Option<Agg<S, E>> {
    match d.when(a.state, e)
    case None => None
    case Some(s) => Some(a.(state := s, version := a.version + 1, uncommitted := a.uncommitted + [e]))
  }

  function ApplyHistory<S, E>(d: Domain<S, E>, a: Agg<S, E>, e: E): Option<Agg<S, E>> {
    match d.when(a.state, e)
    case None => None
    case Some(s) => Some(a.(state := s, version := a.version + 1))
  }

  function SetSnapshotVersion<S, E>(a: Agg<S, E>, v: int): Agg<S, E> {
    a.(version := v, snapshotVersion := v)
  }

  function MarkEventsAsCommitted<S, E>(a: Agg<S, E>): Agg<S, E> {
    a.(uncommitted := [])
  }

  /** The state after the first n events, None when one of them is not handled. */
  function Replay<S, E>(d: Domain<S, E>, s: S, events: seq<E>, n: nat): Option<S>
    requires n <= |events|
  {
    if n == 0 then Some(s)
    else match Replay(d, s, events, n - 1)
         case None => None
         case Some(before) => d.when(before, events[n - 1])
  }

  function LoadFromHistory<S, E>(d: Domain<S, E>, a: Agg<S, E>, events: seq<E>): Option<Agg<S, E>> {
    match Replay(d, a.state, events, |events|)
    case None => None
    case Some(s) => Some(a.(state := s, version := a.version + |events|))
  }

  /** A replay can stop after v events and go on from there. */
  lemma {:induction false} ReplayContinues<S, E>(d: Domain<S, E>, s: S, events: seq<E>, v: nat, n: nat)
    requires v <= n <= |events|
    ensures Replay(d, s, events, n) ==
              match Replay(d, s, events, v)
              case None => None
              case Some(mid) => Replay(d, mid, events[v..], n - v)
  {
    if v < n { ReplayContinues(d, s, events, v, n - 1); }
  }

  /** Later events do not change an earlier state. */
  lemma {:induction false} ReplayIgnoresTheRest<S, E>(d: Domain<S, E>, s: S, events: seq<E>, more: seq<E>, n: nat)
    requires n <= |events|
    ensures Replay(d, s, events + more, n) == Replay(d, s, events, n)
  {
    if n > 0 { ReplayIgnoresTheRest(d, s, events, more, n - 1); }
  }

  /** A replay that stopped at event k, which When does not handle, has applied the events before it. */
  ghost predicate StoppedAt<S, E>(d: Domain<S, E>, a: Agg<S, E>, events: seq<E>, k: nat, stopped: Agg<S, E>)
    requires k < |events|
  {
    && Replay(d, a.state, events, k) == Some(stopped.state)
    && Replay(d, a.state, events, k + 1) == None
    && stopped == a.(state := stopped.state, version := a.version + k)
  }

  // ---------------------------------------------------------------- the aggregate object

  class Aggregate<S, E> {
    const domain: Domain<S, E>
    var id: string
    var state: S
    var version: int
    var snapshotVersion: int
    var uncommittedEvents: seq<E>

    constructor (domain: Domain<S, E>, id: string)
      ensures this.domain == domain && View() == Fresh(domain, id)
    {
      this.domain := domain;
      this.id := id;
      state, version, snapshotVersion, uncommittedEvents := domain.blank(id), 0, -1, [];
    }

    /** Deserialized from a snapshot; the caller sets the version next. */
    constructor Restored(domain: Domain<S, E>, id: string, state: S)
      ensures this.domain == domain && View() == Agg(id, state, 0, -1, [])
    {
      this.domain := domain;
      this.id := id;
      this.state := state;
      version, snapshotVersion, uncommittedEvents := 0, -1, [];
    }

    ghost function View(): Agg<S, E>
      reads this
    {
      Agg(id, state, version, snapshotVersion, uncommittedEvents)
    }

    method Expected() returns (v: int)
      ensures v == ExpectedVersion(View())
    {
      v := version - |uncommittedEvents|;
    }

    method SetSnapshot(v: int)
      modifies this
      ensures View() == SetSnapshotVersion(old(View()), v)
    {
      version := v;
      snapshotVersion := v;
    }

    method Apply(evt: E) returns (nil: bool)
      modifies this
      ensures match ApplyChange(domain, old(View()), evt)
              case None => !nil && View() == old(View())
              case Some(a) => nil && View() == a
    {
      match domain.when(state, evt) {
        case None => return false;
        case Some(s) =>
          state := s;
          uncommittedEvents := uncommittedEvents + [evt];
          version := version + 1;
          nil := true;
      }
    }

    method ApplyPast(evt: E) returns (nil: bool)
      modifies this
      ensures match ApplyHistory(domain, old(View()), evt)
              case None => !nil && View() == old(View())
              case Some(a) => nil && View() == a
    {
      match domain.when(state, evt) {
        case None => return false;
        case Some(s) =>
          state := s;
          version := version + 1;
          nil := true;
      }
    }

    /** Stops at the first event that is not handled. */
    method LoadHistory(events: seq<E>) returns (nil: bool)
      modifies this
      ensures nil == LoadFromHistory(domain, old(View()), events).Some?
      ensures nil ==> View() == LoadFromHistory(domain, old(View()), events).value
      ensures !nil ==> exists k :: 0 <= k < |events| && StoppedAt(domain, old(View()), events, k, View())
    {
      var i := 0;
      while i < |events|
        invariant i <= |events|
        invariant Replay(domain, old(state), events, i) == Some(state)
        invariant View() == old(View()).(state := state, version := old(version) + i)
      {
        var ok := ApplyPast(events[i]);
        if !ok {
          NoReplayPast(domain, old(state), events, i + 1, |events|);
          assert StoppedAt(domain, old(View()), events, i, View());
          return false;
        }
        i := i + 1;
      }
      nil := true;
    }

    method MarkCommitted()
      modifies this
      ensures View() == MarkEventsAsCommitted(old(View()))
    {
      uncommittedEvents := [];
    }
  }

  lemma {:induction false} NoReplayPast<S, E>(d: Domain<S, E>, s: S, events: seq<E>, i: nat, n: nat)
    requires i <= n <= |events| && Replay(d, s, events, i).None?
    ensures Replay(d, s, events, n).None?
  {
    if i < n { NoReplayPast(d, s, events, i, n - 1); }
  }
}
