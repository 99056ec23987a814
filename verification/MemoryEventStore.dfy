/**
 The in-memory event store (cqrs/impl/memory/event_store.go): a stream per aggregate and one global
 log. Events are values, so the copies that the store takes are not visible here.
 */
module MemoryEventStore {

  datatype Entry<E> = Entry(position: int, event: E)

  datatype Events<E> = Events(streams: map<string, seq<E>>, log: seq<Entry<E>>, nextPosition: int)

  function Empty<E>(): Events<E> {
    Events(map[], [], 0)
  }

  function Stream<E>(v: Events<E>, id: string): seq<E> {
    if id in v.streams then v.streams[id] else []
  }

  /** An event is filed under the id that it carries itself. */
  function File<E>(v: Events<E>, e: E, idOf: E -> string): Events<E> {
    Events(v.streams[idOf(e) := Stream(v, idOf(e)) + [e]],
           v.log + [Entry(v.nextPosition + 1, e)],
           v.nextPosition + 1)
  }

  /** The first n events of a batch filed in order. */
  function FileAll<E>(v: Events<E>, batch: seq<E>, n: nat, idOf: E -> string): Events<E>
    requires n <= |batch|
  {
    if n == 0 then v else File(FileAll(v, batch, n - 1, idOf), batch[n - 1], idOf)
  }

  predicate Accepts<E>(v: Events<E>, id: string, expectedVersion: int) {
    |Stream(v, id)| == expectedVersion
  }

  function AfterAppend<E>(v: Events<E>, id: string, expectedVersion: int, batch: seq<E>, idOf: E -> string): Events<E> {
    if Accepts(v, id, expectedVersion) then FileAll(v, batch, |batch|, idOf) else v
  }

  /** Index of the first entry from i on that lies after the position. */
  function FirstAfter<E>(log: seq<Entry<E>>, i: nat, afterPosition: int): (n: nat)
    requires i <= |log|
    ensures i <= n <= |log|
    ensures forall j | i <= j < n :: log[j].position <= afterPosition
    ensures n < |log| ==> log[n].position > afterPosition
    decreases |log| - i
  {
    if i == |log| || log[i].position > afterPosition then i else FirstAfter(log, i + 1, afterPosition)
  }

  /** What LoadAll returns; a limit that is not positive means no limit. */
  function Page<E>(log: seq<Entry<E>>, afterPosition: int, limit: int): seq<Entry<E>> {
    var start := FirstAfter(log, 0, afterPosition);
    if limit > 0 && start + limit < |log| then log[start..start + limit] else log[start..]
  }

  // ---------------------------------------------------------------- streams and log

  /** The events of one aggregate in the first n entries of the log. */
  function Select<E>(log: seq<Entry<E>>, n: nat, id: string, idOf: E -> string): seq<E>
    requires n <= |log|
  {
    if n == 0 then []
    else Select(log, n - 1, id, idOf) + (if idOf(log[n - 1].event) == id then [log[n - 1].event] else [])
  }

  /** Positions are 1..n, and every stream is the subsequence of the log with its id. */
  ghost predicate Consistent<E>(v: Events<E>, idOf: E -> string) {
    && v.nextPosition == |v.log|
    && (forall i | 0 <= i < |v.log| :: v.log[i].position == i + 1)
    && (forall id :: Stream(v, id) == Select(v.log, |v.log|, id, idOf))
  }

  lemma {:induction false} SelectIgnoresTheRest<E>(
      log: seq<Entry<E>>, more: seq<Entry<E>>, n: nat, id: string, idOf: E -> string)
    requires n <= |log|
    ensures Select(log + more, n, id, idOf) == Select(log, n, id, idOf)
  {
    if n > 0 { SelectIgnoresTheRest(log, more, n - 1, id, idOf); }
  }

  lemma FileKeepsStream<E>(v: Events<E>, e: E, id: string, idOf: E -> string)
    requires Stream(v, id) == Select(v.log, |v.log|, id, idOf)
    ensures var v' := File(v, e, idOf);
            Stream(v', id) == Select(v'.log, |v'.log|, id, idOf)
  {
    var v' := File(v, e, idOf);
    SelectIgnoresTheRest(v.log, [Entry(v.nextPosition + 1, e)], |v.log|, id, idOf);
    assert v'.log[|v.log|].event == e;
  }

  lemma FileKeepsConsistent<E>(v: Events<E>, e: E, idOf: E -> string)
    requires Consistent(v, idOf)
    ensures Consistent(File(v, e, idOf), idOf)
  {
    var v' := File(v, e, idOf);
    forall id ensures Stream(v', id) == Select(v'.log, |v'.log|, id, idOf) {
      FileKeepsStream(v, e, id, idOf);
    }
  }

  lemma {:induction false} FilingKeepsConsistent<E>(v: Events<E>, batch: seq<E>, n: nat, idOf: E -> string)
    requires Consistent(v, idOf) && n <= |batch|
    ensures var v' := FileAll(v, batch, n, idOf);
            Consistent(v', idOf) && v.log <= v'.log
  {
    if n > 0 {
      FilingKeepsConsistent(v, batch, n - 1, idOf);
      FileKeepsConsistent(FileAll(v, batch, n - 1, idOf), batch[n - 1], idOf);
    }
  }

  /** A batch whose events all carry one id extends that stream by the batch, and no other. */
  lemma {:induction false} FilingExtendsOneStream<E>(v: Events<E>, batch: seq<E>, n: nat, id: string, idOf: E -> string)
    requires n <= |batch| && forall i | 0 <= i < |batch| :: idOf(batch[i]) == id
    ensures var v' := FileAll(v, batch, n, idOf);
            && Stream(v', id) == Stream(v, id) + batch[..n]
            && forall other | other != id :: Stream(v', other) == Stream(v, other)
  {
    if n > 0 {
      FilingExtendsOneStream(v, batch, n - 1, id, idOf);
      assert batch[..n] == batch[..n - 1] + [batch[n - 1]];
    }
  }

  // ---------------------------------------------------------------- a consumer of the global log

  /** A producer appends anything; the consumer asks for the next page after its last position. */
  datatype LogAction<E> = Produce(id: string, expectedVersion: int, batch: seq<E>) | Poll(limit: int)

  datatype Consumer<E> = Consumer(store: Events<E>, last: int, read: seq<Entry<E>>)

  function NextConsumer<E>(s: Consumer<E>, a: LogAction<E>, idOf: E -> string): Consumer<E> {
    match a
    case Produce(id, expectedVersion, batch) =>
      s.(store := AfterAppend(s.store, id, expectedVersion, batch, idOf))
    case Poll(limit) =>
      var page := Page(s.store.log, s.last, limit);
      s.(last := if page == [] then s.last else page[|page| - 1].position, read := s.read + page)
  }

  function Consumed<E>(actions: seq<LogAction<E>>, k: nat, idOf: E -> string): Consumer<E>
    requires k <= |actions|
  {
    if k == 0 then Consumer(Empty(), 0, [])
    else NextConsumer(Consumed(actions, k - 1, idOf), actions[k - 1], idOf)
  }

  ghost predicate ReadsInOrder<E>(s: Consumer<E>, idOf: E -> string) {
    && Consistent(s.store, idOf)
    && s.last == |s.read| <= |s.store.log|
    && s.read == s.store.log[..s.last]
  }

  lemma {:induction false} NextUnread<E>(log: seq<Entry<E>>, i: nat, last: nat)
    requires i <= last <= |log| && forall j | 0 <= j < |log| :: log[j].position == j + 1
    ensures FirstAfter(log, i, last) == last
    decreases last - i
  {
    if i < last { NextUnread(log, i + 1, last); }
  }

  lemma PollReadsOn<E>(s: Consumer<E>, limit: int, idOf: E -> string)
    requires ReadsInOrder(s, idOf)
    ensures ReadsInOrder(NextConsumer(s, Poll(limit), idOf), idOf)
  {
    NextUnread(s.store.log, 0, s.last);
    var page := Page(s.store.log, s.last, limit);
    assert s.read + page == s.store.log[..s.last + |page|];
  }

  lemma ConsumerStep<E>(s: Consumer<E>, a: LogAction<E>, idOf: E -> string)
    requires ReadsInOrder(s, idOf)
    ensures ReadsInOrder(NextConsumer(s, a, idOf), idOf)
  {
    match a
    case Produce(_, _, batch) => FilingKeepsConsistent(s.store, batch, |batch|, idOf);
    case Poll(limit) => PollReadsOn(s, limit, idOf);
  }

  /**
   In every interleaving of Appends and LoadAlls with any limits: positions are 1..n, streams and log
   agree, and the consumer has read exactly a prefix of the log, each event once.
   */
  lemma {:induction false} ConsumerReadsAPrefix<E>(actions: seq<LogAction<E>>, k: nat, idOf: E -> string)
    requires k <= |actions|
    ensures ReadsInOrder(Consumed(actions, k, idOf), idOf)
  {
    if k > 0 {
      ConsumerReadsAPrefix(actions, k - 1, idOf);
      ConsumerStep(Consumed(actions, k - 1, idOf), actions[k - 1], idOf);
    }
  }

  /** A poll without a limit leaves nothing unread. */
  lemma UnlimitedPollCatchesUp<E>(s: Consumer<E>, limit: int, idOf: E -> string)
    requires ReadsInOrder(s, idOf) && limit <= 0
    ensures NextConsumer(s, Poll(limit), idOf).read == s.store.log
  {
    NextUnread(s.store.log, 0, s.last);
  }

  function Smaller(a: int, b: int): int {
    if a < b then a else b
  }

  /** A page starts at the first later entry and has as many entries as the limit allows. */
  lemma PageExactly<E>(log: seq<Entry<E>>, afterPosition: int, limit: int)
    ensures var start := FirstAfter(log, 0, afterPosition);
            var n := |log| - start;
            Page(log, afterPosition, limit) == log[start..start + if limit > 0 then Smaller(limit, n) else n]
  {
  }

  /** A poll with a limit reads exactly that many further entries, or all that are left if they are fewer. */
  lemma LimitedPollReadsExactly<E>(s: Consumer<E>, limit: int, idOf: E -> string)
    requires ReadsInOrder(s, idOf) && limit > 0
    ensures NextConsumer(s, Poll(limit), idOf).read == s.store.log[..Smaller(s.last + limit, |s.store.log|)]
  {
    NextUnread(s.store.log, 0, s.last);
    var n := Smaller(s.last + limit, |s.store.log|);
    assert s.store.log[..s.last] + s.store.log[s.last..n] == s.store.log[..n];
  }

  /** n polls with the same limit, and no Append in between. */
  function Polls<E>(s: Consumer<E>, limit: int, n: nat, idOf: E -> string): Consumer<E> {
    if n == 0 then s else NextConsumer(Polls(s, limit, n - 1, idOf), Poll(limit), idOf)
  }

  lemma PollAdvances<E>(s: Consumer<E>, limit: int, s': Consumer<E>, idOf: E -> string)
    requires ReadsInOrder(s, idOf) && limit > 0 && s' == NextConsumer(s, Poll(limit), idOf)
    ensures ReadsInOrder(s', idOf) && s'.store == s.store && s'.last == Smaller(s.last + limit, |s.store.log|)
  {
    LimitedPollReadsExactly(s, limit, idOf);
    PollReadsOn(s, limit, idOf);
  }

  /** At least n more entries are read, or all. */
  ghost predicate ReadFurther<E>(s: Consumer<E>, s': Consumer<E>, n: nat, idOf: E -> string) {
    ReadsInOrder(s', idOf) && s'.store == s.store && s'.last >= Smaller(s.last + n, |s.store.log|)
  }

  lemma ReadOneFurther<E>(s: Consumer<E>, mid: Consumer<E>, limit: int, s': Consumer<E>, n: nat, idOf: E -> string)
    requires n > 0 && ReadFurther(s, mid, n - 1, idOf) && limit > 0 && s' == NextConsumer(mid, Poll(limit), idOf)
    ensures ReadFurther(s, s', n, idOf)
  {
    PollAdvances(mid, limit, s', idOf);
  }

  lemma {:induction false} PollsAdvance<E>(s: Consumer<E>, limit: int, n: nat, idOf: E -> string)
    requires ReadsInOrder(s, idOf) && limit > 0
    ensures ReadFurther(s, Polls(s, limit, n, idOf), n, idOf)
  {
    if n > 0 {
      PollsAdvance(s, limit, n - 1, idOf);
      ReadOneFurther(s, Polls(s, limit, n - 1, idOf), limit, Polls(s, limit, n, idOf), n, idOf);
    }
  }

  /** Polling with any positive limit makes progress: as many polls as there are unread entries read them all. */
  lemma EnoughPollsCatchUp<E>(s: Consumer<E>, limit: int, n: nat, idOf: E -> string)
    requires ReadsInOrder(s, idOf) && limit > 0 && n >= |s.store.log| - s.last
    ensures Polls(s, limit, n, idOf).read == s.store.log
  {
    PollsAdvance(s, limit, n, idOf);
  }

  /** The entries that a batch adds to the global log. */
  ghost predicate Logged<E>(log: seq<Entry<E>>, log': seq<Entry<E>>, batch: seq<E>, n: nat)
    requires n <= |batch|
  {
    && |log'| == |log| + n && log <= log'
    && forall i | 0 <= i < n :: log'[|log| + i].event == batch[i]
  }

  /** Filing a batch adds its events, in order and nothing else, to the global log. */
  lemma {:induction false} FilingLogsTheBatch<E>(v: Events<E>, batch: seq<E>, n: nat, idOf: E -> string)
    requires n <= |batch|
    ensures Logged(v.log, FileAll(v, batch, n, idOf).log, batch, n)
  {
    if n > 0 { FilingLogsTheBatch(v, batch, n - 1, idOf); }
  }

  // ---------------------------------------------------------------- the store's methods

  class EventSourceStore<E> {
    const idOf: E -> string
    var events: map<string, seq<E>>
    var globalEvents: seq<Entry<E>>
    var nextPosition: int

    constructor (idOf: E -> string)
      ensures this.idOf == idOf && View() == Empty()
    {
      this.idOf := idOf;
      events, globalEvents, nextPosition := map[], [], 0;
    }

    ghost function View(): Events<E>
      reads this
    {
      Events(events, globalEvents, nextPosition)
    }

    method Append(aggregateID: string, expectedVersion: int, batch: seq<E>) returns (nil: bool)
      modifies this
      ensures nil <==> expectedVersion == old(if aggregateID in events then |events[aggregateID]| else 0)
      ensures nil == Accepts(old(View()), aggregateID, expectedVersion)
      ensures View() == AfterAppend(old(View()), aggregateID, expectedVersion, batch, idOf)
      ensures if nil then Logged(old(globalEvents), globalEvents, batch, |batch|) else View() == old(View())
    {
      FilingLogsTheBatch(View(), batch, |batch|, idOf);
      var current := if aggregateID in events then |events[aggregateID]| else 0;
      if current != expectedVersion { return false; }
      var i := 0;
      while i < |batch|
        invariant i <= |batch| && View() == FileAll(old(View()), batch, i, idOf)
      {
        var evt := batch[i];
        var aggID := idOf(evt);
        events := events[aggID := (if aggID in events then events[aggID] else []) + [evt]];
        nextPosition := nextPosition + 1;
        globalEvents := globalEvents + [Entry(nextPosition, evt)];
        i := i + 1;
      }
      nil := true;
    }

    /** The events of the stream after the version. On a known aggregate a negative version would panic. */
    method Load(aggregateID: string, afterVersion: int) returns (result: seq<E>)
      requires afterVersion >= 0 || aggregateID !in events
      ensures aggregateID !in events ==> result == []
      ensures afterVersion >= 0 ==>
              var stream := Stream(View(), aggregateID);
              result == stream[if afterVersion < |stream| then afterVersion else |stream|..]
    {
      if aggregateID !in events || afterVersion >= |events[aggregateID]| { return []; }
      result := events[aggregateID][afterVersion..];
    }

    method LoadAll(afterPosition: int, limit: int) returns (result: seq<Entry<E>>)
      ensures result == Page(globalEvents, afterPosition, limit)
      ensures var start := FirstAfter(globalEvents, 0, afterPosition);
              var n := |globalEvents| - start;
              result == globalEvents[start..start + if limit > 0 then Smaller(limit, n) else n]
    {
      PageExactly(globalEvents, afterPosition, limit);
      var startIdx := 0;
      while startIdx < |globalEvents| && globalEvents[startIdx].position <= afterPosition
        invariant startIdx <= |globalEvents|
        invariant FirstAfter(globalEvents, 0, afterPosition) == FirstAfter(globalEvents, startIdx, afterPosition)
      {
        startIdx := startIdx + 1;
      }
      if startIdx >= |globalEvents| { return []; }
      var endIdx := |globalEvents|;
      if limit > 0 && startIdx + limit < endIdx { endIdx := startIdx + limit; }
      result := [];
      var i := startIdx;
      while i < endIdx
        invariant startIdx <= i <= endIdx && result == globalEvents[startIdx..i]
      {
        assert globalEvents[startIdx..i + 1] == globalEvents[startIdx..i] + [globalEvents[i]];
        result := result + [globalEvents[i]];
        i := i + 1;
      }
    }
  }
}
