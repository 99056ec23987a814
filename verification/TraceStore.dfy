/**
 The in-memory trace store (trace/store.go): a bounded log of spans with an inverted index that is
 rebuilt on eviction, against plain filtering of the spans ever recorded.
 */
module TraceStore {
  import opened Wrappers
  import TraceLike

  /** Instants are integers; 0 is the zero time, which a filter uses for "not set". */
  datatype Span = Span(
    id: string, traceId: string, parentId: string, spanType: string, name: string, status: string,
    error: string, startedAt: int, duration: int)

  datatype TraceFilter = TraceFilter(
    traceId: string, spanType: string, status: string, startTime: int, endTime: int, nameContains: string)

  // ---------------------------------------------------------------- eviction

  /** The first position from i on whose span did not start before the cutoff. */
  function FirstFresh(spans: seq<Span>, i: nat, cutoff: int): (n: nat)
    requires i <= |spans|
    ensures i <= n <= |spans|
    ensures forall j | i <= j < n :: spans[j].startedAt < cutoff
    ensures n < |spans| ==> spans[n].startedAt >= cutoff
    decreases |spans| - i
  {
    if i < |spans| && spans[i].startedAt < cutoff then FirstFresh(spans, i + 1, cutoff) else i
  }

  function FirstValid(spans: seq<Span>, cutoff: int, maxSpans: nat): (n: nat)
    ensures n <= |spans| && |spans| - n <= maxSpans
  {
    var n := FirstFresh(spans, 0, cutoff);
    if |spans| - n > maxSpans then |spans| - maxSpans else n
  }

  function Evicted(spans: seq<Span>, cutoff: int, maxSpans: nat): seq<Span> {
    spans[FirstValid(spans, cutoff, maxSpans)..]
  }

  /** Recording a span, or a tick of the background cleanup, each at a time of the clock. */
  datatype Event = Record(span: Span, now: int) | Cleanup(now: int)

  function NewSpans(e: Event): seq<Span> {
    if e.Record? then [e.span] else []
  }

  /** What the store holds, and everything recorded so far. */
  datatype Log = Log(kept: seq<Span>, all: seq<Span>)

  function Next(log: Log, e: Event, ttl: int, maxSpans: nat): Log {
    Log(Evicted(log.kept + NewSpans(e), e.now - ttl, maxSpans), log.all + NewSpans(e))
  }

  ghost predicate StepOk(events: seq<Event>, logs: seq<Log>, k: nat, ttl: int, maxSpans: nat)
    requires k < |events| && |logs| == |events| + 1
  {
    logs[k + 1] == Next(logs[k], events[k], ttl, maxSpans)
  }

  /** logs[k] is the state after the first k events on an empty store. */
  ghost predicate Run(events: seq<Event>, logs: seq<Log>, ttl: int, maxSpans: nat) {
    && |logs| == |events| + 1
    && logs[0] == Log([], [])
    && forall k | 0 <= k < |events| :: StepOk(events, logs, k, ttl, maxSpans)
  }

  ghost predicate IsSuffix(part: seq<Span>, whole: seq<Span>) {
    |part| <= |whole| && part == whole[|whole| - |part|..]
  }

  /** The spans of the recordings among the first k events, in order. */
  function Recorded(events: seq<Event>, k: nat): seq<Span>
    requires k <= |events|
  {
    if k == 0 then []
    else match events[k - 1]
         case Record(span, _) => Recorded(events, k - 1) + [span]
         case Cleanup(_) => Recorded(events, k - 1)
  }

  /** A run accounts for every recording and nothing else. */
  lemma {:induction false} AllIsRecorded(events: seq<Event>, logs: seq<Log>, k: nat, ttl: int, maxSpans: nat)
    requires Run(events, logs, ttl, maxSpans) && k <= |events|
    ensures logs[k].all == Recorded(events, k)
  {
    if k > 0 {
      AllIsRecorded(events, logs, k - 1, ttl, maxSpans);
      assert StepOk(events, logs, k - 1, ttl, maxSpans);
    }
  }

  lemma EvictionKeepsASuffix(kept: seq<Span>, all: seq<Span>, more: seq<Span>, cutoff: int, maxSpans: nat)
    requires IsSuffix(kept, all)
    ensures IsSuffix(Evicted(kept + more, cutoff, maxSpans), all + more)
    ensures |Evicted(kept + more, cutoff, maxSpans)| <= maxSpans
  {
    var dropped, first := |all| - |kept|, FirstValid(kept + more, cutoff, maxSpans);
    assert (all + more)[dropped..] == kept + more;
    assert (all + more)[dropped + first..] == (all + more)[dropped..][first..];
  }

  /** After any run, with any clocks, the store holds the newest spans, at most maxSpans of them. */
  lemma {:induction false} RetainedIsASuffix(events: seq<Event>, logs: seq<Log>, k: nat, ttl: int, maxSpans: nat)
    requires Run(events, logs, ttl, maxSpans) && k <= |events|
    ensures IsSuffix(logs[k].kept, logs[k].all) && |logs[k].kept| <= maxSpans
  {
    if k > 0 {
      RetainedIsASuffix(events, logs, k - 1, ttl, maxSpans);
      assert StepOk(events, logs, k - 1, ttl, maxSpans);
      var e := events[k - 1];
      EvictionKeepsASuffix(logs[k - 1].kept, logs[k - 1].all, NewSpans(e), e.now - ttl, maxSpans);
    }
  }

  ghost predicate StartsAscend(spans: seq<Span>) {
    forall i, j | 0 <= i < j < |spans| :: spans[i].startedAt <= spans[j].startedAt
  }

  function Now(e: Event): int {
    e.now
  }

  ghost predicate ClocksAscend(events: seq<Event>) {
    forall i, j | 0 <= i < j < |events| :: Now(events[i]) <= Now(events[j])
  }

  /** The cutoff of the event before event k - 1, or of that event itself when it is the first. */
  function CutoffBefore(events: seq<Event>, k: nat, ttl: int): (cutoff: int)
    requires 0 < k <= |events|
    ensures ClocksAscend(events) ==> cutoff <= Now(events[k - 1]) - ttl
  {
    if k > 1 then Now(events[k - 2]) - ttl else Now(events[0]) - ttl
  }

  /** Span p, if it is among the newest maxSpans and started no earlier than the cutoff, is kept. */
  ghost predicate KeptIfFresh(kept: seq<Span>, all: seq<Span>, cutoff: int, maxSpans: nat, p: nat)
    requires p < |all|
  {
    all[p].startedAt >= cutoff && p >= |all| - maxSpans ==> p >= |all| - |kept|
  }

  ghost predicate KeepsTheFresh(kept: seq<Span>, all: seq<Span>, cutoff: int, maxSpans: nat) {
    IsSuffix(kept, all) && forall p | 0 <= p < |all| :: KeptIfFresh(kept, all, cutoff, maxSpans, p)
  }

  lemma EvictionKeepsTheFresh(
      kept: seq<Span>, all: seq<Span>, cutoff: int, more: seq<Span>, cutoff': int, maxSpans: nat)
    requires KeepsTheFresh(kept, all, cutoff, maxSpans) && cutoff <= cutoff'
    ensures KeepsTheFresh(Evicted(kept + more, cutoff', maxSpans), all + more, cutoff', maxSpans)
  {
    var whole, candidates, dropped := all + more, kept + more, |all| - |kept|;
    EvictionKeepsASuffix(kept, all, more, cutoff', maxSpans);
    assert whole[dropped..] == candidates;
    forall p | 0 <= p < |whole|
      ensures KeptIfFresh(Evicted(candidates, cutoff', maxSpans), whole, cutoff', maxSpans, p)
    {
      if p < dropped {
        assert whole[p] == all[p] && KeptIfFresh(kept, all, cutoff, maxSpans, p);
      } else {
        assert whole[p] == candidates[p - dropped];
      }
    }
  }

  /**
   In whatever order spans are recorded, if the clock does not run backwards: every span of the newest
   maxSpans that is not older than the ttl is retained.
   */
  lemma {:induction false} FreshSpansAreRetained(events: seq<Event>, logs: seq<Log>, k: nat, ttl: int, maxSpans: nat)
    requires Run(events, logs, ttl, maxSpans) && 0 < k <= |events| && ClocksAscend(events)
    ensures KeepsTheFresh(logs[k].kept, logs[k].all, Now(events[k - 1]) - ttl, maxSpans)
  {
    var cutoff := CutoffBefore(events, k, ttl);
    assert KeepsTheFresh(logs[k - 1].kept, logs[k - 1].all, cutoff, maxSpans) by {
      if k > 1 { FreshSpansAreRetained(events, logs, k - 1, ttl, maxSpans); }
    }
    assert StepOk(events, logs, k - 1, ttl, maxSpans);
    var e := events[k - 1];
    EvictionKeepsTheFresh(logs[k - 1].kept, logs[k - 1].all, cutoff, NewSpans(e), Now(e) - ttl, maxSpans);
  }

  /** Span p is kept exactly when it is among the newest maxSpans and started no earlier than the cutoff. */
  ghost predicate RightlyKept(kept: seq<Span>, all: seq<Span>, cutoff: int, maxSpans: nat, p: nat)
    requires p < |all|
  {
    p >= |all| - |kept| <==> all[p].startedAt >= cutoff && p >= |all| - maxSpans
  }

  ghost predicate KeptExactly(kept: seq<Span>, all: seq<Span>, cutoff: int, maxSpans: nat) {
    IsSuffix(kept, all) && forall p | 0 <= p < |all| :: RightlyKept(kept, all, cutoff, maxSpans, p)
  }

  /** On ascending spans an eviction splits exactly at the cutoff and the bound. */
  lemma FirstValidSplits(spans: seq<Span>, cutoff: int, maxSpans: nat, i: nat)
    requires StartsAscend(spans) && i < |spans|
    ensures i >= FirstValid(spans, cutoff, maxSpans) <==> spans[i].startedAt >= cutoff && i >= |spans| - maxSpans
  {
    var n := FirstFresh(spans, 0, cutoff);
    if n < i { assert spans[n].startedAt <= spans[i].startedAt; }
  }

  lemma AscendingTail(spans: seq<Span>, from: nat)
    requires StartsAscend(spans) && from <= |spans|
    ensures StartsAscend(spans[from..])
  {
  }

  lemma EvictionKeepsExactly(kept: seq<Span>, all: seq<Span>, cutoff: int, more: seq<Span>, cutoff': int, maxSpans: nat)
    requires KeptExactly(kept, all, cutoff, maxSpans) && cutoff <= cutoff' && StartsAscend(all + more)
    ensures KeptExactly(Evicted(kept + more, cutoff', maxSpans), all + more, cutoff', maxSpans)
  {
    var whole, candidates, dropped := all + more, kept + more, |all| - |kept|;
    EvictionKeepsASuffix(kept, all, more, cutoff', maxSpans);
    assert whole[dropped..] == candidates;
    AscendingTail(whole, dropped);
    var first := FirstValid(candidates, cutoff', maxSpans);
    forall p | 0 <= p < |whole|
      ensures RightlyKept(Evicted(candidates, cutoff', maxSpans), whole, cutoff', maxSpans, p)
    {
      if p < dropped {
        assert whole[p] == all[p] && RightlyKept(kept, all, cutoff, maxSpans, p);
      } else {
        FirstValidSplits(candidates, cutoff', maxSpans, p - dropped);
        assert whole[p] == candidates[p - dropped];
      }
    }
  }

  /**
   When spans are also recorded in the order of their start, nothing else is retained: the store holds
   exactly the spans among the newest maxSpans that are not older than the ttl.
   */
  lemma {:induction false} RetainedExactly(events: seq<Event>, logs: seq<Log>, k: nat, ttl: int, maxSpans: nat)
    requires Run(events, logs, ttl, maxSpans) && 0 < k <= |events|
    requires StartsAscend(logs[k].all) && ClocksAscend(events)
    ensures KeptExactly(logs[k].kept, logs[k].all, Now(events[k - 1]) - ttl, maxSpans)
  {
    var cutoff := CutoffBefore(events, k, ttl);
    assert KeptExactly(logs[k - 1].kept, logs[k - 1].all, cutoff, maxSpans) by {
      if k > 1 {
        AscendingBefore(events, logs, k - 1, ttl, maxSpans);
        RetainedExactly(events, logs, k - 1, ttl, maxSpans);
      }
    }
    assert StepOk(events, logs, k - 1, ttl, maxSpans);
    NextKeepsExactly(logs[k - 1], logs[k], cutoff, events[k - 1], ttl, maxSpans);
  }

  lemma AscendingBefore(events: seq<Event>, logs: seq<Log>, k: nat, ttl: int, maxSpans: nat)
    requires Run(events, logs, ttl, maxSpans) && k < |events| && StartsAscend(logs[k + 1].all)
    ensures StartsAscend(logs[k].all)
  {
    assert StepOk(events, logs, k, ttl, maxSpans);
    AscendingPart(logs[k].all, NewSpans(events[k]));
  }

  lemma NextKeepsExactly(log: Log, log': Log, cutoff: int, e: Event, ttl: int, maxSpans: nat)
    requires log' == Next(log, e, ttl, maxSpans)
    requires KeptExactly(log.kept, log.all, cutoff, maxSpans) && cutoff <= Now(e) - ttl && StartsAscend(log'.all)
    ensures KeptExactly(log'.kept, log'.all, Now(e) - ttl, maxSpans)
  {
    EvictionKeepsExactly(log.kept, log.all, cutoff, NewSpans(e), Now(e) - ttl, maxSpans);
  }

  lemma AscendingPart(front: seq<Span>, back: seq<Span>)
    requires StartsAscend(front + back)
    ensures StartsAscend(front)
  {
    forall i, j | 0 <= i < j < |front| ensures front[i].startedAt <= front[j].startedAt {
      assert front[i] == (front + back)[i] && front[j] == (front + back)[j];
    }
  }

  /**
   In general an old span can hide behind a younger one. After an eviction no expired span is left
   exactly when no unexpired span stands before an expired one of the newest maxSpans.
   */
  lemma NothingExpiredIsLeftIff(spans: seq<Span>, cutoff: int, maxSpans: nat)
    ensures (forall s | s in Evicted(spans, cutoff, maxSpans) :: s.startedAt >= cutoff) <==>
            (forall i, j | 0 <= i < j < |spans| && j >= |spans| - maxSpans ::
               spans[i].startedAt >= cutoff ==> spans[j].startedAt >= cutoff)
  {
    var first, prefix := FirstValid(spans, cutoff, maxSpans), FirstFresh(spans, 0, cutoff);
    var left := Evicted(spans, cutoff, maxSpans);
    forall j | first <= j < |spans| ensures spans[j] in left {
      assert left[j - first] == spans[j];
    }
    forall s | s in left ensures exists j | first <= j < |spans| :: spans[j] == s {
      var k :| 0 <= k < |left| && left[k] == s;
      assert spans[first + k] == s;
    }
  }

  /** Two spans recorded at time 10 with a ttl of 5: the second one, recorded late, has long expired. */
  lemma ExpiredSpanStaysBehindAYoungerOne(young: Span, old': Span)
    requires young.startedAt == 10 && old'.startedAt == 0
    ensures var events := [Record(young, 10), Record(old', 10)];
            var logs := [Log([], []), Log([young], [young]), Log([young, old'], [young, old'])];
            Run(events, logs, 5, 2) && old' in logs[2].kept && old'.startedAt < Now(events[1]) - 5
  {
    var events := [Record(young, 10), Record(old', 10)];
    var logs := [Log([], []), Log([young], [young]), Log([young, old'], [young, old'])];
    assert [] + [young] == [young] && [young] + [old'] == [young, old'];
    assert FirstFresh([young], 0, 5) == 0 && FirstFresh([young, old'], 0, 5) == 0;
    assert [young][0..] == [young] && [young, old'][0..] == [young, old'];
    forall k | 0 <= k < 2 ensures StepOk(events, logs, k, 5, 2) {
      assert k == 0 || k == 1;
    }
  }

  // ---------------------------------------------------------------- the index

  /** Where the spans of a trace are among the first n, in order. */
  function Positions(spans: seq<Span>, n: nat, traceId: string): seq<nat>
    requires n <= |spans|
  {
    if n == 0 then []
    else Positions(spans, n - 1, traceId) + (if spans[n - 1].traceId == traceId then [n - 1] else [])
  }

  lemma {:induction false} PositionsAscend(spans: seq<Span>, n: nat, traceId: string)
    requires n <= |spans|
    ensures forall i | 0 <= i < |Positions(spans, n, traceId)| :: Positions(spans, n, traceId)[i] < n
    ensures forall i, j | 0 <= i < j < |Positions(spans, n, traceId)| ::
              Positions(spans, n, traceId)[i] < Positions(spans, n, traceId)[j]
  {
    if n > 0 { PositionsAscend(spans, n - 1, traceId); }
  }

  lemma {:induction false} PositionsExactly(spans: seq<Span>, n: nat, traceId: string, p: nat)
    requires n <= |spans|
    ensures p in Positions(spans, n, traceId) <==> p < n && spans[p].traceId == traceId
  {
    if n > 0 { PositionsExactly(spans, n - 1, traceId, p); }
  }

  lemma {:induction false} PositionsIgnoreTheRest(spans: seq<Span>, more: seq<Span>, n: nat, traceId: string)
    requires n <= |spans|
    ensures Positions(spans + more, n, traceId) == Positions(spans, n, traceId)
  {
    if n > 0 { PositionsIgnoreTheRest(spans, more, n - 1, traceId); }
  }

  /** What the index says of one trace: its ascending positions, or nothing when it has no spans. */
  ghost predicate IndexesTrace(index: map<string, seq<nat>>, spans: seq<Span>, id: string) {
    && (id in index <==> Positions(spans, |spans|, id) != [])
    && (id in index ==> index[id] == Positions(spans, |spans|, id))
  }

  /** The index maps each trace that has spans to exactly its ascending positions. */
  ghost predicate Indexes(index: map<string, seq<nat>>, spans: seq<Span>) {
    forall id :: IndexesTrace(index, spans, id)
  }

  function AddPosition(index: map<string, seq<nat>>, traceId: string, p: nat): map<string, seq<nat>> {
    index[traceId := (if traceId in index then index[traceId] else []) + [p]]
  }

  /** A trace is in the index exactly when some span has its id. */
  lemma IndexedIff(index: map<string, seq<nat>>, spans: seq<Span>, id: string)
    requires Indexes(index, spans)
    ensures id in index <==> exists p :: 0 <= p < |spans| && spans[p].traceId == id
    ensures id in index ==> index[id] == Positions(spans, |spans|, id)
  {
    assert IndexesTrace(index, spans, id);
    var ps := Positions(spans, |spans|, id);
    if ps != [] { PositionsExactly(spans, |spans|, id, ps[0]); }
    forall p | 0 <= p < |spans| && spans[p].traceId == id ensures ps != [] {
      PositionsExactly(spans, |spans|, id, p);
    }
  }

  lemma PositionsGrow(spans: seq<Span>, span: Span, id: string)
    ensures Positions(spans + [span], |spans| + 1, id) ==
              Positions(spans, |spans|, id) + (if span.traceId == id then [|spans|] else [])
  {
    PositionsIgnoreTheRest(spans, [span], |spans|, id);
  }

  lemma IndexGrows(index: map<string, seq<nat>>, spans: seq<Span>, span: Span)
    requires Indexes(index, spans)
    ensures Indexes(AddPosition(index, span.traceId, |spans|), spans + [span])
  {
    var index', spans' := AddPosition(index, span.traceId, |spans|), spans + [span];
    forall id ensures IndexesTrace(index', spans', id) {
      assert IndexesTrace(index, spans, id);
      PositionsGrow(spans, span, id);
    }
  }

  /** The spans of a trace among the first n, by plain filtering. */
  function SpansOf(spans: seq<Span>, n: nat, traceId: string): seq<Span>
    requires n <= |spans|
  {
    if n == 0 then []
    else SpansOf(spans, n - 1, traceId) + (if spans[n - 1].traceId == traceId then [spans[n - 1]] else [])
  }

  lemma {:induction false} PositionsSelectSpans(spans: seq<Span>, n: nat, traceId: string)
    requires n <= |spans|
    ensures |SpansOf(spans, n, traceId)| == |Positions(spans, n, traceId)|
    ensures forall i | 0 <= i < |Positions(spans, n, traceId)| ::
              Positions(spans, n, traceId)[i] < n
                  && SpansOf(spans, n, traceId)[i] == spans[Positions(spans, n, traceId)[i]]
  {
    if n > 0 { PositionsSelectSpans(spans, n - 1, traceId); }
  }

  // ---------------------------------------------------------------- the filter

  function AnyMatch(spans: seq<Span>, pred: Span -> bool): (found: bool)
    ensures found <==> exists i :: 0 <= i < |spans| && pred(spans[i])
  {
    if spans == [] then false
    else pred(spans[0]) || AnyMatch(spans[1..], pred)
  }

  /** The conditions of a filter, each of which may be unset. */
  datatype Condition = OnTraceId | OnType | OnStatus | OnStart | OnEnd | OnName

  predicate IsSet(f: TraceFilter, c: Condition) {
    match c
    case OnTraceId => f.traceId != ""
    case OnType => f.spanType != ""
    case OnStatus => f.status != ""
    case OnStart => f.startTime != 0
    case OnEnd => f.endTime != 0
    case OnName => f.nameContains != ""
  }

  /** One span meets one condition of the filter. */
  predicate Meets(f: TraceFilter, c: Condition, s: Span) {
    match c
    case OnTraceId => s.traceId == f.traceId
    case OnType => s.spanType == f.spanType
    case OnStatus => s.status == f.status
    case OnStart => !(s.startedAt < f.startTime)
    case OnEnd => !(s.startedAt > f.endTime)
    case OnName => TraceLike.Contains(s.name, f.nameContains)
  }

  /** matchesFilter, branch by branch. */
  predicate MatchesFilter(spans: seq<Span>, f: TraceFilter) {
    if IsSet(f, OnTraceId) && !AnyMatch(spans, s => Meets(f, OnTraceId, s)) then false
    else if IsSet(f, OnType) && !AnyMatch(spans, s => Meets(f, OnType, s)) then false
    else if IsSet(f, OnStatus) && !AnyMatch(spans, s => Meets(f, OnStatus, s)) then false
    else if IsSet(f, OnStart) && !AnyMatch(spans, s => Meets(f, OnStart, s)) then false
    else if IsSet(f, OnEnd) && !AnyMatch(spans, s => Meets(f, OnEnd, s)) then false
    else if IsSet(f, OnName) && !AnyMatch(spans, s => Meets(f, OnName, s)) then false
    else true
  }

  /** The spans at p of trace id, for a retained span log. */
  ghost predicate SomeSpanMeets(spans: seq<Span>, id: string, f: TraceFilter, c: Condition) {
    exists p :: 0 <= p < |spans| && spans[p].traceId == id && Meets(f, c, spans[p])
  }

  /** A trace is listed: each condition that is set is met by some span of the trace. */
  ghost predicate MemoryLists(spans: seq<Span>, f: TraceFilter, id: string) {
    && (exists p :: 0 <= p < |spans| && spans[p].traceId == id)
    && (f.traceId != "" ==> id == f.traceId)
    && forall c | IsSet(f, c) :: SomeSpanMeets(spans, id, f, c)
  }

  lemma AnyMatchInTrace(spans: seq<Span>, id: string, f: TraceFilter, c: Condition)
    ensures AnyMatch(SpansOf(spans, |spans|, id), s => Meets(f, c, s)) <==> SomeSpanMeets(spans, id, f, c)
  {
    var ps, found := Positions(spans, |spans|, id), SpansOf(spans, |spans|, id);
    PositionsSelectSpans(spans, |spans|, id);
    if SomeSpanMeets(spans, id, f, c) {
      var p :| 0 <= p < |spans| && spans[p].traceId == id && Meets(f, c, spans[p]);
      PositionsExactly(spans, |spans|, id, p);
      var i :| 0 <= i < |ps| && ps[i] == p;
      assert Meets(f, c, found[i]);
    }
    if i :| 0 <= i < |found| && Meets(f, c, found[i]) {
      PositionsExactly(spans, |spans|, id, ps[i]);
      assert ps[i] in ps && Meets(f, c, spans[ps[i]]);
    }
  }

  /** The chain of branches asks for each condition that is set. */
  lemma MatchesFilterMeans(spans: seq<Span>, id: string, f: TraceFilter)
    ensures MatchesFilter(SpansOf(spans, |spans|, id), f) <==>
              forall c | IsSet(f, c) :: SomeSpanMeets(spans, id, f, c)
  {
    forall c ensures AnyMatch(SpansOf(spans, |spans|, id), s => Meets(f, c, s)) <==> SomeSpanMeets(spans, id, f, c) {
      AnyMatchInTrace(spans, id, f, c);
    }
    assert MatchesFilter(SpansOf(spans, |spans|, id), f) <==>
           && (IsSet(f, OnTraceId) ==> SomeSpanMeets(spans, id, f, OnTraceId))
           && (IsSet(f, OnType) ==> SomeSpanMeets(spans, id, f, OnType))
           && (IsSet(f, OnStatus) ==> SomeSpanMeets(spans, id, f, OnStatus))
           && (IsSet(f, OnStart) ==> SomeSpanMeets(spans, id, f, OnStart))
           && (IsSet(f, OnEnd) ==> SomeSpanMeets(spans, id, f, OnEnd))
           && (IsSet(f, OnName) ==> SomeSpanMeets(spans, id, f, OnName));
  }

  ghost predicate Retained(spans: seq<Span>, id: string) {
    exists p :: 0 <= p < |spans| && spans[p].traceId == id
  }

  /** What each field of a filter does on its own: a zero value asks for nothing. */
  lemma FieldsOfAFilter(spans: seq<Span>, id: string, text: string, at: int)
    requires Retained(spans, id)
    ensures MemoryLists(spans, TraceFilter(text, "", "", 0, 0, ""), id) <==> text == "" || id == text
    ensures MemoryLists(spans, TraceFilter("", text, "", 0, 0, ""), id) <==>
              text == "" || exists p :: 0 <= p < |spans| && spans[p].traceId == id && spans[p].spanType == text
    ensures MemoryLists(spans, TraceFilter("", "", text, 0, 0, ""), id) <==>
              text == "" || exists p :: 0 <= p < |spans| && spans[p].traceId == id && spans[p].status == text
    ensures MemoryLists(spans, TraceFilter("", "", "", at, 0, ""), id) <==>
              at == 0 || exists p :: 0 <= p < |spans| && spans[p].traceId == id && spans[p].startedAt >= at
    ensures MemoryLists(spans, TraceFilter("", "", "", 0, at, ""), id) <==>
              at == 0 || exists p :: 0 <= p < |spans| && spans[p].traceId == id && spans[p].startedAt <= at
    ensures MemoryLists(spans, TraceFilter("", "", "", 0, 0, text), id) <==>
              text == "" || exists p, i ::
                              && 0 <= p < |spans| && spans[p].traceId == id
                              && 0 <= i <= |spans[p].name| && text <= spans[p].name[i..]
  {
    OneFieldOfAFilter(spans, id, TraceFilter(text, "", "", 0, 0, ""), OnTraceId);
    OneFieldOfAFilter(spans, id, TraceFilter("", text, "", 0, 0, ""), OnType);
    OneFieldOfAFilter(spans, id, TraceFilter("", "", text, 0, 0, ""), OnStatus);
    OneFieldOfAFilter(spans, id, TraceFilter("", "", "", at, 0, ""), OnStart);
    OneFieldOfAFilter(spans, id, TraceFilter("", "", "", 0, at, ""), OnEnd);
    OneFieldOfAFilter(spans, id, TraceFilter("", "", "", 0, 0, text), OnName);
  }

  lemma OneFieldOfAFilter(spans: seq<Span>, id: string, f: TraceFilter, c: Condition)
    requires Retained(spans, id) && forall x | x != c :: !IsSet(f, x)
    ensures MemoryLists(spans, f, id) <==>
              (IsSet(f, c) ==> SomeSpanMeets(spans, id, f, c)) && (f.traceId != "" ==> id == f.traceId)
  {
  }

  // ---------------------------------------------------------------- the store

  class InMemoryTraceStore {
    var spans: seq<Span>
    var traceIndex: map<string, seq<nat>>
    const ttl: int
    const maxSpans: nat

    ghost predicate Valid()
      reads this
    {
      Indexes(traceIndex, spans)
    }

    constructor (ttl: int, maxSpans: nat)
      ensures Valid() && spans == [] && this.ttl == ttl && this.maxSpans == maxSpans
    {
      this.ttl, this.maxSpans := ttl, maxSpans;
      spans, traceIndex := [], map[];
    }

    method RecordSpan(span: Span, now: int)
      requires Valid()
      modifies this
      ensures Valid()
      ensures spans == Evicted(old(spans) + [span], now - ttl, maxSpans)
    {
      var idx := |spans|;
      IndexGrows(traceIndex, spans, span);
      spans := spans + [span];
      traceIndex := AddPosition(traceIndex, span.traceId, idx);
      Evict(now);
    }

    method Evict(now: int)
      requires Valid()
      modifies this
      ensures Valid()
      ensures spans == Evicted(old(spans), now - ttl, maxSpans)
    {
      var firstValid := CountExpired(now - ttl);
      if |spans| - firstValid > maxSpans { firstValid := |spans| - maxSpans; }
      if firstValid > 0 {
        spans := spans[firstValid..];
        RebuildIndex();
      }
    }

    /** The first loop of evict. */
    method CountExpired(cutoff: int) returns (firstValid: nat)
      ensures firstValid == FirstFresh(spans, 0, cutoff)
    {
      firstValid := 0;
      while firstValid < |spans| && spans[firstValid].startedAt < cutoff
        invariant firstValid <= |spans|
        invariant FirstFresh(spans, 0, cutoff) == FirstFresh(spans, firstValid, cutoff)
      {
        firstValid := firstValid + 1;
      }
    }

    method RebuildIndex()
      modifies this`traceIndex
      ensures Valid()
    {
      traceIndex := map[];
      var i := 0;
      while i < |spans|
        invariant i <= |spans|
        invariant Indexes(traceIndex, spans[..i])
      {
        IndexGrows(traceIndex, spans[..i], spans[i]);
        assert spans[..i] + [spans[i]] == spans[..i + 1];
        traceIndex := AddPosition(traceIndex, spans[i].traceId, i);
        i := i + 1;
      }
      assert spans[..i] == spans;
    }

    /** The retained spans of the trace in recording order; not found exactly when there is none. */
    method GetTrace(traceId: string) returns (result: Option<seq<Span>>)
      requires Valid()
      ensures result.None? <==> forall p | 0 <= p < |spans| :: spans[p].traceId != traceId
      ensures result.Some? ==> result.value == SpansOf(spans, |spans|, traceId)
    {
      IndexedIff(traceIndex, spans, traceId);
      if traceId !in traceIndex { return None; }
      var found := Collect(traceId);
      result := Some(found);
    }

    method Collect(traceId: string) returns (found: seq<Span>)
      requires Valid() && traceId in traceIndex
      ensures found == SpansOf(spans, |spans|, traceId)
    {
      var indexes := traceIndex[traceId];
      IndexedIff(traceIndex, spans, traceId);
      PositionsSelectSpans(spans, |spans|, traceId);
      found := [];
      var i := 0;
      while i < |indexes|
        invariant i <= |indexes| && found == SpansOf(spans, |spans|, traceId)[..i]
      {
        found := found + [spans[indexes[i]]];
        i := i + 1;
      }
    }

    /** Each listed trace once, in no particular order. */
    method ListTraces(filter: TraceFilter) returns (result: seq<string>)
      requires Valid()
      ensures forall id :: id in result <==> MemoryLists(spans, filter, id)
      ensures forall i, j | 0 <= i < j < |result| :: result[i] != result[j]
    {
      result := [];
      var rest := traceIndex.Keys;
      while rest != {}
        invariant rest <= traceIndex.Keys
        invariant forall id :: id in result <==> id in traceIndex && id !in rest && MemoryLists(spans, filter, id)
        invariant forall i, j | 0 <= i < j < |result| :: result[i] != result[j]
        decreases rest
      {
        var traceId :| traceId in rest;
        rest := rest - {traceId};
        IndexedIff(traceIndex, spans, traceId);
        if filter.traceId != "" && traceId != filter.traceId { continue; }
        var found := Collect(traceId);
        MatchesFilterMeans(spans, traceId, filter);
        if !MatchesFilter(found, filter) { continue; }
        result := result + [traceId];
      }
      forall id | MemoryLists(spans, filter, id) ensures id in traceIndex {
        IndexedIff(traceIndex, spans, id);
      }
    }
  }
}
