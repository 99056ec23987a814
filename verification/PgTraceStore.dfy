/**
 Listing traces from PostgreSQL (trace/pg/trace_store.go): how the WHERE clause is built, what it
 selects, and where it differs from the in-memory listing of the same spans.
 */
module PgTraceStore {
  import opened TraceLike
  import opened TraceStore

  datatype Column = TraceIdColumn | TypeColumn | StatusColumn | StartedAtColumn | NameColumn

  datatype Operator = Equal | AtLeast | AtMost | LikeEscaped

  datatype Value = Text(text: string) | Instant(instant: int)

  /** " AND <column> <operator> $<argIdx>" */
  datatype Clause = Clause(column: Column, operator: Operator, argIdx: int)

  function ColumnOf(s: Span, c: Column): Value {
    match c
    case TraceIdColumn => Text(s.traceId)
    case TypeColumn => Text(s.spanType)
    case StatusColumn => Text(s.status)
    case StartedAtColumn => Instant(s.startedAt)
    case NameColumn => Text(s.name)
  }

  /** Column, operator and argument of each condition. */
  function ColumnFor(c: Condition): Column {
    match c
    case OnTraceId => TraceIdColumn
    case OnType => TypeColumn
    case OnStatus => StatusColumn
    case OnStart => StartedAtColumn
    case OnEnd => StartedAtColumn
    case OnName => NameColumn
  }

  function OperatorFor(c: Condition): Operator {
    match c
    case OnStart => AtLeast
    case OnEnd => AtMost
    case OnName => LikeEscaped
    case _ => Equal
  }

  function ArgFor(f: TraceFilter, c: Condition): Value {
    match c
    case OnTraceId => Text(f.traceId)
    case OnType => Text(f.spanType)
    case OnStatus => Text(f.status)
    case OnStart => Instant(f.startTime)
    case OnEnd => Instant(f.endTime)
    case OnName => Text(ContainsPattern(f.nameContains))
  }

  predicate Compare(v: Value, operator: Operator, arg: Value) {
    match (operator, v, arg)
    case (Equal, _, _) => v == arg
    case (AtLeast, Instant(x), Instant(y)) => x >= y
    case (AtMost, Instant(x), Instant(y)) => x <= y
    case (LikeEscaped, Text(x), Text(y)) => Like(x, y)
    case _ => false
  }

  /** Placeholder $n stands for the n-th argument. */
  predicate ClauseHolds(s: Span, clause: Clause, args: seq<Value>) {
    1 <= clause.argIdx <= |args| && Compare(ColumnOf(s, clause.column), clause.operator, args[clause.argIdx - 1])
  }

  predicate Selects(where': seq<Clause>, args: seq<Value>, s: Span) {
    forall i | 0 <= i < |where'| :: ClauseHolds(s, where'[i], args)
  }

  /** One span meets every condition that is set. */
  ghost predicate RowMatches(f: TraceFilter, s: Span) {
    forall c | IsSet(f, c) :: Meets(f, c, s)
  }

  ghost predicate PgLists(spans: seq<Span>, f: TraceFilter, id: string) {
    exists p :: 0 <= p < |spans| && spans[p].traceId == id && RowMatches(f, spans[p])
  }

  class PgTraceStore {
    var rows: seq<Span>

    constructor ()
      ensures rows == []
    {
      rows := [];
    }

    method RecordSpan(span: Span)
      modifies this
      ensures rows == old(rows) + [span]
    {
      rows := rows + [span];
    }

    static method AddClause(
        where': seq<Clause>, args: seq<Value>, argIdx: int, column: Column, operator: Operator, arg: Value)
      returns (longer: seq<Clause>, more: seq<Value>, next: int)
      requires argIdx == |args| + 1 && forall i | 0 <= i < |where'| :: where'[i].argIdx <= |args|
      ensures next == argIdx + 1 == |more| + 1 && forall i | 0 <= i < |longer| :: longer[i].argIdx <= |more|
      ensures forall s :: Selects(longer, more, s) <==>
                          Selects(where', args, s) && Compare(ColumnOf(s, column), operator, arg)
    {
      longer := where' + [Clause(column, operator, argIdx)];
      more := args + [arg];
      next := argIdx + 1;
      forall s
        ensures Selects(longer, more, s) <==>
                Selects(where', args, s) && Compare(ColumnOf(s, column), operator, arg)
      {
        forall i | 0 <= i < |where'| ensures ClauseHolds(s, longer[i], more) <==> ClauseHolds(s, where'[i], args) {
          if where'[i].argIdx >= 1 { assert more[where'[i].argIdx - 1] == args[where'[i].argIdx - 1]; }
        }
        assert ClauseHolds(s, longer[|where'|], more) <==> Compare(ColumnOf(s, column), operator, arg);
        if Selects(longer, more, s) {
          forall i | 0 <= i < |where'| ensures ClauseHolds(s, where'[i], args) {
            assert ClauseHolds(s, longer[i], more);
          }
        }
      }
    }

    /** One of the six `if` blocks: a condition that is not set adds nothing. */
    static method AddCondition(where': seq<Clause>, args: seq<Value>, argIdx: int, filter: TraceFilter, c: Condition)
      returns (longer: seq<Clause>, more: seq<Value>, next: int)
      requires argIdx == |args| + 1 && forall i | 0 <= i < |where'| :: where'[i].argIdx <= |args|
      ensures next == |more| + 1 && forall i | 0 <= i < |longer| :: longer[i].argIdx <= |more|
      ensures forall s :: Selects(longer, more, s) <==>
                          Selects(where', args, s) && (IsSet(filter, c) ==> Meets(filter, c, s))
    {
      if !IsSet(filter, c) { return where', args, argIdx; }
      longer, more, next := AddClause(where', args, argIdx, ColumnFor(c), OperatorFor(c), ArgFor(filter, c));
      forall s ensures Compare(ColumnOf(s, ColumnFor(c)), OperatorFor(c), ArgFor(filter, c)) <==> Meets(filter, c, s) {
        PatternMeansContains(s.name, filter.nameContains);
      }
    }

    /** The conditions and arguments of the query: they select exactly the rows that match. */
    static method BuildQuery(filter: TraceFilter) returns (query: seq<Clause>, args: seq<Value>)
      ensures forall s :: Selects(query, args, s) <==> RowMatches(filter, s)
    {
      query, args := [], [];
      var argIdx := 1;
      query, args, argIdx := AddCondition(query, args, argIdx, filter, OnTraceId);
      query, args, argIdx := AddCondition(query, args, argIdx, filter, OnType);
      query, args, argIdx := AddCondition(query, args, argIdx, filter, OnStatus);
      query, args, argIdx := AddCondition(query, args, argIdx, filter, OnStart);
      query, args, argIdx := AddCondition(query, args, argIdx, filter, OnEnd);
      query, args, argIdx := AddCondition(query, args, argIdx, filter, OnName);
      forall s ensures Selects(query, args, s) <==> RowMatches(filter, s) {
        assert RowMatches(filter, s) <==>
               && (IsSet(filter, OnTraceId) ==> Meets(filter, OnTraceId, s))
               && (IsSet(filter, OnType) ==> Meets(filter, OnType, s))
               && (IsSet(filter, OnStatus) ==> Meets(filter, OnStatus, s))
               && (IsSet(filter, OnStart) ==> Meets(filter, OnStart, s))
               && (IsSet(filter, OnEnd) ==> Meets(filter, OnEnd, s))
               && (IsSet(filter, OnName) ==> Meets(filter, OnName, s));
      }
    }

    /** SELECT DISTINCT trace_id over the built query. */
    method ListTraces(filter: TraceFilter) returns (traceIds: set<string>)
      ensures forall id :: id in traceIds <==> PgLists(rows, filter, id)
    {
      var query, args := BuildQuery(filter);
      traceIds := set p | 0 <= p < |rows| && Selects(query, args, rows[p]) :: rows[p].traceId;
    }
  }

  // ---------------------------------------------------------------- against the in-memory listing

  /** What PostgreSQL lists, the memory store lists too. */
  lemma PgListingIsContained(spans: seq<Span>, f: TraceFilter, id: string)
    requires PgLists(spans, f, id)
    ensures MemoryLists(spans, f, id)
  {
    var p :| 0 <= p < |spans| && spans[p].traceId == id && RowMatches(f, spans[p]);
    assert IsSet(f, OnTraceId) ==> Meets(f, OnTraceId, spans[p]);
    forall c | IsSet(f, c) ensures SomeSpanMeets(spans, id, f, c) {
      assert Meets(f, c, spans[p]);
    }
  }

  /** Of type, status, start, end and name at most one is set. */
  ghost predicate AtMostOneSet(f: TraceFilter) {
    forall c, d | IsSet(f, c) && IsSet(f, d) && c != OnTraceId && d != OnTraceId :: c == d
  }

  lemma OneConditionAgrees(spans: seq<Span>, f: TraceFilter, id: string)
    requires AtMostOneSet(f) && MemoryLists(spans, f, id)
    ensures PgLists(spans, f, id)
  {
    var p :| 0 <= p < |spans| && spans[p].traceId == id;
    if c :| IsSet(f, c) && c != OnTraceId {
      assert SomeSpanMeets(spans, id, f, c);
      p :| 0 <= p < |spans| && spans[p].traceId == id && Meets(f, c, spans[p]);
    }
    assert RowMatches(f, spans[p]);
  }

  /** A span of the trace that meets condition x and misses condition y. */
  function MeetsOnly(f: TraceFilter, x: Condition, y: Condition, id: string): Span {
    var startedAt :=
      match x
      case OnStart => (if f.startTime > f.endTime then f.startTime else f.endTime) + 1
      case OnEnd => (if f.startTime < f.endTime then f.startTime else f.endTime) - 1
      case _ => if y == OnStart then f.startTime - 1 else f.endTime + 1;
    Span("", id, "",
         if x == OnType then f.spanType else f.spanType + "*",
         if x == OnName then f.nameContains else "",
         if x == OnStatus then f.status else f.status + "*",
         "", startedAt, 0)
  }

  lemma MeetsOnlyIsRight(f: TraceFilter, x: Condition, y: Condition, id: string)
    requires x != OnTraceId && y != OnTraceId && x != y && IsSet(f, y)
    ensures Meets(f, x, MeetsOnly(f, x, y, id)) && !Meets(f, y, MeetsOnly(f, x, y, id))
  {
    if x == OnName { assert f.nameContains <= f.nameContains[0..]; }
    assert |f.spanType + "*"| != |f.spanType| && |f.status + "*"| != |f.status|;
  }

  /** Five spans, one for each condition, none of which meets both c and d. */
  function Scattered(f: TraceFilter, c: Condition, d: Condition, id: string): seq<Span> {
    var other := (x: Condition) => if x == c then d else c;
    [MeetsOnly(f, OnType, other(OnType), id), MeetsOnly(f, OnStatus, other(OnStatus), id),
     MeetsOnly(f, OnStart, other(OnStart), id), MeetsOnly(f, OnEnd, other(OnEnd), id),
     MeetsOnly(f, OnName, other(OnName), id)]
  }

  lemma TwoConditionsDisagree(f: TraceFilter, c: Condition, d: Condition)
    requires IsSet(f, c) && IsSet(f, d) && c != d && c != OnTraceId && d != OnTraceId
    ensures exists spans, id :: MemoryLists(spans, f, id) && !PgLists(spans, f, id)
  {
    var id := f.traceId;
    var spans := Scattered(f, c, d, id);
    var all := [OnType, OnStatus, OnStart, OnEnd, OnName];
    forall i | 0 <= i < 5 ensures spans[i].traceId == id && Meets(f, all[i], spans[i]) && !RowMatches(f, spans[i]) {
      MeetsOnlyIsRight(f, all[i], if all[i] == c then d else c, id);
    }
    forall x | IsSet(f, x) ensures SomeSpanMeets(spans, id, f, x) {
      var i :=
        match x
        case OnStatus => 1
        case OnStart => 2
        case OnEnd => 3
        case OnName => 4
        case _ => 0;
      assert spans[i].traceId == id && Meets(f, x, spans[i]);
    }
    assert spans[0].traceId == id;
    assert MemoryLists(spans, f, id);
  }

  /** The two listings agree on all spans exactly when the filter sets at most one condition. */
  lemma ListingsAgreeIff(f: TraceFilter)
    ensures AtMostOneSet(f) <==>
              forall spans, id :: PgLists(spans, f, id) <==> MemoryLists(spans, f, id)
  {
    forall spans, id | PgLists(spans, f, id) ensures MemoryLists(spans, f, id) {
      PgListingIsContained(spans, f, id);
    }
    if AtMostOneSet(f) {
      forall spans, id | MemoryLists(spans, f, id) ensures PgLists(spans, f, id) {
        OneConditionAgrees(spans, f, id);
      }
    } else {
      var c, d :| IsSet(f, c) && IsSet(f, d) && c != OnTraceId && d != OnTraceId && c != d;
      TwoConditionsDisagree(f, c, d);
    }
  }
}
