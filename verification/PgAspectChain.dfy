/**
 The onion of aspects over the PostgreSQL transaction manager (aspect/chain.go,
 aspect/builtin/transaction.go, pg/transaction.go), with handlers that write rows and dispatch commands.

 What the callers of one dispatch saw is a tree of reports: rows that were inserted, and transactional
 layers with the error that each returned. The tree alone says which rows must be in the database.
 */
module PgAspectChain {
  import opened Wrappers
  import opened Postgres
  import opened PgTransaction
  import AspectChain

  type Aspect = AspectChain.Aspect

  /** What a handler does, in order. */
  datatype Deed<W> = Insert(row: W) | Dispatch(command: Command<W>)

  /** `refused(i)` is whether the server refuses the BEGIN or SAVEPOINT of layer i. */
  datatype Command<W> = Command(
    hooks: nat -> AspectChain.Hook, refused: nat -> bool, deeds: seq<Deed<W>>, handlerNil: bool)

  datatype Report<W> = Row(row: W) | Layer(nil: bool, inside: seq<Report<W>>)

  datatype Dispatched<W> = Dispatched(world: World<W>, nil: bool, reports: seq<Report<W>>)

  predicate Usable<W>(w: World<W>) {
    w.ctx.Some? ==> Sane(w.ctx.value)
  }

  /** AfterCommand of the transaction aspect on the context that BeforeCommand returned. */
  function CloseLayer<W>(inner: Dispatched<W>): (r: Dispatched<W>)
    requires Usable(inner.world)
    ensures Usable(r.world)
  {
    var closed := PgTransaction.Step(inner.world, if inner.nil then Commit else Rollback);
    var nil := inner.nil && closed.nil;
    Dispatched(closed.world, nil, [Layer(nil, inner.reports)])
  }

  /** runCommandAspects from layer i inwards. The caller of a fresh context keeps its own context. */
  function RunLayers<W>(aspects: seq<Aspect>, cmd: Command<W>, i: nat, w: World<W>): (r: Dispatched<W>)
    requires i <= |aspects| && Usable(w)
    ensures Usable(r.world)
    decreases cmd, 1, |aspects| - i
  {
    if i == |aspects| then
      RunDeeds(aspects, cmd.deeds, w).(nil := cmd.handlerNil)
    else if aspects[i].transactional then
      var begun := PgTransaction.Step(w, Begin(cmd.refused(i)));
      if !begun.nil then Dispatched(begun.world, false, [])
      else
        var closed := CloseLayer(RunLayers(aspects, cmd, i + 1, begun.world));
        if w.ctx.None? then closed.(world := closed.world.(ctx := None)) else closed
    else
      var hook := cmd.hooks(i);
      if !hook.beforeNil then Dispatched(w, false, [])
      else
        var inner := RunLayers(aspects, cmd, i + 1, w);
        inner.(nil := inner.nil && hook.afterNil)
  }

  /** A handler writes through GetQuerier and dispatches commands through the same chain. */
  function RunDeeds<W>(aspects: seq<Aspect>, deeds: seq<Deed<W>>, w: World<W>): (r: Dispatched<W>)
    requires Usable(w)
    ensures Usable(r.world)
    decreases deeds, 0, 0
  {
    if deeds == [] then Dispatched(w, true, [])
    else
      var first := RunDeed(aspects, deeds[0], w);
      var rest := RunDeeds(aspects, deeds[1..], first.world);
      Dispatched(rest.world, true, first.reports + rest.reports)
  }

  function RunDeed<W>(aspects: seq<Aspect>, deed: Deed<W>, w: World<W>): (r: Dispatched<W>)
    requires Usable(w)
    ensures Usable(r.world)
    decreases deed, 0, 0
  {
    match deed
    case Insert(row) =>
      var written := PgTransaction.Step(w, Write(row));
      Dispatched(written.world, written.nil, if written.nil then [Row(row)] else [])
    case Dispatch(command) => RunLayers(aspects, command, 0, w)
  }

  // ---------------------------------------------------------------- what must be in the database

  /** The rows none of whose enclosing transactional layers returned an error, in order. */
  function Surviving<W>(reports: seq<Report<W>>): seq<W> {
    if reports == [] then []
    else SurvivingOne(reports[0]) + Surviving(reports[1..])
  }

  function SurvivingOne<W>(report: Report<W>): seq<W> {
    match report
    case Row(row) => [row]
    case Layer(nil, inside) => if nil then Surviving(inside) else []
  }

  lemma {:induction false} SurvivingConcat<W>(a: seq<Report<W>>, b: seq<Report<W>>)
    ensures Surviving(a + b) == Surviving(a) + Surviving(b)
    decreases |a|
  {
    if a == [] {
      assert a + b == b;
    } else {
      assert (a + b)[1..] == a[1..] + b;
      SurvivingConcat(a[1..], b);
    }
  }

  lemma {:induction false} GrownTwice<W>(now: seq<W>, a: seq<Report<W>>, b: seq<Report<W>>)
    ensures (now + Surviving(a)) + Surviving(b) == now + Surviving(a + b)
  {
    SurvivingConcat(a, b);
  }

  lemma {:induction false} SurvivingSingle<W>(report: Report<W>)
    ensures Surviving([report]) == SurvivingOne(report)
  {
    assert [report][1..] == [];
  }

  /** Manager and database hold the marks of the open scopes and the data that the caller sees. */
  ghost predicate Stands<W>(w: World<W>, marks: seq<seq<W>>, now: seq<W>) {
    FieldsOk(w) && Holds(w, marks, now)
  }

  lemma {:induction false} WriteStands<W>(w: World<W>, row: W, marks: seq<seq<W>>, now: seq<W>)
    requires Stands(w, marks, now)
    ensures var s := PgTransaction.Step(w, Write(row));
            Stands(s.world, marks, if s.nil then now + [row] else now)
  {
    HoldsNext(w, Write(row), Nest(marks, now));
  }

  lemma {:induction false} BeginStands<W>(w: World<W>, refused: bool, marks: seq<seq<W>>, now: seq<W>)
    requires Stands(w, marks, now)
    ensures var s := PgTransaction.Step(w, Begin(refused));
            if s.nil then Stands(s.world, marks + [now], now) else s.world == w
  {
    HoldsNext(w, Begin(refused), Nest(marks, now));
  }

  /** `kept` is what was written in the scope and survived up to its end. */
  lemma {:induction false} CloseStands<W>(w: World<W>, op: Op<W>, marks: seq<seq<W>>, now: seq<W>, kept: seq<W>)
    requires Stands(w, marks + [now], now + kept) && (op.Commit? || op.Rollback?)
    ensures var s := PgTransaction.Step(w, op);
            Stands(s.world, marks, if op.Commit? && s.nil then now + kept else now)
  {
    HoldsNext(w, op, Nest(marks + [now], now + kept));
    assert (marks + [now])[..|marks|] == marks;
  }

  /** The caller of a fresh context does not see the closed transaction. */
  lemma {:induction false} FreshContextStands<W>(w: World<W>, now: seq<W>)
    requires Stands(w, [], now)
    ensures Stands(w.(ctx := None), [], now)
  {
  }

  lemma {:induction false} LayerStands<W>(inner: Dispatched<W>, marks: seq<seq<W>>, now: seq<W>)
    requires Usable(inner.world) && Stands(inner.world, marks + [now], now + Surviving(inner.reports))
    ensures var r := CloseLayer(inner);
            Stands(r.world, marks, now + Surviving(r.reports))
  {
    var kept := Surviving(inner.reports);
    CloseStands(inner.world, if inner.nil then Commit else Rollback, marks, now, kept);
    SurvivingSingle(CloseLayer(inner).reports[0]);
    assert now + [] == now;
  }

  /**
   Any command tree, any chain, any point of the onion, inside a transaction or outside: the open scopes
   and their starting data come back as they were, and the data that the caller sees has grown by exactly
   the surviving rows.
   */
  lemma {:induction false} LayersKeepTheSurviving<W>(
      aspects: seq<Aspect>, cmd: Command<W>, i: nat, w: World<W>, marks: seq<seq<W>>, now: seq<W>)
    requires i <= |aspects| && Usable(w) && Stands(w, marks, now)
    ensures var r := RunLayers(aspects, cmd, i, w);
            && (w.ctx.None? ==> r.world.ctx.None?)
            && Stands(r.world, marks, now + Surviving(r.reports))
    decreases cmd, 1, |aspects| - i
  {
    assert now + [] == now;
    if i == |aspects| {
      DeedsKeepTheSurviving(aspects, cmd.deeds, w, marks, now);
    } else if aspects[i].transactional {
      var begun := PgTransaction.Step(w, Begin(cmd.refused(i)));
      BeginStands(w, cmd.refused(i), marks, now);
      if begun.nil {
        LayersKeepTheSurviving(aspects, cmd, i + 1, begun.world, marks + [now], now);
        var closed := CloseLayer(RunLayers(aspects, cmd, i + 1, begun.world));
        LayerStands(RunLayers(aspects, cmd, i + 1, begun.world), marks, now);
        if w.ctx.None? { FreshContextStands(closed.world, now + Surviving(closed.reports)); }
      }
    } else if cmd.hooks(i).beforeNil {
      LayersKeepTheSurviving(aspects, cmd, i + 1, w, marks, now);
    }
  }

  lemma {:induction false} DeedsKeepTheSurviving<W>(
      aspects: seq<Aspect>, deeds: seq<Deed<W>>, w: World<W>, marks: seq<seq<W>>, now: seq<W>)
    requires Usable(w) && Stands(w, marks, now)
    ensures var r := RunDeeds(aspects, deeds, w);
            && (w.ctx.None? ==> r.world.ctx.None?)
            && Stands(r.world, marks, now + Surviving(r.reports))
    decreases deeds, 0, 0
  {
    if deeds == [] {
      assert now + [] == now;
    } else {
      var first := RunDeed(aspects, deeds[0], w);
      var rest := RunDeeds(aspects, deeds[1..], first.world);
      DeedKeepsTheSurviving(aspects, deeds[0], w, marks, now);
      DeedsKeepTheSurviving(aspects, deeds[1..], first.world, marks, now + Surviving(first.reports));
      GrownTwice(now, first.reports, rest.reports);
    }
  }

  lemma {:induction false} DeedKeepsTheSurviving<W>(
      aspects: seq<Aspect>, deed: Deed<W>, w: World<W>, marks: seq<seq<W>>, now: seq<W>)
    requires Usable(w) && Stands(w, marks, now)
    ensures var r := RunDeed(aspects, deed, w);
            && (w.ctx.None? ==> r.world.ctx.None?)
            && Stands(r.world, marks, now + Surviving(r.reports))
    decreases deed, 0, 0
  {
    match deed
    case Insert(row) =>
      WriteStands(w, row, marks, now);
      SurvivingSingle(Row(row));
      assert now + [] == now;
    case Dispatch(command) => LayersKeepTheSurviving(aspects, command, 0, w, marks, now);
  }

  // ---------------------------------------------------------------- theorems

  function Idle<W>(data: seq<W>): World<W> {
    World(Session(data, data, [], false), None)
  }

  /**
   A command on a fresh context, whatever it dispatches and whichever errors its handlers swallow: no
   transaction stays open, and the committed data has grown by exactly the rows all of whose enclosing
   transactional layers returned nil.
   */
  lemma {:induction false} CommandCommitsExactly<W>(aspects: seq<Aspect>, cmd: Command<W>, data: seq<W>)
    ensures var r := RunLayers(aspects, cmd, 0, Idle(data));
            && r.world.ctx.None? && !r.world.db.open
            && r.world.db.committed == data + Surviving(r.reports)
  {
    assert Stands(Idle(data), [], data);
    LayersKeepTheSurviving(aspects, cmd, 0, Idle(data), [], data);
  }

  lemma {:induction false} LayersReportOnce<W>(aspects: seq<Aspect>, cmd: Command<W>, i: nat, w: World<W>)
    requires i < |aspects| && Usable(w) && aspects[i].transactional
    ensures var r := RunLayers(aspects, cmd, i, w);
            (r.reports == [] && !r.nil) || (|r.reports| == 1 && r.reports[0].Layer? && r.reports[0].nil == r.nil)
  {
  }

  lemma {:induction false} FailureKeepsNothing<W>(
      aspects: seq<Aspect>, cmd: Command<W>, i: nat, t: nat, w: World<W>)
    requires i <= t < |aspects| && Usable(w) && aspects[t].transactional
    requires forall j | i <= j < t :: !aspects[j].transactional && cmd.hooks(j).afterNil
    ensures !RunLayers(aspects, cmd, i, w).nil ==> Surviving(RunLayers(aspects, cmd, i, w).reports) == []
    decreases t - i
  {
    if i == t {
      LayersReportOnce(aspects, cmd, i, w);
      var reports := RunLayers(aspects, cmd, i, w).reports;
      if reports != [] { SurvivingSingle(reports[0]); assert reports == [reports[0]]; }
    } else if cmd.hooks(i).beforeNil {
      FailureKeepsNothing(aspects, cmd, i + 1, t, w);
    }
  }

  /**
   All or nothing: a failed command commits nothing, if the aspects around its outermost transactional
   layer, such as tracing, return nil after a success of theirs.
   */
  lemma {:induction false} FailedCommandLeavesNothing<W>(aspects: seq<Aspect>, cmd: Command<W>, t: nat, data: seq<W>)
    requires t < |aspects| && aspects[t].transactional
    requires forall j | 0 <= j < t :: !aspects[j].transactional && cmd.hooks(j).afterNil
    requires !RunLayers(aspects, cmd, 0, Idle(data)).nil
    ensures RunLayers(aspects, cmd, 0, Idle(data)).world.db.committed == data
  {
    CommandCommitsExactly(aspects, cmd, data);
    FailureKeepsNothing(aspects, cmd, 0, t, Idle(data));
    assert data + [] == data;
  }

  // ---------------------------------------------------------------- when a command succeeds

  /** Whether the last transactional layer among the reports returned nil, if there is one. */
  function LastLayer<W>(reports: seq<Report<W>>): Option<bool> {
    if reports == [] then None
    else match reports[|reports| - 1]
         case Layer(nil, _) => Some(nil)
         case Row(_) => LastLayer(reports[..|reports| - 1])
  }

  lemma {:induction false} LastLayerConcat<W>(a: seq<Report<W>>, b: seq<Report<W>>)
    ensures LastLayer(a + b) == if LastLayer(b).Some? then LastLayer(b) else LastLayer(a)
    decreases |b|
  {
    if b == [] {
      assert a + b == a;
    } else {
      assert (a + b)[..|a + b| - 1] == a + b[..|b| - 1];
      LastLayerConcat(a, b[..|b| - 1]);
    }
  }

  lemma {:induction false} RowsAreNoLayers<W>(row: W)
    ensures LastLayer([Row(row)]) == None
  {
    assert [Row(row)][..0] == [];
  }

  /** What the reports make of the manager's aborted flag. */
  function Flag<W>(reports: seq<Report<W>>, was: bool): bool {
    match LastLayer(reports)
    case None => was
    case Some(nil) => !nil
  }

  lemma {:induction false} CloseSetsTheFlag<W>(inner: Dispatched<W>, marks: seq<seq<W>>, now: seq<W>)
    requires Usable(inner.world) && Stands(inner.world, marks, now) && marks != []
    ensures var r := CloseLayer(inner);
            && r.nil == (inner.nil && !inner.world.ctx.value.aborted)
            && r.world.ctx.Some? && r.world.ctx.value.aborted == Flag(r.reports, false)
  {
    var op: Op<W> := if inner.nil then Commit else Rollback;
    FieldsStayOk(inner.world, op);
    ClosePops(inner.world, op, marks, now);
    FlagNext(inner.world, op, marks, now);
  }

  lemma {:induction false} LayersSetTheFlag<W>(
      aspects: seq<Aspect>, cmd: Command<W>, i: nat, w: World<W>, marks: seq<seq<W>>, now: seq<W>)
    requires i <= |aspects| && Usable(w) && Stands(w, marks, now) && w.ctx.Some?
    ensures var r := RunLayers(aspects, cmd, i, w);
            r.world.ctx.Some? && r.world.ctx.value.aborted == Flag(r.reports, w.ctx.value.aborted)
    decreases cmd, 1, |aspects| - i
  {
    if i == |aspects| {
      DeedsSetTheFlag(aspects, cmd.deeds, w, marks, now);
    } else if aspects[i].transactional {
      var begun := PgTransaction.Step(w, Begin(cmd.refused(i)));
      BeginStands(w, cmd.refused(i), marks, now);
      if begun.nil {
        var inner := RunLayers(aspects, cmd, i + 1, begun.world);
        LayersKeepTheSurviving(aspects, cmd, i + 1, begun.world, marks + [now], now);
        CloseSetsTheFlag(inner, marks + [now], now + Surviving(inner.reports));
      }
    } else if cmd.hooks(i).beforeNil {
      LayersSetTheFlag(aspects, cmd, i + 1, w, marks, now);
    }
  }

  lemma {:induction false} DeedsSetTheFlag<W>(
      aspects: seq<Aspect>, deeds: seq<Deed<W>>, w: World<W>, marks: seq<seq<W>>, now: seq<W>)
    requires Usable(w) && Stands(w, marks, now) && w.ctx.Some?
    ensures var r := RunDeeds(aspects, deeds, w);
            r.world.ctx.Some? && r.world.ctx.value.aborted == Flag(r.reports, w.ctx.value.aborted)
    decreases deeds, 0, 0
  {
    if deeds != [] {
      var first := RunDeed(aspects, deeds[0], w);
      var rest := RunDeeds(aspects, deeds[1..], first.world);
      DeedKeepsTheSurviving(aspects, deeds[0], w, marks, now);
      DeedSetsTheFlag(aspects, deeds[0], w, marks, now);
      DeedsSetTheFlag(aspects, deeds[1..], first.world, marks, now + Surviving(first.reports));
      LastLayerConcat(first.reports, rest.reports);
    }
  }

  lemma {:induction false} DeedSetsTheFlag<W>(
      aspects: seq<Aspect>, deed: Deed<W>, w: World<W>, marks: seq<seq<W>>, now: seq<W>)
    requires Usable(w) && Stands(w, marks, now) && w.ctx.Some?
    ensures var r := RunDeed(aspects, deed, w);
            r.world.ctx.Some? && r.world.ctx.value.aborted == Flag(r.reports, w.ctx.value.aborted)
    decreases deed, 0, 0
  {
    match deed
    case Insert(row) =>
      FlagNext(w, Write(row), marks, now);
      RowsAreNoLayers(row);
    case Dispatch(command) => LayersSetTheFlag(aspects, command, 0, w, marks, now);
  }

  /**
   A transactional layer whose Begin was accepted returns nil exactly when the layers inside it do and the
   last transactional layer that ended directly inside it, if any, returned nil: an inner rollback makes it
   fail, unless the handler swallowed that and a later nested command succeeded.
   */
  lemma {:induction false} LayerReturnsNilIff<W>(
      aspects: seq<Aspect>, cmd: Command<W>, i: nat, w: World<W>, marks: seq<seq<W>>, now: seq<W>)
    requires i < |aspects| && Usable(w) && Stands(w, marks, now) && aspects[i].transactional
    requires PgTransaction.Step(w, Begin(cmd.refused(i))).nil
    ensures var inner := RunLayers(aspects, cmd, i + 1, PgTransaction.Step(w, Begin(cmd.refused(i))).world);
            RunLayers(aspects, cmd, i, w).nil <==> inner.nil && LastLayer(inner.reports) != Some(false)
  {
    var begun := PgTransaction.Step(w, Begin(cmd.refused(i)));
    var inner := RunLayers(aspects, cmd, i + 1, begun.world);
    BeginStands(w, cmd.refused(i), marks, now);
    LayersKeepTheSurviving(aspects, cmd, i + 1, begun.world, marks + [now], now);
    LayersSetTheFlag(aspects, cmd, i + 1, begun.world, marks + [now], now);
    CloseSetsTheFlag(inner, marks + [now], now + Surviving(inner.reports));
  }

  /** From layer i inwards the handler and the hooks of the other aspects return nil and no Begin is refused. */
  ghost predicate AllReturnNil<W>(aspects: seq<Aspect>, cmd: Command<W>, i: nat) {
    && cmd.handlerNil
    && forall j | i <= j < |aspects| ::
         if aspects[j].transactional then !cmd.refused(j) else cmd.hooks(j).beforeNil && cmd.hooks(j).afterNil
  }

  /** A command returns nil only if its handler and all its hooks did. */
  lemma {:induction false} NilOnlyAfterSuccess<W>(aspects: seq<Aspect>, cmd: Command<W>, i: nat, w: World<W>)
    requires i <= |aspects| && Usable(w) && RunLayers(aspects, cmd, i, w).nil
    ensures AllReturnNil(aspects, cmd, i)
    decreases |aspects| - i
  {
    if i < |aspects| {
      var inside := if aspects[i].transactional then PgTransaction.Step(w, Begin(cmd.refused(i))).world else w;
      NilOnlyAfterSuccess(aspects, cmd, i + 1, inside);
    }
  }

  /** Where the handler starts, when every layer lets it. */
  function HandlerWorld<W>(aspects: seq<Aspect>, cmd: Command<W>, i: nat, w: World<W>): (r: World<W>)
    requires i <= |aspects| && Usable(w)
    ensures Usable(r)
    decreases |aspects| - i
  {
    if i == |aspects| then w
    else HandlerWorld(aspects, cmd, i + 1,
                      if aspects[i].transactional then PgTransaction.Step(w, Begin(cmd.refused(i))).world else w)
  }

  function HandlerReports<W>(aspects: seq<Aspect>, cmd: Command<W>, i: nat, w: World<W>): seq<Report<W>>
    requires i <= |aspects| && Usable(w)
  {
    RunDeeds(aspects, cmd.deeds, HandlerWorld(aspects, cmd, i, w)).reports
  }

  /** No transaction, or an open one: the server decides whether a Begin succeeds. */
  predicate Open<W>(w: World<W>) {
    w.ctx.Some? ==> w.ctx.value.depth > 0
  }

  lemma {:induction false} OpenBegins<W>(w: World<W>, refused: bool)
    requires FieldsOk(w) && Open(w)
    ensures PgTransaction.Step(w, Begin(refused)).nil == !refused
    ensures !refused ==> Open(PgTransaction.Step(w, Begin(refused)).world)
  {
  }

  /**
   When does a command succeed? Exactly when its handler and hooks return nil, no Begin is refused, and,
   in a chain with a transactional layer, the transactional layer that ended last among the commands the
   handler dispatched, if any, returned nil.
   */
  lemma {:induction false} CommandSucceedsIff<W>(
      aspects: seq<Aspect>, cmd: Command<W>, i: nat, w: World<W>, marks: seq<seq<W>>, now: seq<W>)
    requires i <= |aspects| && Usable(w) && Stands(w, marks, now) && Open(w)
    ensures var r, handler := RunLayers(aspects, cmd, i, w), HandlerReports(aspects, cmd, i, w);
            && (r.nil <==> AllReturnNil(aspects, cmd, i)
                           && (AspectChain.HasTransaction(aspects, i) ==> LastLayer(handler) != Some(false)))
            && (r.nil && AspectChain.HasTransaction(aspects, i) ==> LastLayer(r.reports) == Some(true))
            && (r.nil && !AspectChain.HasTransaction(aspects, i) ==> r.reports == handler)
            && (r.nil ==> Surviving(r.reports) == Surviving(handler))
    decreases |aspects| - i
  {
    if i == |aspects| {
    } else if aspects[i].transactional {
      OpenBegins(w, cmd.refused(i));
      if !cmd.refused(i) {
        var begun := PgTransaction.Step(w, Begin(false));
        BeginStands(w, false, marks, now);
        CommandSucceedsIff(aspects, cmd, i + 1, begun.world, marks + [now], now);
        LayerReturnsNilIff(aspects, cmd, i, w, marks, now);
        SurvivingSingle(RunLayers(aspects, cmd, i, w).reports[0]);
      }
    } else if cmd.hooks(i).beforeNil {
      CommandSucceedsIff(aspects, cmd, i + 1, w, marks, now);
    }
  }

  /** A whole command on a fresh context, and what it then commits: all that survived in its handler. */
  lemma {:induction false} FreshCommandSucceedsIff<W>(aspects: seq<Aspect>, cmd: Command<W>, data: seq<W>)
    ensures var r, handler := RunLayers(aspects, cmd, 0, Idle(data)), HandlerReports(aspects, cmd, 0, Idle(data));
            && (r.nil <==> AllReturnNil(aspects, cmd, 0)
                           && (AspectChain.HasTransaction(aspects, 0) ==> LastLayer(handler) != Some(false)))
            && (r.nil ==> r.world.db.committed == data + Surviving(handler))
  {
    assert Stands(Idle(data), [], data);
    CommandSucceedsIff(aspects, cmd, 0, Idle(data), [], data);
    CommandCommitsExactly(aspects, cmd, data);
  }

  // ---------------------------------------------------------------- told from the tree alone

  /** What a caller sees of a command. */
  datatype Sight<W> = Sight(nil: bool, reports: seq<Report<W>>)

  /**
   The meaning of a command tree without manager, savepoints or database: every deed of a handler that is
   let in is carried out, a row is a report, and a transactional layer fails with its inner layers or with
   the last layer that ended directly inside it.
   */
  function Seen<W>(aspects: seq<Aspect>, cmd: Command<W>, i: nat): Sight<W>
    requires i <= |aspects|
    decreases cmd, 1, |aspects| - i
  {
    if i == |aspects| then Sight(cmd.handlerNil, SeenDeeds(aspects, cmd.deeds))
    else if aspects[i].transactional then
      if cmd.refused(i) then Sight(false, [])
      else
        var inner := Seen(aspects, cmd, i + 1);
        var nil := inner.nil && LastLayer(inner.reports) != Some(false);
        Sight(nil, [Layer(nil, inner.reports)])
    else if !cmd.hooks(i).beforeNil then Sight(false, [])
    else
      var inner := Seen(aspects, cmd, i + 1);
      Sight(inner.nil && cmd.hooks(i).afterNil, inner.reports)
  }

  function SeenDeeds<W>(aspects: seq<Aspect>, deeds: seq<Deed<W>>): seq<Report<W>>
    decreases deeds, 0, 0
  {
    if deeds == [] then [] else SeenDeed(aspects, deeds[0]) + SeenDeeds(aspects, deeds[1..])
  }

  function SeenDeed<W>(aspects: seq<Aspect>, deed: Deed<W>): seq<Report<W>>
    decreases deed, 0, 0
  {
    match deed
    case Insert(row) => [Row(row)]
    case Dispatch(command) => Seen(aspects, command, 0).reports
  }

  lemma {:induction false} OpenStays<W>(w: World<W>, w': World<W>, marks: seq<seq<W>>, now: seq<W>, now': seq<W>)
    requires Stands(w, marks, now) && Stands(w', marks, now') && Open(w)
    requires (w.ctx.None? ==> w'.ctx.None?) && (w.ctx.Some? ==> w'.ctx.Some?)
    ensures Open(w')
  {
  }

  /** Manager, savepoints and database together implement the meaning of the tree, at any point of the onion. */
  lemma {:induction false} LayersAreSeen<W>(
      aspects: seq<Aspect>, cmd: Command<W>, i: nat, w: World<W>, marks: seq<seq<W>>, now: seq<W>)
    requires i <= |aspects| && Usable(w) && Stands(w, marks, now) && Open(w)
    ensures var r := RunLayers(aspects, cmd, i, w);
            Sight(r.nil, r.reports) == Seen(aspects, cmd, i)
    decreases cmd, 1, |aspects| - i
  {
    if i == |aspects| {
      DeedsAreSeen(aspects, cmd.deeds, w, marks, now);
    } else if aspects[i].transactional {
      OpenBegins(w, cmd.refused(i));
      if !cmd.refused(i) {
        var begun := PgTransaction.Step(w, Begin(false));
        BeginStands(w, false, marks, now);
        LayersAreSeen(aspects, cmd, i + 1, begun.world, marks + [now], now);
        LayerReturnsNilIff(aspects, cmd, i, w, marks, now);
      }
    } else if cmd.hooks(i).beforeNil {
      LayersAreSeen(aspects, cmd, i + 1, w, marks, now);
    }
  }

  lemma {:induction false} DeedsAreSeen<W>(
      aspects: seq<Aspect>, deeds: seq<Deed<W>>, w: World<W>, marks: seq<seq<W>>, now: seq<W>)
    requires Usable(w) && Stands(w, marks, now) && Open(w)
    ensures RunDeeds(aspects, deeds, w).reports == SeenDeeds(aspects, deeds)
    decreases deeds, 0, 0
  {
    if deeds != [] {
      var first := RunDeed(aspects, deeds[0], w);
      DeedIsSeen(aspects, deeds[0], w, marks, now);
      DeedKeepsTheSurviving(aspects, deeds[0], w, marks, now);
      if w.ctx.Some? { DeedSetsTheFlag(aspects, deeds[0], w, marks, now); }
      OpenStays(w, first.world, marks, now, now + Surviving(first.reports));
      DeedsAreSeen(aspects, deeds[1..], first.world, marks, now + Surviving(first.reports));
    }
  }

  lemma {:induction false} DeedIsSeen<W>(
      aspects: seq<Aspect>, deed: Deed<W>, w: World<W>, marks: seq<seq<W>>, now: seq<W>)
    requires Usable(w) && Stands(w, marks, now) && Open(w)
    ensures RunDeed(aspects, deed, w).reports == SeenDeed(aspects, deed)
    decreases deed, 0, 0
  {
    match deed
    case Insert(row) => assert PgTransaction.Step(w, Write(row)).nil;
    case Dispatch(command) => LayersAreSeen(aspects, command, 0, w, marks, now);
  }

  /**
   A command on a fresh context: its result and all that it commits are those of the tree, whatever in the
   tree fails or is refused.
   */
  lemma {:induction false} CommandDoesWhatTheTreeSays<W>(aspects: seq<Aspect>, cmd: Command<W>, data: seq<W>)
    ensures var r, seen := RunLayers(aspects, cmd, 0, Idle(data)), Seen(aspects, cmd, 0);
            r.nil == seen.nil && r.world.db.committed == data + Surviving(seen.reports)
  {
    assert Stands(Idle(data), [], data);
    LayersAreSeen(aspects, cmd, 0, Idle(data), [], data);
    CommandCommitsExactly(aspects, cmd, data);
  }

  /** The rows of the whole tree, in the order of the handlers' deeds. */
  function RowsOf<W>(deeds: seq<Deed<W>>): seq<W>
    decreases deeds
  {
    if deeds == [] then [] else RowsOfDeed(deeds[0]) + RowsOf(deeds[1..])
  }

  function RowsOfDeed<W>(deed: Deed<W>): seq<W>
    decreases deed
  {
    match deed
    case Insert(row) => [row]
    case Dispatch(command) => RowsOf(command.deeds)
  }

  /** Every handler and hook in the tree returns nil, and no Begin in it is refused. */
  ghost predicate WholeTreeSucceeds<W>(aspects: seq<Aspect>, cmd: Command<W>)
    decreases cmd
  {
    AllReturnNil(aspects, cmd, 0) && WholeForestSucceeds(aspects, cmd.deeds)
  }

  ghost predicate WholeForestSucceeds<W>(aspects: seq<Aspect>, deeds: seq<Deed<W>>)
    decreases deeds
  {
    deeds != [] ==> WholeDeedSucceeds(aspects, deeds[0]) && WholeForestSucceeds(aspects, deeds[1..])
  }

  ghost predicate WholeDeedSucceeds<W>(aspects: seq<Aspect>, deed: Deed<W>)
    decreases deed
  {
    deed.Dispatch? ==> WholeTreeSucceeds(aspects, deed.command)
  }

  lemma {:induction false} SuccessKeepsAllRows<W>(aspects: seq<Aspect>, cmd: Command<W>, i: nat)
    requires i <= |aspects| && AllReturnNil(aspects, cmd, i) && WholeForestSucceeds(aspects, cmd.deeds)
    ensures var seen := Seen(aspects, cmd, i);
            seen.nil && LastLayer(seen.reports) != Some(false) && Surviving(seen.reports) == RowsOf(cmd.deeds)
    decreases cmd, 1, |aspects| - i
  {
    if i == |aspects| {
      SuccessKeepsAllDeeds(aspects, cmd.deeds);
    } else {
      SuccessKeepsAllRows(aspects, cmd, i + 1);
      if aspects[i].transactional { SurvivingSingle(Seen(aspects, cmd, i).reports[0]); }
    }
  }

  lemma {:induction false} SuccessKeepsAllDeeds<W>(aspects: seq<Aspect>, deeds: seq<Deed<W>>)
    requires WholeForestSucceeds(aspects, deeds)
    ensures var reports := SeenDeeds(aspects, deeds);
            LastLayer(reports) != Some(false) && Surviving(reports) == RowsOf(deeds)
    decreases deeds, 0, 0
  {
    if deeds != [] {
      var first := SeenDeed(aspects, deeds[0]);
      SuccessKeepsAllDeeds(aspects, deeds[1..]);
      SuccessKeepsDeed(aspects, deeds[0]);
      SurvivingConcat(first, SeenDeeds(aspects, deeds[1..]));
      LastLayerConcat(first, SeenDeeds(aspects, deeds[1..]));
    }
  }

  lemma {:induction false} SuccessKeepsDeed<W>(aspects: seq<Aspect>, deed: Deed<W>)
    requires WholeDeedSucceeds(aspects, deed)
    ensures var reports := SeenDeed(aspects, deed);
            LastLayer(reports) != Some(false) && Surviving(reports) == RowsOfDeed(deed)
    decreases deed, 0, 0
  {
    match deed
    case Insert(row) => { RowsAreNoLayers(row); SurvivingSingle(Row(row)); }
    case Dispatch(command) => SuccessKeepsAllRows(aspects, command, 0);
  }

  /** When nothing in the tree fails, the command succeeds and commits all rows of the tree, in order. */
  lemma {:induction false} SuccessCommitsTheWholeTree<W>(aspects: seq<Aspect>, cmd: Command<W>, data: seq<W>)
    requires WholeTreeSucceeds(aspects, cmd)
    ensures var r := RunLayers(aspects, cmd, 0, Idle(data));
            r.nil && r.world.db.committed == data + RowsOf(cmd.deeds)
  {
    CommandDoesWhatTheTreeSays(aspects, cmd, data);
    SuccessKeepsAllRows(aspects, cmd, 0);
  }

  /** From layer i inwards no hook and no refused Begin keeps the command from its handler. */
  ghost predicate LetIn<W>(aspects: seq<Aspect>, cmd: Command<W>, i: nat) {
    forall j | i <= j < |aspects| :: if aspects[j].transactional then !cmd.refused(j) else cmd.hooks(j).beforeNil
  }

  /** All rows of the commands that are let in, whatever becomes of them later. */
  ghost function RowsLetIn<W>(aspects: seq<Aspect>, deeds: seq<Deed<W>>): seq<W>
    decreases deeds
  {
    if deeds == [] then [] else RowsOfDeedLetIn(aspects, deeds[0]) + RowsLetIn(aspects, deeds[1..])
  }

  ghost function RowsOfDeedLetIn<W>(aspects: seq<Aspect>, deed: Deed<W>): seq<W>
    decreases deed
  {
    match deed
    case Insert(row) => [row]
    case Dispatch(command) => if LetIn(aspects, command, 0) then RowsLetIn(aspects, command.deeds) else []
  }

  /** All rows that the reports mention, in layers that failed too. */
  function Inserted<W>(reports: seq<Report<W>>): seq<W> {
    if reports == [] then [] else InsertedOne(reports[0]) + Inserted(reports[1..])
  }

  function InsertedOne<W>(report: Report<W>): seq<W> {
    match report
    case Row(row) => [row]
    case Layer(_, inside) => Inserted(inside)
  }

  lemma {:induction false} InsertedConcat<W>(a: seq<Report<W>>, b: seq<Report<W>>)
    ensures Inserted(a + b) == Inserted(a) + Inserted(b)
    decreases |a|
  {
    if a == [] {
      assert a + b == b;
    } else {
      assert (a + b)[1..] == a[1..] + b;
      InsertedConcat(a[1..], b);
    }
  }

  lemma {:induction false} InsertedSingle<W>(report: Report<W>)
    ensures Inserted([report]) == InsertedOne(report)
  {
    assert [report][1..] == [];
  }

  lemma {:induction false} SeenInserts<W>(aspects: seq<Aspect>, cmd: Command<W>, i: nat)
    requires i <= |aspects|
    ensures Inserted(Seen(aspects, cmd, i).reports) ==
              if LetIn(aspects, cmd, i) then RowsLetIn(aspects, cmd.deeds) else []
    decreases cmd, 1, |aspects| - i
  {
    if i == |aspects| {
      SeenDeedsInsert(aspects, cmd.deeds);
    } else {
      SeenInserts(aspects, cmd, i + 1);
      if aspects[i].transactional && !cmd.refused(i) { InsertedSingle(Seen(aspects, cmd, i).reports[0]); }
    }
  }

  lemma {:induction false} SeenDeedsInsert<W>(aspects: seq<Aspect>, deeds: seq<Deed<W>>)
    ensures Inserted(SeenDeeds(aspects, deeds)) == RowsLetIn(aspects, deeds)
    decreases deeds, 0, 0
  {
    if deeds != [] {
      SeenDeedsInsert(aspects, deeds[1..]);
      SeenDeedInserts(aspects, deeds[0]);
      InsertedConcat(SeenDeed(aspects, deeds[0]), SeenDeeds(aspects, deeds[1..]));
    }
  }

  lemma {:induction false} SeenDeedInserts<W>(aspects: seq<Aspect>, deed: Deed<W>)
    ensures Inserted(SeenDeed(aspects, deed)) == RowsOfDeedLetIn(aspects, deed)
    decreases deed, 0, 0
  {
    match deed
    case Insert(row) => InsertedSingle(Row(row));
    case Dispatch(command) => SeenInserts(aspects, command, 0);
  }

  /** Whatever fails: every handler that is let in carries out all its deeds, in order. */
  lemma {:induction false} EveryDeedIsCarriedOut<W>(aspects: seq<Aspect>, cmd: Command<W>, data: seq<W>)
    ensures Inserted(RunLayers(aspects, cmd, 0, Idle(data)).reports) ==
              if LetIn(aspects, cmd, 0) then RowsLetIn(aspects, cmd.deeds) else []
  {
    assert Stands(Idle(data), [], data);
    LayersAreSeen(aspects, cmd, 0, Idle(data), [], data);
    SeenInserts(aspects, cmd, 0);
  }

  // ---------------------------------------------------------------- which chains are all or nothing

  /** Every failed command on a fresh context commits nothing. */
  ghost predicate AllOrNothing<W(!new)>(aspects: seq<Aspect>, data: seq<W>) {
    forall cmd: Command<W> ::
      !RunLayers(aspects, cmd, 0, Idle(data)).nil ==> RunLayers(aspects, cmd, 0, Idle(data)).world.db.committed == data
  }

  /** Inserts one row; what fails is the outermost AfterCommand, or the handler when there is no aspect. */
  function FailsAtTheEnd<W>(row: W, handlerNil: bool): Command<W> {
    Command(j => AspectChain.Hook(true, j != 0), j => false, [Deed.Insert(row)], handlerNil)
  }

  lemma {:induction false} OneRow<W>(aspects: seq<Aspect>, row: W)
    ensures RowsOf([Deed.Insert(row)]) == [row] && WholeForestSucceeds(aspects, [Deed.Insert(row)])
  {
    assert [Deed.Insert(row)][1..] == [];
    assert RowsOf<W>([]) == [] && WholeForestSucceeds<W>(aspects, []);
  }

  /** Without a transactional aspect at the outside the command fails and its row is committed. */
  lemma {:induction false} FailsAndCommits<W>(aspects: seq<Aspect>, row: W, data: seq<W>)
    requires aspects == [] || !aspects[0].transactional
    ensures var r := RunLayers(aspects, FailsAtTheEnd(row, aspects != []), 0, Idle(data));
            !r.nil && r.world.db.committed == data + [row]
  {
    var cmd := FailsAtTheEnd(row, aspects != []);
    CommandDoesWhatTheTreeSays(aspects, cmd, data);
    OneRow(aspects, row);
    if aspects == [] { SuccessKeepsAllDeeds(aspects, cmd.deeds); } else { SuccessKeepsAllRows(aspects, cmd, 1); }
  }

  /** A chain makes all commands all or nothing exactly when its outermost aspect is the transactional one. */
  lemma {:induction false} AllOrNothingIff<W(!new)>(aspects: seq<Aspect>, row: W, data: seq<W>)
    ensures AllOrNothing(aspects, data) <==> aspects != [] && aspects[0].transactional
  {
    if aspects != [] && aspects[0].transactional {
      forall cmd: Command<W> | !RunLayers(aspects, cmd, 0, Idle(data)).nil
        ensures RunLayers(aspects, cmd, 0, Idle(data)).world.db.committed == data
      {
        FailedCommandLeavesNothing(aspects, cmd, 0, data);
      }
    } else {
      FailsAndCommits(aspects, row, data);
      assert |data + [row]| != |data|;
    }
  }

  // ---------------------------------------------------------------- the chain's methods over PostgreSQL

  class PgChain<W> {
    const txManager: PgTransactionManager<W>
    const aspects: seq<Aspect>

    constructor (txManager: PgTransactionManager<W>, aspects: seq<Aspect>)
      ensures this.txManager == txManager && this.aspects == aspects
    {
      this.txManager, this.aspects := txManager, aspects;
    }

    method ExecuteWithCommandAspects(ctx: TxState?<W>, cmd: Command<W>)
      returns (nil: bool, ghost reports: seq<Report<W>>)
      requires txManager.Owns(ctx)
      modifies txManager.db, ctx
      ensures txManager.Owns(ctx)
      ensures Dispatched(txManager.WorldOf(ctx), nil, reports)
          == RunLayers(aspects, cmd, 0, old(txManager.WorldOf(ctx)))
      decreases cmd, 2, 0
    {
      nil, reports := RunCommandAspects(ctx, cmd, 0);
    }

    method RunCommandAspects(ctx: TxState?<W>, cmd: Command<W>, index: nat)
      returns (nil: bool, ghost reports: seq<Report<W>>)
      requires index <= |aspects| && txManager.Owns(ctx)
      modifies txManager.db, ctx
      ensures txManager.Owns(ctx)
      ensures Dispatched(txManager.WorldOf(ctx), nil, reports)
          == RunLayers(aspects, cmd, index, old(txManager.WorldOf(ctx)))
      decreases cmd, 1, |aspects| - index
    {
      if index >= |aspects| {
        reports := RunHandler(ctx, cmd.deeds);
        return cmd.handlerNil, reports;
      }
      if aspects[index].transactional {
        var newCtx, begun := txManager.Begin(ctx, cmd.refused(index));
        if !begun { return false, []; }
        nil, reports := RunCommandAspects(newCtx, cmd, index + 1);
        nil, reports := AfterCommand(newCtx, nil, reports);
        return;
      }
      var hook := cmd.hooks(index);
      if !hook.beforeNil { return false, []; }
      nil, reports := RunCommandAspects(ctx, cmd, index + 1);
      nil := nil && hook.afterNil;
    }

    /** AfterCommand of the transaction aspect: `nil` is the error of the inner layers. */
    method AfterCommand(ctx: TxState?<W>, nil: bool, ghost reports: seq<Report<W>>)
      returns (afterNil: bool, ghost after: seq<Report<W>>)
      requires txManager.Owns(ctx)
      modifies txManager.db, ctx
      ensures txManager.Owns(ctx)
      ensures Dispatched(txManager.WorldOf(ctx), afterNil, after) ==
                CloseLayer(Dispatched(old(txManager.WorldOf(ctx)), nil, reports))
    {
      if !nil {
        var _ := txManager.Rollback(ctx);
        return false, [Layer(false, reports)];
      }
      afterNil := txManager.Commit(ctx);
      after := [Layer(afterNil, reports)];
    }

    method RunHandler(ctx: TxState?<W>, deeds: seq<Deed<W>>) returns (ghost reports: seq<Report<W>>)
      requires txManager.Owns(ctx)
      modifies txManager.db, ctx
      ensures txManager.Owns(ctx)
      ensures Dispatched(txManager.WorldOf(ctx), true, reports) == RunDeeds(aspects, deeds, old(txManager.WorldOf(ctx)))
      decreases deeds, 0, 0
    {
      reports := [];
      if deeds != [] {
        var _, first := RunOne(ctx, deeds[0]);
        var rest := RunHandler(ctx, deeds[1..]);
        reports := first + rest;
      }
    }

    method RunOne(ctx: TxState?<W>, deed: Deed<W>) returns (nil: bool, ghost reports: seq<Report<W>>)
      requires txManager.Owns(ctx)
      modifies txManager.db, ctx
      ensures txManager.Owns(ctx)
      ensures Dispatched(txManager.WorldOf(ctx), nil, reports) == RunDeed(aspects, deed, old(txManager.WorldOf(ctx)))
      decreases deed, 0, 0
    {
      match deed {
        case Insert(row) =>
          if ctx == null {
            txManager.db.session := txManager.db.session.(committed := txManager.db.session.committed + [row]);
            nil := true;
          } else {
            nil := ctx.tx.Run(Postgres.Insert(row));
          }
          reports := if nil then [Row(row)] else [];
        case Dispatch(command) =>
          nil, reports := RunCommandAspects(ctx, command, 0);
      }
    }
  }
}
