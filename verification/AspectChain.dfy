/**
 The onion of aspects around a command (aspect/chain.go) with the transaction aspect
 (aspect/builtin/transaction.go) over the in-memory manager.

 What hooks and handlers return is an input, so a tree of commands describes one synchronous
 dispatch: each handler dispatches its children in order on the context it was given, then returns.
 */
module AspectChain {
  import opened Wrappers
  import opened MemoryTransaction

  /** `transactional` marks a TransactionAspect. */
  datatype Aspect = Aspect(name: string, order: int, transactional: bool)

  /**
   Whether another aspect's hooks return nil for one command: BeforeCommand, and AfterCommand when the
   inner layers succeeded. After a failure no AfterCommand can make the error go away.
   */
  datatype Hook = Hook(beforeNil: bool, afterNil: bool)

  datatype Command = Command(name: string, hooks: nat -> Hook, children: seq<Command>, handlerNil: bool)

  /** The calls that the transaction manager receives, and the handlers that are called. */
  datatype Entry = Begun | Committed(nil: bool) | RolledBack | Handled(name: string)

  datatype Dispatched = Dispatched(ctx: Option<MemTx>, nil: bool, log: seq<Entry>)

  /** BeforeCommand has run; this is AfterCommand with the error of the inner layers. */
  function CloseTransaction(inner: Dispatched): Dispatched {
    if inner.nil then
      var (ctx, nil) := CommitTx(inner.ctx);
      Dispatched(ctx, nil, inner.log + [Committed(nil)])
    else
      Dispatched(RollbackTx(inner.ctx).0, false, inner.log + [RolledBack])
  }

  /** runCommandAspects from layer i inwards. The caller of a fresh context keeps its own context. */
  function RunLayers(aspects: seq<Aspect>, cmd: Command, i: nat, ctx: Option<MemTx>): Dispatched
    requires i <= |aspects|
    decreases cmd, 1, |aspects| - i
  {
    if i == |aspects| then
      var dispatched := RunChildren(aspects, cmd.children, ctx);
      Dispatched(dispatched.ctx, cmd.handlerNil, [Handled(cmd.name)] + dispatched.log)
    else if aspects[i].transactional then
      var closed := CloseTransaction(RunLayers(aspects, cmd, i + 1, Some(BeginTx(ctx))));
      Dispatched(if ctx.None? then None else closed.ctx, closed.nil, [Begun] + closed.log)
    else
      var hook := cmd.hooks(i);
      if !hook.beforeNil then Dispatched(ctx, false, [])
      else
        var inner := RunLayers(aspects, cmd, i + 1, ctx);
        inner.(nil := inner.nil && hook.afterNil)
  }

  /** A handler dispatches its commands one after the other through the same chain. */
  function RunChildren(aspects: seq<Aspect>, children: seq<Command>, ctx: Option<MemTx>): Dispatched
    decreases children, 0, 0
  {
    if children == [] then Dispatched(ctx, true, [])
    else
      var first := RunLayers(aspects, children[0], 0, ctx);
      var rest := RunChildren(aspects, children[1..], first.ctx);
      Dispatched(rest.ctx, true, first.log + rest.log)
  }

  // ---------------------------------------------------------------- brackets

  /** Open transactions after the first k calls. */
  function Level(log: seq<Entry>, k: nat): int
    requires k <= |log|
  {
    if k == 0 then 0
    else Level(log, k - 1) + (if log[k - 1].Begun? then 1 else if log[k - 1].Handled? then 0 else -1)
  }

  /** Every Begin is closed by exactly one Commit or Rollback, in nested order. */
  ghost predicate Balanced(log: seq<Entry>) {
    Level(log, |log|) == 0 && forall k | 0 <= k <= |log| :: Level(log, k) >= 0
  }

  lemma {:induction false} LevelOfConcat(a: seq<Entry>, b: seq<Entry>, k: nat)
    requires k <= |a| + |b|
    ensures Level(a + b, k) == if k <= |a| then Level(a, k) else Level(a, |a|) + Level(b, k - |a|)
  {
    if k > 0 { LevelOfConcat(a, b, k - 1); }
  }

  lemma {:induction false} BalancedConcat(a: seq<Entry>, b: seq<Entry>)
    requires Balanced(a) && Balanced(b)
    ensures Balanced(a + b)
  {
    forall k | 0 <= k <= |a + b| ensures Level(a + b, k) >= 0 {
      LevelOfConcat(a, b, k);
    }
    LevelOfConcat(a, b, |a + b|);
  }

  lemma {:induction false} BalancedWrap(log: seq<Entry>, close: Entry)
    requires Balanced(log) && !close.Begun? && !close.Handled?
    ensures Balanced([Begun] + (log + [close]))
  {
    var whole := [Begun] + (log + [close]);
    forall k | 0 <= k <= |whole|
      ensures Level(whole, k) == if k == 0 || k == |whole| then 0 else 1 + Level(log, k - 1)
    {
      LevelOfConcat([Begun], log + [close], k);
      if k > 0 {
        assert Level([Begun], 1) == Level([Begun], 0) + 1;
        LevelOfConcat(log, [close], k - 1);
        if k == |whole| { assert Level([close], 1) == Level([close], 0) - 1; }
      }
    }
  }

  // ---------------------------------------------------------------- theorems

  /** The handler and the hooks of the other aspects from layer i inwards all return nil. */
  ghost predicate AllReturnNil(aspects: seq<Aspect>, cmd: Command, i: nat) {
    && cmd.handlerNil
    && forall j | i <= j < |aspects| && !aspects[j].transactional ::
         cmd.hooks(j).beforeNil && cmd.hooks(j).afterNil
  }

  ghost predicate HasTransaction(aspects: seq<Aspect>, i: nat) {
    exists j :: i <= j < |aspects| && aspects[j].transactional
  }

  predicate Aborted(ctx: Option<MemTx>) {
    ctx.Some? && ctx.value.aborted
  }

  /** A context that the manager hands out: without a transaction, or with one, closed already or not. */
  predicate Usable(ctx: Option<MemTx>) {
    ctx.Some? ==> ctx.value.depth >= 0
  }

  /** The context comes back with its depth, and remembers every rollback. */
  ghost predicate Restored(ctx: Option<MemTx>, r: Dispatched) {
    match ctx
    case None => r.ctx.None?
    case Some(tx) =>
      r.ctx.Some? && r.ctx.value.depth == tx.depth && (r.ctx.value.aborted <==> tx.aborted || RolledBack in r.log)
  }

  lemma {:induction false} ChildrenAreBracketed(aspects: seq<Aspect>, children: seq<Command>, ctx: Option<MemTx>)
    requires Usable(ctx)
    ensures var r := RunChildren(aspects, children, ctx);
            Restored(ctx, r) && Balanced(r.log)
    decreases children, 0, 0
  {
    if children != [] {
      var first := RunLayers(aspects, children[0], 0, ctx);
      LayersAreBracketed(aspects, children[0], 0, ctx);
      ChildrenAreBracketed(aspects, children[1..], first.ctx);
      BalancedConcat(first.log, RunChildren(aspects, children[1..], first.ctx).log);
    }
  }

  /**
   Any command tree, any chain, any point of the onion: each Begin is closed once and in nested
   order, the depth is restored, and the result is nil exactly when the handler and the hooks
   return nil and, where a transaction is involved, no command in the tree rolled back.
   */
  lemma {:induction false} LayersAreBracketed(aspects: seq<Aspect>, cmd: Command, i: nat, ctx: Option<MemTx>)
    requires i <= |aspects| && Usable(ctx)
    ensures var r := RunLayers(aspects, cmd, i, ctx);
            && Restored(ctx, r)
            && Balanced(r.log)
            && (r.nil <==> AllReturnNil(aspects, cmd, i)
                           && (HasTransaction(aspects, i) ==> !Aborted(ctx) && RolledBack !in r.log))
    decreases cmd, 1, |aspects| - i
  {
    if i == |aspects| {
      ChildrenAreBracketed(aspects, cmd.children, ctx);
      assert Level([Handled(cmd.name)], 1) == Level([Handled(cmd.name)], 0);
      BalancedConcat([Handled(cmd.name)], RunChildren(aspects, cmd.children, ctx).log);
    } else if aspects[i].transactional {
      var inner := RunLayers(aspects, cmd, i + 1, Some(BeginTx(ctx)));
      LayersAreBracketed(aspects, cmd, i + 1, Some(BeginTx(ctx)));
      BalancedWrap(inner.log, if inner.nil then Committed(CommitTx(inner.ctx).1) else RolledBack);
    } else if cmd.hooks(i).beforeNil {
      LayersAreBracketed(aspects, cmd, i + 1, ctx);
    }
  }

  /**
   A transactional layer calls Commit exactly when the handler and all layers inside it returned
   nil, and Rollback otherwise; the calls of its inner layers stand between.
   */
  lemma {:induction false} CommitOnlyAfterSuccess(aspects: seq<Aspect>, cmd: Command, i: nat, ctx: Option<MemTx>)
    requires i < |aspects| && Usable(ctx) && aspects[i].transactional
    ensures var r := RunLayers(aspects, cmd, i, ctx);
            var inner := RunLayers(aspects, cmd, i + 1, Some(BeginTx(ctx))).log;
            var close := r.log[|r.log| - 1];
            && r.log == [Begun] + inner + [close] && Balanced(inner)
            && (close.Committed? <==>
                  AllReturnNil(aspects, cmd, i + 1)
                  && (HasTransaction(aspects, i + 1) ==> !Aborted(ctx) && RolledBack !in inner))
            && (close.Committed? ==> close.nil == (!Aborted(ctx) && RolledBack !in inner))
  {
    LayersAreBracketed(aspects, cmd, i + 1, Some(BeginTx(ctx)));
  }

  /** A whole command on a fresh context, through a chain that contains the transaction aspect. */
  lemma {:induction false} OutermostSucceedsIff(aspects: seq<Aspect>, cmd: Command)
    requires HasTransaction(aspects, 0)
    ensures var r := RunLayers(aspects, cmd, 0, None);
            && r.ctx.None? && Balanced(r.log)
            && (r.nil <==> AllReturnNil(aspects, cmd, 0) && RolledBack !in r.log)
  {
    LayersAreBracketed(aspects, cmd, 0, None);
  }

  // ---------------------------------------------------------------- told from the tree alone

  /** The hooks of the other aspects from layer i inwards let the command in. */
  ghost predicate LetIn(aspects: seq<Aspect>, cmd: Command, i: nat) {
    forall j | i <= j < |aspects| && !aspects[j].transactional :: cmd.hooks(j).beforeNil
  }

  /** The commands of a tree whose handlers are called, each before the commands that it dispatches. */
  ghost function HandlersOf(aspects: seq<Aspect>, cmd: Command, i: nat): seq<string>
    decreases cmd, 1
  {
    if LetIn(aspects, cmd, i) then [cmd.name] + HandlersOfAll(aspects, cmd.children) else []
  }

  ghost function HandlersOfAll(aspects: seq<Aspect>, cmds: seq<Command>): seq<string>
    decreases cmds, 0
  {
    if cmds == [] then [] else HandlersOf(aspects, cmds[0], 0) + HandlersOfAll(aspects, cmds[1..])
  }

  /** The handlers that a log reports, in order. */
  function Handlers(log: seq<Entry>): seq<string> {
    if log == [] then []
    else (if log[0].Handled? then [log[0].name] else []) + Handlers(log[1..])
  }

  lemma {:induction false} HandlersConcat(a: seq<Entry>, b: seq<Entry>)
    ensures Handlers(a + b) == Handlers(a) + Handlers(b)
    decreases |a|
  {
    if a == [] {
      assert a + b == b;
    } else {
      assert (a + b)[1..] == a[1..] + b;
      HandlersConcat(a[1..], b);
    }
  }

  lemma {:induction false} HandlersOfOne(e: Entry)
    ensures Handlers([e]) == if e.Handled? then [e.name] else []
  {
    assert [e][1..] == [];
  }

  /**
   Any tree, any chain, any context: exactly the commands whose hooks let them in are handled, and a
   handler's commands are dispatched in order, whichever of them fail.
   */
  lemma {:induction false} HandlersRunInOrder(aspects: seq<Aspect>, cmd: Command, i: nat, ctx: Option<MemTx>)
    requires i <= |aspects|
    ensures Handlers(RunLayers(aspects, cmd, i, ctx).log) == HandlersOf(aspects, cmd, i)
    decreases cmd, 1, |aspects| - i
  {
    if i == |aspects| {
      ChildrenRunInOrder(aspects, cmd.children, ctx);
      HandlersConcat([Handled(cmd.name)], RunChildren(aspects, cmd.children, ctx).log);
      HandlersOfOne(Handled(cmd.name));
    } else if aspects[i].transactional {
      var inner := RunLayers(aspects, cmd, i + 1, Some(BeginTx(ctx)));
      HandlersRunInOrder(aspects, cmd, i + 1, Some(BeginTx(ctx)));
      var close := if inner.nil then Committed(CommitTx(inner.ctx).1) else RolledBack;
      HandlersConcat([Begun], inner.log + [close]);
      HandlersConcat(inner.log, [close]);
      HandlersOfOne(Begun);
      HandlersOfOne(close);
      assert LetIn(aspects, cmd, i) <==> LetIn(aspects, cmd, i + 1);
    } else if cmd.hooks(i).beforeNil {
      HandlersRunInOrder(aspects, cmd, i + 1, ctx);
      assert LetIn(aspects, cmd, i) <==> LetIn(aspects, cmd, i + 1);
    }
  }

  lemma {:induction false} ChildrenRunInOrder(aspects: seq<Aspect>, children: seq<Command>, ctx: Option<MemTx>)
    ensures Handlers(RunChildren(aspects, children, ctx).log) == HandlersOfAll(aspects, children)
    decreases children, 0, 0
  {
    if children != [] {
      var first := RunLayers(aspects, children[0], 0, ctx);
      HandlersRunInOrder(aspects, children[0], 0, ctx);
      ChildrenRunInOrder(aspects, children[1..], first.ctx);
      HandlersConcat(first.log, RunChildren(aspects, children[1..], first.ctx).log);
    }
  }

  /** Every handler and hook in the tree returns nil. */
  ghost predicate WholeTreeReturnsNil(aspects: seq<Aspect>, cmd: Command)
    decreases cmd, 1
  {
    AllReturnNil(aspects, cmd, 0) && WholeForestReturnsNil(aspects, cmd.children)
  }

  ghost predicate WholeForestReturnsNil(aspects: seq<Aspect>, cmds: seq<Command>)
    decreases cmds, 0
  {
    cmds != [] ==> WholeTreeReturnsNil(aspects, cmds[0]) && WholeForestReturnsNil(aspects, cmds[1..])
  }

  predicate OpenAndSound(ctx: Option<MemTx>) {
    ctx.Some? && ctx.value.depth >= 0 && !ctx.value.aborted
  }

  lemma {:induction false} InnerSucceedsIff(aspects: seq<Aspect>, cmd: Command, i: nat, ctx: Option<MemTx>)
    requires i <= |aspects| && aspects != [] && aspects[0].transactional && OpenAndSound(ctx)
    ensures var r := RunLayers(aspects, cmd, i, ctx);
            (r.nil && RolledBack !in r.log) <==>
            (AllReturnNil(aspects, cmd, i) && WholeForestReturnsNil(aspects, cmd.children))
    decreases cmd, 1, |aspects| - i
  {
    if i == |aspects| {
      ForestSucceedsIff(aspects, cmd.children, ctx);
    } else if aspects[i].transactional {
      InnerSucceedsIff(aspects, cmd, i + 1, Some(BeginTx(ctx)));
      LayersAreBracketed(aspects, cmd, i + 1, Some(BeginTx(ctx)));
    } else if cmd.hooks(i).beforeNil {
      InnerSucceedsIff(aspects, cmd, i + 1, ctx);
    }
  }

  lemma {:induction false} ForestSucceedsIff(aspects: seq<Aspect>, cmds: seq<Command>, ctx: Option<MemTx>)
    requires aspects != [] && aspects[0].transactional && OpenAndSound(ctx)
    ensures RolledBack !in RunChildren(aspects, cmds, ctx).log <==> WholeForestReturnsNil(aspects, cmds)
    decreases cmds, 0, 0
  {
    if cmds != [] {
      var first := RunLayers(aspects, cmds[0], 0, ctx);
      InnerSucceedsIff(aspects, cmds[0], 0, ctx);
      LayersAreBracketed(aspects, cmds[0], 0, ctx);
      CommitOnlyAfterSuccess(aspects, cmds[0], 0, ctx);
      if RolledBack !in first.log { ForestSucceedsIff(aspects, cmds[1..], first.ctx); }
    }
  }

  /**
   In a chain whose outermost aspect is the transaction, a command on a fresh context succeeds exactly
   when every handler and hook in its whole tree returns nil: no error can be swallowed.
   */
  lemma {:induction false} TreeSucceedsIff(aspects: seq<Aspect>, cmd: Command)
    requires aspects != [] && aspects[0].transactional
    ensures RunLayers(aspects, cmd, 0, None).nil <==> WholeTreeReturnsNil(aspects, cmd)
  {
    var inner := RunLayers(aspects, cmd, 1, Some(BeginTx(None)));
    InnerSucceedsIff(aspects, cmd, 1, Some(BeginTx(None)));
    LayersAreBracketed(aspects, cmd, 1, Some(BeginTx(None)));
  }

  /** Transactional layers from layer i inwards. */
  function TransactionalFrom(aspects: seq<Aspect>, i: nat): nat
    requires i <= |aspects|
    decreases |aspects| - i
  {
    if i == |aspects| then 0
    else (if aspects[i].transactional then 1 else 0) + TransactionalFrom(aspects, i + 1)
  }

  function Begins(log: seq<Entry>): nat {
    if log == [] then 0 else (if log[0].Begun? then 1 else 0) + Begins(log[1..])
  }

  lemma {:induction false} BeginsConcat(a: seq<Entry>, b: seq<Entry>)
    ensures Begins(a + b) == Begins(a) + Begins(b)
    decreases |a|
  {
    if a == [] {
      assert a + b == b;
    } else {
      assert (a + b)[1..] == a[1..] + b;
      BeginsConcat(a[1..], b);
    }
  }

  lemma {:induction false} BeginsOfOne(e: Entry)
    ensures Begins([e]) == if e.Begun? then 1 else 0
  {
    assert [e][1..] == [];
  }

  /** Every command of the tree is let in. */
  ghost predicate WholeForestLetIn(aspects: seq<Aspect>, cmds: seq<Command>)
    decreases cmds
  {
    cmds != [] ==>
      && LetIn(aspects, cmds[0], 0)
      && WholeForestLetIn(aspects, cmds[0].children) && WholeForestLetIn(aspects, cmds[1..])
  }

  function Commands(cmds: seq<Command>): nat
    decreases cmds
  {
    if cmds == [] then 0 else 1 + Commands(cmds[0].children) + Commands(cmds[1..])
  }

  lemma {:induction false} Distribute(a: nat, b: nat, n: nat)
    ensures (1 + a + b) * n == n + a * n + b * n
  {
  }

  /** When the hooks let all commands in, each command begins once per transactional layer, however they end. */
  lemma {:induction false} EachCommandBeginsPerLayer(aspects: seq<Aspect>, cmd: Command, i: nat, ctx: Option<MemTx>)
    requires i <= |aspects| && LetIn(aspects, cmd, i) && WholeForestLetIn(aspects, cmd.children)
    ensures Begins(RunLayers(aspects, cmd, i, ctx).log) ==
              TransactionalFrom(aspects, i) + Commands(cmd.children) * TransactionalFrom(aspects, 0)
    decreases cmd, 1, |aspects| - i
  {
    if i == |aspects| {
      ForestBeginsPerLayer(aspects, cmd.children, ctx);
      BeginsConcat([Handled(cmd.name)], RunChildren(aspects, cmd.children, ctx).log);
      BeginsOfOne(Handled(cmd.name));
    } else if aspects[i].transactional {
      var inner := RunLayers(aspects, cmd, i + 1, Some(BeginTx(ctx)));
      EachCommandBeginsPerLayer(aspects, cmd, i + 1, Some(BeginTx(ctx)));
      var close := if inner.nil then Committed(CommitTx(inner.ctx).1) else RolledBack;
      BeginsConcat([Begun], inner.log + [close]);
      BeginsConcat(inner.log, [close]);
      BeginsOfOne(Begun);
      BeginsOfOne(close);
    } else {
      EachCommandBeginsPerLayer(aspects, cmd, i + 1, ctx);
    }
  }

  lemma {:induction false} ForestBeginsPerLayer(aspects: seq<Aspect>, cmds: seq<Command>, ctx: Option<MemTx>)
    requires WholeForestLetIn(aspects, cmds)
    ensures Begins(RunChildren(aspects, cmds, ctx).log) == Commands(cmds) * TransactionalFrom(aspects, 0)
    decreases cmds, 0, 0
  {
    if cmds != [] {
      var first := RunLayers(aspects, cmds[0], 0, ctx);
      EachCommandBeginsPerLayer(aspects, cmds[0], 0, ctx);
      ForestBeginsPerLayer(aspects, cmds[1..], first.ctx);
      BeginsConcat(first.log, RunChildren(aspects, cmds[1..], first.ctx).log);
      Distribute(Commands(cmds[0].children), Commands(cmds[1..]), TransactionalFrom(aspects, 0));
    }
  }

  // ---------------------------------------------------------------- the chain's methods

  ghost predicate SortedByOrder(aspects: seq<Aspect>) {
    forall i, j | 0 <= i < j < |aspects| :: aspects[i].order <= aspects[j].order
  }

  /** Sorted, except that the element at i may belong further down. */
  ghost predicate SortedExcept(aspects: seq<Aspect>, i: nat) {
    forall j, k | 0 <= j < k < |aspects| && k != i :: aspects[j].order <= aspects[k].order
  }

  lemma {:induction false} SwapDown(aspects: seq<Aspect>, i: nat)
    requires 0 < i < |aspects| && SortedExcept(aspects, i) && aspects[i].order < aspects[i - 1].order
    ensures var swapped := aspects[i := aspects[i - 1]][i - 1 := aspects[i]];
            SortedExcept(swapped, i - 1) && multiset(swapped) == multiset(aspects)
  {
  }

  class TransactionAspect {
    const txManager: MemoryTransactionManager

    constructor (txManager: MemoryTransactionManager)
      ensures this.txManager == txManager
    {
      this.txManager := txManager;
    }

    method BeforeCommand(ctx: MemTxState?) returns (newCtx: MemTxState)
      modifies ctx
      ensures if ctx == null then fresh(newCtx) else newCtx == ctx
      ensures newCtx.View() == BeginTx(old(ViewOf(ctx)))
    {
      newCtx := txManager.Begin(ctx);
    }

    /** `nil` is the error of the inner layers; the result is the error of the whole. */
    method AfterCommand(ctx: MemTxState, nil: bool, ghost log: seq<Entry>)
      returns (afterNil: bool, ghost after: seq<Entry>)
      modifies ctx
      ensures Dispatched(Some(ctx.View()), afterNil, after) ==
                CloseTransaction(Dispatched(Some(old(ctx.View())), nil, log))
    {
      if !nil {
        var _ := txManager.Rollback(ctx);
        return false, log + [RolledBack];
      }
      afterNil := txManager.Commit(ctx);
      after := log + [Committed(afterNil)];
    }
  }

  class Chain {
    const transaction: TransactionAspect
    var commandAspects: seq<Aspect>

    constructor (transaction: TransactionAspect)
      ensures this.transaction == transaction && commandAspects == []
    {
      this.transaction := transaction;
      commandAspects := [];
    }

    /** Registering keeps the chain sorted and loses no aspect. */
    method RegisterCommandAspect(a: Aspect)
      requires SortedByOrder(commandAspects)
      modifies this
      ensures SortedByOrder(commandAspects)
      ensures multiset(commandAspects) == multiset(old(commandAspects)) + multiset{a}
    {
      commandAspects := commandAspects + [a];
      SortLast();
    }

    /** sort.Slice on a list that is sorted up to its last element. */
    method SortLast()
      requires commandAspects != [] && SortedExcept(commandAspects, |commandAspects| - 1)
      modifies this
      ensures SortedByOrder(commandAspects)
      ensures multiset(commandAspects) == multiset(old(commandAspects))
    {
      var i := |commandAspects| - 1;
      while i > 0 && commandAspects[i].order < commandAspects[i - 1].order
        invariant 0 <= i < |commandAspects|
        invariant multiset(commandAspects) == multiset(old(commandAspects))
        invariant SortedExcept(commandAspects, i)
      {
        SwapDown(commandAspects, i);
        commandAspects := commandAspects[i := commandAspects[i - 1]][i - 1 := commandAspects[i]];
        i := i - 1;
      }
    }

    method ExecuteWithCommandAspects(ctx: MemTxState?, cmd: Command) returns (nil: bool, ghost log: seq<Entry>)
      requires Usable(ViewOf(ctx))
      modifies ctx
      ensures Dispatched(ViewOf(ctx), nil, log) == RunLayers(commandAspects, cmd, 0, old(ViewOf(ctx)))
      decreases cmd, 2, 0
    {
      var aspects := commandAspects;
      nil, log := RunCommandAspects(ctx, cmd, 0, aspects);
    }

    method RunCommandAspects(ctx: MemTxState?, cmd: Command, index: nat, aspects: seq<Aspect>)
      returns (nil: bool, ghost log: seq<Entry>)
      requires index <= |aspects| && Usable(ViewOf(ctx))
      modifies ctx
      ensures Dispatched(ViewOf(ctx), nil, log) == RunLayers(aspects, cmd, index, old(ViewOf(ctx)))
      decreases cmd, 1, |aspects| - index
    {
      if index >= |aspects| {
        log := DispatchAll(ctx, cmd.children, aspects);
        return cmd.handlerNil, [Handled(cmd.name)] + log;
      }
      if aspects[index].transactional {
        var newCtx := transaction.BeforeCommand(ctx);
        nil, log := RunCommandAspects(newCtx, cmd, index + 1, aspects);
        nil, log := transaction.AfterCommand(newCtx, nil, log);
        log := [Begun] + log;
        return;
      }
      var hook := cmd.hooks(index);
      if !hook.beforeNil { return false, []; }
      nil, log := RunCommandAspects(ctx, cmd, index + 1, aspects);
      nil := nil && hook.afterNil;
    }

    /** The handler: its commands run on the context that it was given. */
    method DispatchAll(ctx: MemTxState?, children: seq<Command>, aspects: seq<Aspect>) returns (ghost log: seq<Entry>)
      requires Usable(ViewOf(ctx))
      modifies ctx
      ensures Dispatched(ViewOf(ctx), true, log) == RunChildren(aspects, children, old(ViewOf(ctx)))
      decreases children, 0, 0
    {
      log := [];
      if children != [] {
        ghost var start := ViewOf(ctx);
        LayersAreBracketed(aspects, children[0], 0, start);
        var _, firstLog := RunCommandAspects(ctx, children[0], 0, aspects);
        var restLog := DispatchAll(ctx, children[1..], aspects);
        log := firstLog + restLog;
      }
    }
  }
}
