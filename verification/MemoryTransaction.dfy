/**
 The in-memory transaction manager (infra/memory_backend.go), and how it differs from the
 PostgreSQL one: its aborted flag is never cleared.
 */
module MemoryTransaction {
  import opened Wrappers
  import PgTransaction

  datatype MemTx = MemTx(depth: int, aborted: bool)

  function BeginTx(ctx: Option<MemTx>): MemTx {
    match ctx
    case Some(tx) => tx.(depth := tx.depth + 1)
    case None => MemTx(1, false)
  }

  /** The new context value and whether the call returned nil. */
  function CommitTx(ctx: Option<MemTx>): (Option<MemTx>, bool) {
    if ctx.None? || ctx.value.depth <= 0 then (ctx, false)
    else (Some(ctx.value.(depth := ctx.value.depth - 1)), !ctx.value.aborted)
  }

  function RollbackTx(ctx: Option<MemTx>): (Option<MemTx>, bool) {
    if ctx.None? || ctx.value.depth <= 0 then (ctx, false)
    else (Some(MemTx(ctx.value.depth - 1, true)), true)
  }

  // ---------------------------------------------------------------- runs

  type Call<W> = PgTransaction.Call<W>

  /** A refused Begin does not exist here; a write does not touch the manager. */
  function Step<W>(ctx: Option<MemTx>, op: PgTransaction.Op<W>): (Option<MemTx>, bool) {
    match op
    case Begin(_) => (Some(BeginTx(ctx)), true)
    case Write(_) => (ctx, true)
    case Commit => CommitTx(ctx)
    case Rollback => RollbackTx(ctx)
  }

  function After<W>(calls: seq<Call<W>>, k: nat): Option<MemTx>
    requires k <= |calls|
  {
    if k == 0 then None else Step(After(calls, k - 1), calls[k - 1].op).0
  }

  /** Call k returned what the manager returns. */
  ghost predicate Honest<W>(calls: seq<Call<W>>, k: nat)
    requires k < |calls|
  {
    calls[k].nil == Step(After(calls, k), calls[k].op).1
  }

  ghost predicate Run<W>(calls: seq<Call<W>>) {
    forall k | 0 <= k < |calls| :: Honest(calls, k)
  }

  ghost predicate RolledBack<W>(calls: seq<Call<W>>, k: nat)
    requires k <= |calls|
  {
    exists r: nat | r < k :: PgTransaction.RollbackAt(calls, r)
  }

  lemma RolledBackNext<W>(calls: seq<Call<W>>, k: nat)
    requires k < |calls|
    ensures RolledBack(calls, k + 1) <==> RolledBack(calls, k) || PgTransaction.RollbackAt(calls, k)
  {
  }

  /** The two fields say how many scopes are open and whether anything was rolled back. */
  ghost predicate Means(ctx: Option<MemTx>, open: nat, rolledBack: bool) {
    match ctx
    case None => open == 0 && !rolledBack
    case Some(tx) => tx.depth == open && tx.aborted == rolledBack
  }

  lemma MeansNext<W>(calls: seq<Call<W>>, k: nat, ctx: Option<MemTx>, rolledBack: bool)
    requires k < |calls| && Means(ctx, |PgTransaction.Scopes(calls, k)|, rolledBack)
    requires calls[k].nil == Step(ctx, calls[k].op).1
    ensures Means(Step(ctx, calls[k].op).0, |PgTransaction.Scopes(calls, k + 1)|,
                  rolledBack || PgTransaction.RollbackAt(calls, k))
  {
  }

  lemma {:induction false} FieldsMeanScopes<W>(calls: seq<Call<W>>, k: nat)
    requires k <= |calls| && Run(calls)
    ensures Means(After(calls, k), |PgTransaction.Scopes(calls, k)|, RolledBack(calls, k))
  {
    if k > 0 {
      FieldsMeanScopes(calls, k - 1);
      assert Honest(calls, k - 1);
      RolledBackNext(calls, k - 1);
      MeansNext(calls, k - 1, After(calls, k - 1), RolledBack(calls, k - 1));
    }
  }

  /** A Commit returns nil exactly when a scope is open and nothing was rolled back before it. */
  lemma CommitReturnsNilIff<W>(calls: seq<Call<W>>, c: nat)
    requires c < |calls| && Run(calls) && calls[c].op.Commit?
    ensures calls[c].nil <==> PgTransaction.Scopes(calls, c) != [] && !RolledBack(calls, c)
  {
    FieldsMeanScopes(calls, c);
    assert Honest(calls, c);
  }

  // ---------------------------------------------------------------- against PostgreSQL

  /** The same operations in one transaction that no server refuses. */
  ghost predicate SameTransaction<W>(start: seq<W>, pg: seq<Call<W>>, mem: seq<Call<W>>, c: nat)
    requires c <= |pg| == |mem|
  {
    && PgTransaction.Run(start, pg) && Run(mem)
    && (forall i | 0 <= i < |pg| :: pg[i].op == mem[i].op)
    && (forall i | 0 <= i < |pg| :: pg[i].op != PgTransaction.Op.Begin(true))
    && c > 0 && pg[0].op.Begin?
    && (forall i | 0 < i <= c :: PgTransaction.Scopes(pg, i) != [])
  }

  lemma SameBrackets<W>(start: seq<W>, pg: seq<Call<W>>, mem: seq<Call<W>>, c: nat, k: nat)
    requires k < c <= |pg| == |mem| && SameTransaction(start, pg, mem, c)
    requires PgTransaction.Scopes(pg, k) == PgTransaction.Scopes(mem, k)
    ensures PgTransaction.BeginAt(pg, k) == PgTransaction.BeginAt(mem, k)
    ensures PgTransaction.RollbackAt(pg, k) == PgTransaction.RollbackAt(mem, k)
  {
    PgTransaction.InvHolds(start, pg, k);
    FieldsMeanScopes(mem, k);
    assert PgTransaction.Honest(start, pg, k) && Honest(mem, k);
    if pg[k].op.Rollback? { PgTransaction.ClosingReturnsNilIff(start, pg, k); }
  }

  lemma SameScopesNext<W>(pg: seq<Call<W>>, mem: seq<Call<W>>, k: nat)
    requires k < |pg| == |mem| && pg[k].op == mem[k].op
    requires PgTransaction.Scopes(pg, k) == PgTransaction.Scopes(mem, k)
    requires PgTransaction.BeginAt(pg, k) == PgTransaction.BeginAt(mem, k)
    ensures PgTransaction.Scopes(pg, k + 1) == PgTransaction.Scopes(mem, k + 1)
  {
  }

  lemma {:induction false} SameScopes<W>(start: seq<W>, pg: seq<Call<W>>, mem: seq<Call<W>>, c: nat, k: nat)
    requires k <= c <= |pg| == |mem| && SameTransaction(start, pg, mem, c)
    ensures PgTransaction.Scopes(pg, k) == PgTransaction.Scopes(mem, k)
    ensures forall i | 0 <= i < k :: PgTransaction.BeginAt(pg, i) == PgTransaction.BeginAt(mem, i)
    ensures forall i | 0 <= i < k :: PgTransaction.RollbackAt(pg, i) == PgTransaction.RollbackAt(mem, i)
  {
    if k > 0 {
      SameScopes(start, pg, mem, c, k - 1);
      SameBrackets(start, pg, mem, c, k - 1);
      SameScopesNext(pg, mem, k - 1);
    }
  }

  /**
   On the same operations the managers give a Commit different answers exactly when something was
   rolled back and a Begin followed the last rollback: the memory manager refuses, PostgreSQL commits.
   */
  lemma ManagersDisagreeIff<W>(start: seq<W>, pg: seq<Call<W>>, mem: seq<Call<W>>, c: nat)
    requires c < |pg| == |mem| && SameTransaction(start, pg, mem, c) && pg[c].op.Commit?
    ensures mem[c].nil ==> pg[c].nil
    ensures pg[c].nil != mem[c].nil <==> RolledBack(pg, c) && PgTransaction.BeginIsLast(pg, c)
  {
    SameScopes(start, pg, mem, c, c);
    PgTransaction.ClosingReturnsNilIff(start, pg, c);
    CommitReturnsNilIff(mem, c);
    assert RolledBack(pg, c) <==> RolledBack(mem, c) by {
      if RolledBack(pg, c) {
        var r: nat :| r < c && PgTransaction.RollbackAt(pg, r);
        assert PgTransaction.RollbackAt(mem, r);
      }
      if RolledBack(mem, c) {
        var r: nat :| r < c && PgTransaction.RollbackAt(mem, r);
        assert PgTransaction.RollbackAt(pg, r);
      }
    }
    assert PgTransaction.After(start, pg, 0).ctx == None && PgTransaction.Honest(start, pg, 0);
    assert PgTransaction.BeginAt(pg, 0);
  }

  // ---------------------------------------------------------------- the manager's methods

  class MemTxState {
    var depth: int
    var aborted: bool

    constructor ()
      ensures View() == MemTx(1, false)
    {
      depth, aborted := 1, false;
    }

    ghost function View(): MemTx
      reads this
    {
      MemTx(depth, aborted)
    }
  }

  ghost function ViewOf(ctx: MemTxState?): Option<MemTx>
    reads ctx
  {
    if ctx == null then None else Some(ctx.View())
  }

  class MemoryTransactionManager {
    constructor () {
    }

    method Begin(ctx: MemTxState?) returns (newCtx: MemTxState)
      modifies ctx
      ensures if ctx == null then fresh(newCtx) else newCtx == ctx
      ensures newCtx.View() == BeginTx(old(ViewOf(ctx)))
    {
      if ctx != null {
        ctx.depth := ctx.depth + 1;
        return ctx;
      }
      newCtx := new MemTxState();
    }

    method Commit(ctx: MemTxState?) returns (nil: bool)
      modifies ctx
      ensures (ViewOf(ctx), nil) == CommitTx(old(ViewOf(ctx)))
    {
      if ctx == null || ctx.depth <= 0 { return false; }
      ctx.depth := ctx.depth - 1;
      nil := !ctx.aborted;
    }

    method Rollback(ctx: MemTxState?) returns (nil: bool)
      modifies ctx
      ensures (ViewOf(ctx), nil) == RollbackTx(old(ViewOf(ctx)))
    {
      if ctx == null || ctx.depth <= 0 { return false; }
      ctx.aborted := true;
      ctx.depth := ctx.depth - 1;
      nil := true;
    }
  }
}
