/**
 Nested transactions over savepoints (pg/transaction.go).

 The manager keeps four flat fields; this module proves that they implement nested scopes. A run
 is a sequence of calls, each with the error it returned. What a run should leave in the database
 is said on the calls alone (`Scopes`, `Alive`, `Kept`), without the manager's fields.
 */
module PgTransaction {
  import opened Wrappers
  import opened Postgres

  /** The fields of txState. `parentSp` holds the savepoint numbers of the open scopes. */
  datatype Tx = Tx(depth: int, aborted: bool, nextSpSeq: int, parentSp: seq<int>)

  /** The database together with what the caller's context carries. */
  datatype World<W> = World(db: Session<W>, ctx: Option<Tx>)

  /** `refused` says that the server rejects the BEGIN or SAVEPOINT statement. */
  datatype Op<W> = Begin(refused: bool) | Write(row: W) | Commit | Rollback

  datatype Outcome<W> = Outcome(world: World<W>, nil: bool)

  predicate Sane(tx: Tx) {
    0 <= tx.depth == |tx.parentSp|
  }

  /** The statement that Commit or Rollback sends when a scope is open. */
  function ClosingStatement<W>(tx: Tx, commit: bool): Statement<W>
    requires Sane(tx) && tx.depth > 0
  {
    var name := tx.parentSp[|tx.parentSp| - 1];
    var keep := commit && !tx.aborted;
    if tx.depth > 1 then (if keep then Release(name) else RollbackTo(name))
    else (if keep then CommitTx else RollbackTx)
  }

  function Close<W>(db: Session<W>, tx: Tx, commit: bool): Outcome<W>
    requires Sane(tx)
  {
    if tx.depth <= 0 then Outcome(World(db, Some(tx)), false)
    else
      var closed := Tx(tx.depth - 1, tx.aborted || !commit, tx.nextSpSeq, tx.parentSp[..|tx.parentSp| - 1]);
      match Exec(db, ClosingStatement(tx, commit))
      case None => Outcome(World(db, Some(closed)), false)
      case Some(after) => Outcome(World(after, Some(closed)), !(commit && tx.aborted))
  }

  /** One call of the manager, or one write through GetQuerier. */
  function Step<W>(w: World<W>, op: Op<W>): Outcome<W>
    requires w.ctx.Some? ==> Sane(w.ctx.value)
  {
    match op
    case Begin(refused) =>
      if refused then Outcome(w, false)
      else if w.ctx.None? then
        Outcome(World(w.db.(current := w.db.committed, savepoints := [], open := true),
                      Some(Tx(1, false, 1, [1]))), true)
      else
        var tx := w.ctx.value;
        var spSeq := tx.nextSpSeq + 1;
        (match Exec(w.db, SetSavepoint(spSeq))
         case None => Outcome(w, false)
         case Some(after) =>
           Outcome(World(after, Some(Tx(tx.depth + 1, false, spSeq, tx.parentSp + [spSeq]))), true))
    case Write(row) =>
      if w.ctx.None? then Outcome(w.(db := w.db.(committed := w.db.committed + [row])), true)
      else
        (match Exec(w.db, Insert(row))
         case None => Outcome(w, false)
         case Some(after) => Outcome(w.(db := after), true))
    case Commit => if w.ctx.None? then Outcome(w, false) else Close(w.db, w.ctx.value, true)
    case Rollback => if w.ctx.None? then Outcome(w, false) else Close(w.db, w.ctx.value, false)
  }

  // ---------------------------------------------------------------- runs

  /** A call as its caller saw it: `nil` is whether it returned a nil error. */
  datatype Call<W> = Call(op: Op<W>, nil: bool)

  /** The world after the first k calls on a fresh context. */
  function After<W>(start: seq<W>, calls: seq<Call<W>>, k: nat): (w: World<W>)
    requires k <= |calls|
    ensures w.ctx.Some? ==> Sane(w.ctx.value)
  {
    if k == 0 then World(Session(start, start, [], false), None)
    else Step(After(start, calls, k - 1), calls[k - 1].op).world
  }

  /** Call k returned what the manager returns. */
  ghost predicate Honest<W>(start: seq<W>, calls: seq<Call<W>>, k: nat)
    requires k < |calls|
  {
    calls[k].nil == Step(After(start, calls, k), calls[k].op).nil
  }

  ghost predicate Run<W>(start: seq<W>, calls: seq<Call<W>>) {
    forall k | 0 <= k < |calls| :: Honest(start, calls, k)
  }

  // ------------------------------------------ what a run means, on the calls

  /** Positions of the Begin calls whose scopes are open before call k, outermost first. */
  function Scopes<W>(calls: seq<Call<W>>, k: nat): seq<nat>
    requires k <= |calls|
  {
    if k == 0 then []
    else
      var before := Scopes(calls, k - 1);
      match calls[k - 1].op
      case Begin(_) => if calls[k - 1].nil then before + [k - 1] else before
      case Write(_) => before
      case _ => if before == [] then [] else before[..|before| - 1]
  }

  /** Call c ends a scope. */
  predicate Closes<W>(calls: seq<Call<W>>, c: nat)
    requires c < |calls|
  {
    (calls[c].op.Commit? || calls[c].op.Rollback?) && Scopes(calls, c) != []
  }

  /** Call c ends a scope that was begun before call p. */
  predicate ClosesAround<W>(calls: seq<Call<W>>, c: nat, p: nat)
    requires c < |calls|
  {
    Closes(calls, c) && Scopes(calls, c)[|Scopes(calls, c)| - 1] < p
  }

  /** Every scope around call p that ended before call k ended in a Commit that returned nil. */
  ghost predicate Alive<W>(calls: seq<Call<W>>, p: nat, k: nat)
    requires k <= |calls|
  {
    forall c | p < c < k && ClosesAround(calls, c, p) :: calls[c].op.Commit? && calls[c].nil
  }

  /** The writes among the first n calls that are alive before call k, in order. */
  ghost function Kept<W>(calls: seq<Call<W>>, n: nat, k: nat): seq<W>
    requires n <= k <= |calls|
  {
    if n == 0 then []
    else if calls[n - 1].op.Write? && calls[n - 1].nil && Alive(calls, n - 1, k)
    then Kept(calls, n - 1, k) + [calls[n - 1].op.row]
    else Kept(calls, n - 1, k)
  }

  /** The last successful Begin or Rollback before call k is a Begin. */
  ghost predicate BeginIsLast<W>(calls: seq<Call<W>>, k: nat)
    requires k <= |calls|
  {
    exists b: nat | b < k :: BeginAt(calls, b) && forall r | b < r < k :: !RollbackAt(calls, r)
  }

  predicate BeginAt<W>(calls: seq<Call<W>>, b: nat)
    requires b < |calls|
  {
    calls[b].op.Begin? && calls[b].nil
  }

  predicate RollbackAt<W>(calls: seq<Call<W>>, r: nat)
    requires r < |calls|
  {
    calls[r].op.Rollback? && calls[r].nil
  }

  // ------------------------------------------ the invariant of every run

  ghost predicate Ascends(s: seq<int>) {
    forall i, j | 0 <= i < j < |s| :: s[i] < s[j]
  }

  /** The manager's own fields: numbers of open scopes ascend, and no number is ever used again. */
  ghost predicate FieldsOk<W>(w: World<W>) {
    match w.ctx
    case None => !w.db.open
    case Some(tx) =>
      && Sane(tx)
      && Ascends(tx.parentSp)
      && (forall i | 0 <= i < tx.depth :: 0 < tx.parentSp[i] <= tx.nextSpSeq)
      && (w.db.open <==> tx.depth > 0)
      && NamesAscend(w.db.savepoints)
      && (forall sp | sp in w.db.savepoints :: sp.name <= tx.nextSpSeq)
  }

  /** Nested scopes on data alone: a stack of marks and the data that the caller sees. */
  datatype Nest<W> = Nest(marks: seq<seq<W>>, now: seq<W>)

  /** Begin pushes a mark. Ending a scope pops one, and goes back to it unless a Commit returns nil. */
  function NextNest<W>(nest: Nest<W>, op: Op<W>, nil: bool): Nest<W> {
    var marks, now := nest.marks, nest.now;
    match op
    case Begin(_) => if nil then Nest(marks + [now], now) else nest
    case Write(row) => if nil then Nest(marks, now + [row]) else nest
    case _ =>
      if marks == [] then nest
      else Nest(marks[..|marks| - 1], if op.Commit? && nil then now else marks[|marks| - 1])
  }

  /**
   The stack of savepoints as data: `marks[i]` is the data at the start of the i-th open scope, and
   `now` is the data that the caller sees. Outside a transaction that is the committed data.
   */
  ghost predicate Holds<W>(w: World<W>, marks: seq<seq<W>>, now: seq<W>)
    requires FieldsOk(w)
  {
    && (w.ctx.None? ==> marks == [])
    && (w.ctx.Some? ==> w.ctx.value.depth == |marks|)
    && (marks == [] ==> w.db.committed == now)
    && (marks != [] ==> w.db.committed == marks[0] && w.db.current == now)
    && forall i | 1 <= i < |marks| :: MarkIsSaved(w, marks, i)
  }

  ghost predicate MarkIsSaved<W>(w: World<W>, marks: seq<seq<W>>, i: nat)
    requires i < |marks| && w.ctx.Some? && |w.ctx.value.parentSp| == |marks|
  {
    Savepoint(w.ctx.value.parentSp[i], marks[i]) in w.db.savepoints
  }

  lemma CloseKeepsFields<W>(db: Session<W>, tx: Tx, commit: bool)
    requires FieldsOk(World(db, Some(tx)))
    ensures FieldsOk(Close(db, tx, commit).world)
  {
  }

  lemma BeginKeepsFields<W>(w: World<W>, refused: bool)
    requires FieldsOk(w)
    ensures FieldsOk(Step(w, Begin(refused)).world)
  {
    if w.ctx.Some? && w.ctx.value.depth > 0 { assert w.ctx.value.parentSp[0] > 0; }
  }

  lemma FieldsStayOk<W>(w: World<W>, op: Op<W>)
    requires FieldsOk(w)
    ensures FieldsOk(Step(w, op).world)
  {
    match op
    case Begin(refused) => BeginKeepsFields(w, refused);
    case Write(_) =>
    case Commit => if w.ctx.Some? { CloseKeepsFields(w.db, w.ctx.value, true); }
    case Rollback => if w.ctx.Some? { CloseKeepsFields(w.db, w.ctx.value, false); }
  }

  lemma BeginPushes<W>(w: World<W>, op: Op<W>, marks: seq<seq<W>>, now: seq<W>)
    requires FieldsOk(w) && Holds(w, marks, now) && op.Begin? && Step(w, op).nil
    requires FieldsOk(Step(w, op).world)
    ensures Holds(Step(w, op).world, marks + [now], now)
  {
    var w' := Step(w, op).world;
    forall i | 1 <= i < |marks| + 1 ensures MarkIsSaved(w', marks + [now], i) {
      if i < |marks| {
        assert MarkIsSaved(w, marks, i);
      } else {
        assert w'.db.savepoints[|w.db.savepoints|] == Savepoint(w'.ctx.value.parentSp[i], now);
      }
    }
  }

  /** The statement of a Commit or Rollback always works: its savepoint is live and holds the mark. */
  lemma ClosingWorks<W>(w: World<W>, commit: bool, marks: seq<seq<W>>, now: seq<W>)
    requires FieldsOk(w) && Holds(w, marks, now) && marks != []
    ensures var tx := w.ctx.value;
            var top := |marks| - 1;
            && Exec(w.db, ClosingStatement(tx, commit)).Some?
            && (top > 0 ==>
                  var found := Find(w.db.savepoints, tx.parentSp[top]);
                  && 0 <= found && w.db.savepoints[found].data == marks[top]
                  && forall i | 1 <= i < top ::
                       Savepoint(tx.parentSp[i], marks[i]) in w.db.savepoints[..found])
  {
    var parents, top := w.ctx.value.parentSp, |marks| - 1;
    if top > 0 {
      assert MarkIsSaved(w, marks, top);
      FindsMember(w.db.savepoints, Savepoint(parents[top], marks[top]));
      forall i | 1 <= i < top
        ensures Savepoint(parents[i], marks[i]) in w.db.savepoints[..Find(w.db.savepoints, parents[top])]
      {
        assert MarkIsSaved(w, marks, i);
        OlderSavepointsStay(w.db.savepoints, Savepoint(parents[i], marks[i]), parents[top]);
      }
    }
  }

  /** Ending a scope forgets its mark; the data becomes the mark again unless a Commit returned nil. */
  lemma ClosePops<W>(w: World<W>, op: Op<W>, marks: seq<seq<W>>, now: seq<W>)
    requires FieldsOk(w) && Holds(w, marks, now) && (op.Commit? || op.Rollback?) && marks != []
    requires FieldsOk(Step(w, op).world)
    ensures var top := |marks| - 1;
            Holds(Step(w, op).world, marks[..top], if op.Commit? && Step(w, op).nil then now else marks[top])
    ensures Step(w, op).nil == (op.Rollback? || !w.ctx.value.aborted)
  {
    ClosingWorks(w, op.Commit?, marks, now);
    var top := |marks| - 1;
    var w' := Step(w, op).world;
    if top > 0 {
      var found := Find(w.db.savepoints, w.ctx.value.parentSp[top]);
      assert w'.db.savepoints == w.db.savepoints[..found] || w'.db.savepoints == w.db.savepoints[..found + 1];
      forall i | 1 <= i < top ensures MarkIsSaved(w', marks[..top], i) {
        assert Savepoint(w.ctx.value.parentSp[i], marks[i]) in w.db.savepoints[..found];
      }
    }
  }

  /** What the calls say that each open scope found when it began. */
  ghost function Marks<W>(start: seq<W>, calls: seq<Call<W>>, k: nat): seq<seq<W>>
    requires k <= |calls|
  {
    ScopesBegin(calls, k);
    var scopes := Scopes(calls, k);
    seq(|scopes|, i requires 0 <= i < |scopes| => start + Kept(calls, scopes[i], k))
  }

  /** What the calls before call k promise. */
  ghost function Promise<W>(start: seq<W>, calls: seq<Call<W>>, k: nat): Nest<W>
    requires k <= |calls|
  {
    Nest(Marks(start, calls, k), start + Kept(calls, k, k))
  }

  ghost predicate Inv<W>(start: seq<W>, calls: seq<Call<W>>, k: nat)
    requires k <= |calls|
  {
    var w := After(start, calls, k);
    && FieldsOk(w)
    && Holds(w, Promise(start, calls, k).marks, Promise(start, calls, k).now)
    && (w.ctx.Some? ==> (w.ctx.value.aborted <==> !BeginIsLast(calls, k)))
  }

  /** A call that ends no scope, or commits one, kills no earlier write. */
  lemma {:induction false} KeptStays<W>(calls: seq<Call<W>>, n: nat, k: nat)
    requires n <= k < |calls|
    requires !Closes(calls, k) || (calls[k].op.Commit? && calls[k].nil)
    ensures Kept(calls, n, k + 1) == Kept(calls, n, k)
  {
    if n > 0 {
      KeptStays(calls, n - 1, k);
      assert Alive(calls, n - 1, k + 1) <==> Alive(calls, n - 1, k);
    }
  }

  /** Call k gives up the scope begun at b: it ends that scope, and is no Commit that returns nil. */
  ghost predicate GivesUp<W>(calls: seq<Call<W>>, k: nat, b: nat)
    requires k < |calls|
  {
    && Closes(calls, k) && !(calls[k].op.Commit? && calls[k].nil)
    && b == Scopes(calls, k)[|Scopes(calls, k)| - 1]
  }

  lemma AliveAfterGivingUp<W>(calls: seq<Call<W>>, p: nat, k: nat, b: nat)
    requires p < k < |calls| && GivesUp(calls, k, b)
    ensures Alive(calls, p, k + 1) <==> p <= b && Alive(calls, p, k)
  {
    if b < p { assert ClosesAround(calls, k, p); }
  }

  /** A call that gives up the scope begun at b kills exactly the writes after b. */
  lemma {:induction false} KeptDrops<W>(calls: seq<Call<W>>, n: nat, k: nat, b: nat)
    requires n <= k < |calls| && GivesUp(calls, k, b) && b < k && calls[b].op.Begin?
    ensures Kept(calls, n, k + 1) == Kept(calls, if n <= b then n else b, k)
  {
    if n > 0 {
      KeptDrops(calls, n - 1, k, b);
      AliveAfterGivingUp(calls, n - 1, k, b);
    }
  }

  lemma {:induction false} ScopesBegin<W>(calls: seq<Call<W>>, k: nat)
    requires k <= |calls|
    ensures forall i | 0 <= i < |Scopes(calls, k)| :: Scopes(calls, k)[i] < k && BeginAt(calls, Scopes(calls, k)[i])
    ensures Ascends(Scopes(calls, k))
  {
    if k > 0 { ScopesBegin(calls, k - 1); }
  }

  lemma {:induction false} BeginIsLastNext<W>(calls: seq<Call<W>>, k: nat)
    requires k < |calls|
    ensures BeginIsLast(calls, k + 1) <==>
              BeginAt(calls, k) || (!RollbackAt(calls, k) && BeginIsLast(calls, k))
  {
    if !BeginAt(calls, k) && BeginIsLast(calls, k + 1) {
      var b: nat :| b < k + 1 && BeginAt(calls, b) && forall r | b < r < k + 1 :: !RollbackAt(calls, r);
      assert b < k;
    }
  }

  /** A call does not touch what was kept before the scope that it may end. */
  lemma KeptBefore<W>(calls: seq<Call<W>>, n: nat, k: nat)
    requires n <= k < |calls|
    requires Closes(calls, k) ==> n <= Scopes(calls, k)[|Scopes(calls, k)| - 1]
    ensures Kept(calls, n, k + 1) == Kept(calls, n, k)
  {
    if !Closes(calls, k) || (calls[k].op.Commit? && calls[k].nil) {
      KeptStays(calls, n, k);
    } else {
      ScopesBegin(calls, k);
      KeptDrops(calls, n, k, Scopes(calls, k)[|Scopes(calls, k)| - 1]);
    }
  }

  lemma EarlierMarkStays<W>(calls: seq<Call<W>>, k: nat, i: nat)
    requires k < |calls| && i < |Scopes(calls, k)|
    ensures Scopes(calls, k)[i] < k
    ensures Kept(calls, Scopes(calls, k)[i], k + 1) == Kept(calls, Scopes(calls, k)[i], k)
  {
    ScopesBegin(calls, k);
    var scopes := Scopes(calls, k);
    assert i < |scopes| - 1 ==> scopes[i] < scopes[|scopes| - 1];
    KeptBefore(calls, scopes[i], k);
  }

  /** Scopes that stay open after call k keep their marks. */
  lemma EarlierMarksStay<W>(start: seq<W>, calls: seq<Call<W>>, k: nat, n: nat)
    requires k < |calls| && n <= |Scopes(calls, k)| && n <= |Scopes(calls, k + 1)|
    requires Scopes(calls, k + 1)[..n] == Scopes(calls, k)[..n]
    ensures Marks(start, calls, k + 1)[..n] == Marks(start, calls, k)[..n]
  {
    var scopes, scopes' := Scopes(calls, k), Scopes(calls, k + 1);
    forall i | 0 <= i < n ensures Marks(start, calls, k + 1)[i] == Marks(start, calls, k)[i] {
      assert scopes'[..n][i] == scopes[..n][i];
      EarlierMarkStays(calls, k, i);
    }
  }

  /** What call k does to everything kept so far. */
  lemma KeptNext<W>(calls: seq<Call<W>>, k: nat)
    requires k < |calls|
    ensures var scopes := Scopes(calls, k);
            var now := Kept(calls, k, k);
            && (forall i | 0 <= i < |scopes| :: scopes[i] < k)
            && Kept(calls, k + 1, k + 1) ==
                 if Closes(calls, k) && !(calls[k].op.Commit? && calls[k].nil) then Kept(calls, scopes[|scopes| - 1], k)
                 else if calls[k].op.Write? && calls[k].nil then now + [calls[k].op.row]
                 else now
  {
    ScopesBegin(calls, k);
    var scopes := Scopes(calls, k);
    assert Alive(calls, k, k + 1);
    if !Closes(calls, k) || (calls[k].op.Commit? && calls[k].nil) {
      KeptStays(calls, k, k);
    } else {
      KeptDrops(calls, k, k, scopes[|scopes| - 1]);
    }
  }

  lemma MarksAfterBegin<W>(start: seq<W>, calls: seq<Call<W>>, k: nat)
    requires k < |calls| && BeginAt(calls, k)
    ensures Marks(start, calls, k + 1) == Marks(start, calls, k) + [start + Kept(calls, k, k)]
  {
    var n := |Scopes(calls, k)|;
    KeptStays(calls, k, k);
    EarlierMarksStay(start, calls, k, n);
    assert Marks(start, calls, k + 1) == Marks(start, calls, k + 1)[..n] + [Marks(start, calls, k + 1)[n]];
  }

  lemma MarksAfterClose<W>(start: seq<W>, calls: seq<Call<W>>, k: nat)
    requires k < |calls| && Closes(calls, k)
    ensures Marks(start, calls, k + 1) == Marks(start, calls, k)[..|Marks(start, calls, k)| - 1]
  {
    EarlierMarksStay(start, calls, k, |Scopes(calls, k)| - 1);
  }

  lemma MarksAfterOthers<W>(start: seq<W>, calls: seq<Call<W>>, k: nat)
    requires k < |calls| && !BeginAt(calls, k) && !Closes(calls, k)
    ensures Marks(start, calls, k + 1) == Marks(start, calls, k)
  {
    EarlierMarksStay(start, calls, k, |Scopes(calls, k)|);
  }

  /** The calls promise what nested scopes on data alone give. */
  lemma PromiseNext<W>(start: seq<W>, calls: seq<Call<W>>, k: nat)
    requires k < |calls|
    ensures Promise(start, calls, k + 1) == NextNest(Promise(start, calls, k), calls[k].op, calls[k].nil)
  {
    KeptNext(calls, k);
    if BeginAt(calls, k) {
      MarksAfterBegin(start, calls, k);
    } else if Closes(calls, k) {
      MarksAfterClose(start, calls, k);
    } else {
      MarksAfterOthers(start, calls, k);
    }
  }

  /** The manager and the database take the same step as nested scopes on data alone. */
  lemma HoldsNext<W>(w: World<W>, op: Op<W>, nest: Nest<W>)
    requires FieldsOk(w) && Holds(w, nest.marks, nest.now)
    ensures var s, next := Step(w, op), NextNest(nest, op, Step(w, op).nil);
            FieldsOk(s.world) && Holds(s.world, next.marks, next.now)
  {
    FieldsStayOk(w, op);
    var s, marks := Step(w, op), nest.marks;
    if op.Begin? && s.nil { BeginPushes(w, op, marks, nest.now); }
    else if (op.Commit? || op.Rollback?) && marks != [] { ClosePops(w, op, marks, nest.now); }
    else {
      forall i | 1 <= i < |marks| ensures MarkIsSaved(s.world, marks, i) {
        assert MarkIsSaved(w, marks, i);
      }
    }
  }

  /** The aborted flag says that the last successful Begin or Rollback was a Rollback. */
  lemma FlagNext<W>(w: World<W>, op: Op<W>, marks: seq<seq<W>>, now: seq<W>)
    requires FieldsOk(w) && Holds(w, marks, now) && Step(w, op).world.ctx.Some?
    ensures var s := Step(w, op);
            var was := w.ctx.Some? && w.ctx.value.aborted;
            s.world.ctx.value.aborted ==
              if op.Begin? && s.nil then false else if op.Rollback? && s.nil then true else was
  {
    if marks != [] && !op.Begin? && !op.Write? { ClosingWorks(w, op.Commit?, marks, now); }
  }

  lemma InvNext<W>(start: seq<W>, calls: seq<Call<W>>, k: nat)
    requires 0 < k <= |calls| && Inv(start, calls, k - 1) && Honest(start, calls, k - 1)
    ensures Inv(start, calls, k)
  {
    var w, op := After(start, calls, k - 1), calls[k - 1].op;
    var nest := Promise(start, calls, k - 1);
    HoldsNext(w, op, nest);
    PromiseNext(start, calls, k - 1);
    BeginIsLastNext(calls, k - 1);
    if After(start, calls, k).ctx.Some? { FlagNext(w, op, nest.marks, nest.now); }
  }

  lemma {:induction false} InvHolds<W>(start: seq<W>, calls: seq<Call<W>>, k: nat)
    requires k <= |calls| && Run(start, calls)
    ensures Inv(start, calls, k)
  {
    if k > 0 {
      InvHolds(start, calls, k - 1);
      InvNext(start, calls, k);
    }
  }

  // ---------------------------------------------------------------- theorems

  /**
   Whatever the nesting: once no scope is open, the committed data is the starting data followed, in
   order, by exactly the writes all of whose enclosing scopes were closed by a Commit returning nil.
   While a scope is open, nothing written in the transaction is visible outside.
   */
  lemma CommittedExactly<W>(start: seq<W>, calls: seq<Call<W>>, k: nat)
    requires k <= |calls| && Run(start, calls)
    ensures var scopes := Scopes(calls, k);
            && (forall i | 0 <= i < |scopes| :: scopes[i] < k)
            && After(start, calls, k).db.committed ==
                 start + Kept(calls, if scopes == [] then k else scopes[0], k)
  {
    InvHolds(start, calls, k);
    ScopesBegin(calls, k);
    if Scopes(calls, k) != [] {
      assert Marks(start, calls, k)[0] == After(start, calls, k).db.committed;
    }
  }

  lemma ClosingOutcome<W>(w: World<W>, op: Op<W>, marks: seq<seq<W>>, now: seq<W>)
    requires FieldsOk(w) && Holds(w, marks, now)
    ensures op.Commit? ==> Step(w, op).nil == (marks != [] && !w.ctx.value.aborted)
    ensures op.Rollback? ==> Step(w, op).nil == (marks != [])
  {
    if marks != [] && (op.Commit? || op.Rollback?) { ClosePops(w, op, marks, now); }
  }

  /** When a closing call returns nil, told from the calls before it. */
  lemma ClosingReturnsNilIff<W>(start: seq<W>, calls: seq<Call<W>>, c: nat)
    requires c < |calls| && Run(start, calls)
    ensures calls[c].op.Commit? ==>
              (calls[c].nil <==> Scopes(calls, c) != [] && BeginIsLast(calls, c))
    ensures calls[c].op.Rollback? ==> (calls[c].nil <==> Scopes(calls, c) != [])
  {
    InvHolds(start, calls, c);
    assert Honest(start, calls, c);
    ClosingOutcome(After(start, calls, c), calls[c].op, Marks(start, calls, c), start + Kept(calls, c, c));
  }

  /**
   The statement that ends a nested scope names a live savepoint that holds the data as of the
   scope's Begin, and the savepoints of all other open scopes survive it unchanged.
   */
  lemma StatementsAreSafe<W>(start: seq<W>, calls: seq<Call<W>>, k: nat)
    requires k < |calls| && Run(start, calls) && Closes(calls, k) && |Scopes(calls, k)| > 1
    ensures var w, w' := After(start, calls, k), After(start, calls, k + 1);
            var scopes := Scopes(calls, k);
            var top := |scopes| - 1;
            && (forall i | 0 <= i < |scopes| :: scopes[i] < k)
            && w.ctx.Some? && w.ctx.value.depth == |scopes| == |w.ctx.value.parentSp|
            && (var found := Find(w.db.savepoints, w.ctx.value.parentSp[top]);
                0 <= found && w.db.savepoints[found].data == start + Kept(calls, scopes[top], k))
            && forall i | 1 <= i < top ::
                 Savepoint(w.ctx.value.parentSp[i], start + Kept(calls, scopes[i], k)) in w'.db.savepoints
  {
    InvHolds(start, calls, k);
    ScopesBegin(calls, k);
    var w, marks, now := After(start, calls, k), Marks(start, calls, k), start + Kept(calls, k, k);
    var top := |marks| - 1;
    ClosingWorks(w, calls[k].op.Commit?, marks, now);
    HoldsNext(w, calls[k].op, Nest(marks, now));
    OlderMarksStay(w, After(start, calls, k + 1), marks, marks[..top]);
  }

  lemma OlderMarksStay<W>(w: World<W>, w': World<W>, marks: seq<seq<W>>, older: seq<seq<W>>)
    requires marks != [] && older == marks[..|marks| - 1]
    requires w.ctx.Some? && w'.ctx.Some? && |w.ctx.value.parentSp| == |marks|
    requires w'.ctx.value.parentSp == w.ctx.value.parentSp[..|older|]
    requires forall i | 1 <= i < |older| :: MarkIsSaved(w', older, i)
    ensures forall i | 1 <= i < |older| :: Savepoint(w.ctx.value.parentSp[i], marks[i]) in w'.db.savepoints
  {
    forall i | 1 <= i < |older| ensures Savepoint(w.ctx.value.parentSp[i], marks[i]) in w'.db.savepoints {
      assert MarkIsSaved(w', older, i);
    }
  }

  /** The numbers of the open scopes ascend, one per scope, and stay below the sequence counter. */
  lemma OpenNumbersAscend<W>(start: seq<W>, calls: seq<Call<W>>, k: nat)
    requires k <= |calls| && Run(start, calls)
    ensures var w := After(start, calls, k);
            w.ctx.Some? ==>
              && w.ctx.value.depth == |w.ctx.value.parentSp| == |Scopes(calls, k)|
              && Ascends(w.ctx.value.parentSp)
              && (forall i | 0 <= i < |w.ctx.value.parentSp| :: w.ctx.value.parentSp[i] <= w.ctx.value.nextSpSeq)
  {
    InvHolds(start, calls, k);
  }

  /** The number that a successful Begin takes. */
  ghost function NumberOf<W>(start: seq<W>, calls: seq<Call<W>>, b: nat): int
    requires b < |calls| && Run(start, calls) && BeginAt(calls, b)
  {
    assert Honest(start, calls, b);
    After(start, calls, b + 1).ctx.value.nextSpSeq
  }

  lemma NumbersGrow<W>(w: World<W>, op: Op<W>)
    requires w.ctx.Some? && Sane(w.ctx.value)
    ensures var s := Step(w, op);
            && s.world.ctx.Some?
            && w.ctx.value.nextSpSeq <= s.world.ctx.value.nextSpSeq
            && (op.Begin? && s.nil ==> w.ctx.value.nextSpSeq < s.world.ctx.value.nextSpSeq)
  {
  }

  lemma {:induction false} CounterGrows<W>(start: seq<W>, calls: seq<Call<W>>, i: nat, j: nat)
    requires i <= j <= |calls| && After(start, calls, i).ctx.Some?
    ensures After(start, calls, j).ctx.Some?
    ensures After(start, calls, i).ctx.value.nextSpSeq <= After(start, calls, j).ctx.value.nextSpSeq
  {
    if i < j {
      CounterGrows(start, calls, i, j - 1);
      NumbersGrow(After(start, calls, j - 1), calls[j - 1].op);
    }
  }

  /** No savepoint name is used twice in a transaction, failed Begins in between or not. */
  lemma NumbersNeverReused<W>(start: seq<W>, calls: seq<Call<W>>, b: nat, c: nat)
    requires b < c < |calls| && Run(start, calls) && BeginAt(calls, b) && BeginAt(calls, c)
    ensures NumberOf(start, calls, b) < NumberOf(start, calls, c)
  {
    assert Honest(start, calls, b) && Honest(start, calls, c);
    CounterGrows(start, calls, b + 1, c);
    NumbersGrow(After(start, calls, c), calls[c].op);
  }

  /**
   The documentation says that an inner rollback aborts the outer transaction. It does not when
   another nested Begin follows it: here the outer Commit returns nil and the data is committed.
   */
  lemma InnerRollbackMayBeForgotten<W>(row: W)
    ensures var calls := ForgottenRollback(row);
            Run([], calls) && After([], calls, 7).db.committed == [row]
  {
    var calls := ForgottenRollback(row);
    UpToTheRollback(row);
    FromTheRollback(row);
    assert forall k | 0 <= k < |calls| :: Honest([], calls, k) by {
      forall k | 0 <= k < |calls| ensures Honest([], calls, k) {
        assert k == 0 || k == 1 || k == 2 || k == 3 || k == 4 || k == 5 || k == 6;
      }
    }
  }

  function ForgottenRollback<W>(row: W): seq<Call<W>> {
    [Call(Begin(false), true), Call(Write(row), true),
     Call(Begin(false), true), Call(Rollback, true),
     Call(Begin(false), true), Call(Commit, true), Call(Commit, true)]
  }

  function RolledBackWorld<W>(row: W): World<W> {
    World(Session([], [row], [Savepoint(2, [row])], true), Some(Tx(1, true, 2, [1])))
  }

  lemma UpToTheRollback<W>(row: W)
    ensures var calls := ForgottenRollback(row);
            && Honest([], calls, 0) && Honest([], calls, 1) && Honest([], calls, 2) && Honest([], calls, 3)
            && After([], calls, 4) == RolledBackWorld(row)
  {
    var calls, sp2 := ForgottenRollback(row), Savepoint(2, [row]);
    var w0: World<W> := World(Session([], [], [], false), None);
    var w1 := World(Session([], [], [], true), Some(Tx(1, false, 1, [1])));
    var w2 := World(Session([], [row], [], true), Some(Tx(1, false, 1, [1])));
    var w3 := World(Session([], [row], [sp2], true), Some(Tx(2, false, 2, [1, 2])));
    CallGoes(calls, 0, w0, w1);
    assert [] + [row] == [row];
    CallGoes(calls, 1, w1, w2);
    assert [] + [sp2] == [sp2] && [1] + [2] == [1, 2];
    CallGoes(calls, 2, w2, w3);
    assert [sp2][..1] == [sp2] && [1, 2][..1] == [1];
    CallGoes(calls, 3, w3, RolledBackWorld(row));
  }

  lemma FromTheRollback<W>(row: W)
    requires After([], ForgottenRollback(row), 4) == RolledBackWorld(row)
    ensures var calls := ForgottenRollback(row);
            && Honest([], calls, 4) && Honest([], calls, 5) && Honest([], calls, 6)
            && After([], calls, 7).db.committed == [row]
  {
    var calls, sp2, sp3 := ForgottenRollback(row), Savepoint(2, [row]), Savepoint(3, [row]);
    var w5 := World(Session([], [row], [sp2, sp3], true), Some(Tx(2, false, 3, [1, 3])));
    var w6 := World(Session([], [row], [sp2], true), Some(Tx(1, false, 3, [1])));
    var w7 := World(Session([row], [row], [], false), Some(Tx(0, false, 3, [])));
    assert [sp2] + [sp3] == [sp2, sp3] && [1] + [3] == [1, 3];
    CallGoes(calls, 4, RolledBackWorld(row), w5);
    assert [sp2, sp3][..1] == [sp2] && [1, 3][..1] == [1];
    CallGoes(calls, 5, w5, w6);
    CallGoes(calls, 6, w6, w7);
  }

  lemma CallGoes<W>(calls: seq<Call<W>>, k: nat, w: World<W>, w': World<W>)
    requires k < |calls| && After([], calls, k) == w && (w.ctx.Some? ==> Sane(w.ctx.value))
    requires Step(w, calls[k].op) == Outcome(w', calls[k].nil)
    ensures Honest([], calls, k) && After([], calls, k + 1) == w'
  {
  }

  // ---------------------------------------------------------------- the manager's methods

  /** txState: what a context carries. */
  class TxState<W> {
    const tx: Database<W>
    var depth: int
    var aborted: bool
    var nextSpSeq: int
    var parentSp: seq<int>

    constructor (tx: Database<W>)
      ensures this.tx == tx && View() == Tx(1, false, 1, [1])
    {
      this.tx := tx;
      depth, aborted, nextSpSeq, parentSp := 1, false, 1, [1];
    }

    ghost function View(): Tx
      reads this
    {
      Tx(depth, aborted, nextSpSeq, parentSp)
    }
  }

  ghost function ViewOf<W>(ctx: TxState?<W>): Option<Tx>
    reads ctx
  {
    if ctx == null then None else Some(ctx.View())
  }

  class PgTransactionManager<W> {
    const db: Database<W>

    constructor (db: Database<W>)
      ensures this.db == db
    {
      this.db := db;
    }

    /** What the manager knows of a context: its transaction runs on this database. */
    ghost predicate Owns(ctx: TxState?<W>)
      reads ctx
    {
      ctx != null ==> ctx.tx == db && Sane(ctx.View())
    }

    ghost function WorldOf(ctx: TxState?<W>): World<W>
      reads db, ctx
    {
      World(db.session, ViewOf(ctx))
    }

    /** `newCtx` is the context to go on with; when Begin fails, nothing has changed. */
    method Begin(ctx: TxState?<W>, refused: bool) returns (newCtx: TxState?<W>, nil: bool)
      requires Owns(ctx)
      modifies db, ctx
      ensures nil == Step(old(WorldOf(ctx)), Op.Begin(refused)).nil
      ensures nil ==> newCtx != null && Owns(newCtx) && (newCtx == ctx || (ctx == null && fresh(newCtx)))
      ensures !nil ==> newCtx == null && WorldOf(ctx) == old(WorldOf(ctx))
      ensures WorldOf(if nil then newCtx else ctx) == Step(old(WorldOf(ctx)), Op.Begin(refused)).world
    {
      if ctx != null {
        ctx.depth := ctx.depth + 1;
        ctx.nextSpSeq := ctx.nextSpSeq + 1;
        var spSeq := ctx.nextSpSeq;
        ctx.parentSp := ctx.parentSp + [spSeq];
        nil := false;
        if !refused { nil := ctx.tx.Run(SetSavepoint(spSeq)); }
        if !nil {
          ctx.depth := ctx.depth - 1;
          ctx.nextSpSeq := ctx.nextSpSeq - 1;
          ctx.parentSp := ctx.parentSp[..|ctx.parentSp| - 1];
          return null, false;
        }
        ctx.aborted := false;
        return ctx, true;
      }
      if refused { return null, false; }
      db.session := db.session.(current := db.session.committed, savepoints := [], open := true);
      newCtx := new TxState(db);
      nil := true;
    }

    method Commit(ctx: TxState?<W>) returns (nil: bool)
      requires Owns(ctx)
      modifies db, ctx
      ensures Owns(ctx)
      ensures Outcome(WorldOf(ctx), nil) == Step(old(WorldOf(ctx)), Op.Commit)
    {
      if ctx == null || ctx.depth <= 0 { return false; }
      var spSeq := ctx.parentSp[|ctx.parentSp| - 1];
      ctx.parentSp := ctx.parentSp[..|ctx.parentSp| - 1];
      ctx.depth := ctx.depth - 1;
      if ctx.depth > 0 {
        if ctx.aborted {
          var _ := ctx.tx.Run(RollbackTo(spSeq));
          return false;
        }
        nil := ctx.tx.Run(Release(spSeq));
        return;
      }
      if ctx.aborted {
        var _ := ctx.tx.Run(RollbackTx);
        return false;
      }
      nil := ctx.tx.Run(CommitTx);
    }

    method Rollback(ctx: TxState?<W>) returns (nil: bool)
      requires Owns(ctx)
      modifies db, ctx
      ensures Owns(ctx)
      ensures Outcome(WorldOf(ctx), nil) == Step(old(WorldOf(ctx)), Op.Rollback)
    {
      if ctx == null || ctx.depth <= 0 { return false; }
      ctx.aborted := true;
      var spSeq := ctx.parentSp[|ctx.parentSp| - 1];
      ctx.parentSp := ctx.parentSp[..|ctx.parentSp| - 1];
      ctx.depth := ctx.depth - 1;
      if ctx.depth > 0 {
        nil := ctx.tx.Run(RollbackTo(spSeq));
        return;
      }
      nil := ctx.tx.Run(RollbackTx);
    }
  }
}
