/**
 The part of PostgreSQL that the transaction manager relies on: one connection whose data is the
 log of rows written to it, the stack of named savepoints, and the SQL statements of pg/transaction.go.
 */
module Postgres {
  import opened Wrappers

  /** A savepoint remembers the data as it was when it was set. The name stands for "sp_<name>". */
  datatype Savepoint<W> = Savepoint(name: int, data: seq<W>)

  /** `current` is what the open transaction sees; `committed` is what everybody else sees. */
  datatype Session<W> = Session(
    committed: seq<W>, current: seq<W>, savepoints: seq<Savepoint<W>>, open: bool)

  datatype Statement<W> =
    | SetSavepoint(name: int)
    | RollbackTo(name: int)
    | Release(name: int)
    | Insert(row: W)
    | CommitTx
    | RollbackTx

  /** Index of the most recent savepoint of that name, -1 when there is none. */
  function Find<W>(savepoints: seq<Savepoint<W>>, name: int): (i: int)
    ensures -1 <= i < |savepoints|
    ensures i >= 0 ==> savepoints[i].name == name
    ensures forall j | i < j < |savepoints| :: savepoints[j].name != name
  {
    var n := |savepoints|;
    if n == 0 then -1
    else if savepoints[n - 1].name == name then n - 1
    else Find(savepoints[..n - 1], name)
  }

  /** A statement on the open transaction; None is an SQL error, which changes nothing. */
  function Exec<W>(db: Session<W>, stmt: Statement<W>): Option<Session<W>> {
    if !db.open then None
    else match stmt
      case SetSavepoint(name) =>
        Some(db.(savepoints := db.savepoints + [Savepoint(name, db.current)]))
      case RollbackTo(name) =>
        var i := Find(db.savepoints, name);
        if i < 0 then None
        else Some(db.(current := db.savepoints[i].data, savepoints := db.savepoints[..i + 1]))
      case Release(name) =>
        var i := Find(db.savepoints, name);
        if i < 0 then None
        else Some(db.(savepoints := db.savepoints[..i]))
      case Insert(row) =>
        Some(db.(current := db.current + [row]))
      case CommitTx =>
        Some(Session(db.current, db.current, [], false))
      case RollbackTx =>
        Some(Session(db.committed, db.committed, [], false))
  }

  /** Names grow along the stack, so no name occurs twice. */
  ghost predicate NamesAscend<W>(savepoints: seq<Savepoint<W>>) {
    forall i, j | 0 <= i < j < |savepoints| :: savepoints[i].name < savepoints[j].name
  }

  /** Cutting the stack at a savepoint spares every savepoint with a smaller name. */
  lemma OlderSavepointsStay<W>(savepoints: seq<Savepoint<W>>, kept: Savepoint<W>, name: int)
    requires NamesAscend(savepoints) && kept in savepoints && kept.name < name
    requires Find(savepoints, name) >= 0
    ensures kept in savepoints[..Find(savepoints, name)]
  {
    var i :| 0 <= i < |savepoints| && savepoints[i] == kept;
    assert savepoints[..Find(savepoints, name)][i] == kept;
  }

  lemma FindsMember<W>(savepoints: seq<Savepoint<W>>, sp: Savepoint<W>)
    requires NamesAscend(savepoints) && sp in savepoints
    ensures Find(savepoints, sp.name) >= 0
    ensures savepoints[Find(savepoints, sp.name)] == sp
  {
    var i :| 0 <= i < |savepoints| && savepoints[i] == sp;
  }

  /** ROLLBACK TO keeps its savepoint, so it can be repeated after further work, with the same effect. */
  lemma RollbackToCanBeRepeated<W>(db: Session<W>, name: int, row: W)
    requires db.open && Find(db.savepoints, name) >= 0
    ensures var once := Exec(db, RollbackTo(name));
            && once.Some?
            && Exec(once.value, Insert(row)).Some?
            && Exec(Exec(once.value, Insert(row)).value, RollbackTo(name)) == once
  {
    var i := Find(db.savepoints, name);
    var kept := db.savepoints[..i + 1];
    assert kept[|kept| - 1].name == name;
    assert kept[..|kept| - 1 + 1] == kept;
  }

  /** RELEASE keeps the data and forgets its savepoint and all later ones. */
  lemma ReleaseForgets<W>(db: Session<W>, name: int)
    requires db.open && Find(db.savepoints, name) >= 0 && NamesAscend(db.savepoints)
    ensures var after := Exec(db, Release(name));
            && after.Some? && after.value.current == db.current && after.value.committed == db.committed
            && forall sp :: sp in after.value.savepoints <==> sp in db.savepoints && sp.name < name
  {
    var i := Find(db.savepoints, name);
    forall sp | sp in db.savepoints && sp.name < name ensures sp in db.savepoints[..i] {
      var j :| 0 <= j < |db.savepoints| && db.savepoints[j] == sp;
      assert db.savepoints[..i][j] == sp;
    }
  }

  /** The connection as the object that the manager's statements run on. */
  class Database<W> {
    var session: Session<W>

    constructor (start: seq<W>)
      ensures session == Session(start, start, [], false)
    {
      session := Session(start, start, [], false);
    }

    method Run(stmt: Statement<W>) returns (nil: bool)
      modifies this
      ensures nil == Exec(old(session), stmt).Some?
      ensures nil ==> session == Exec(old(session), stmt).value
      ensures !nil ==> session == old(session)
    {
      var next := Exec(session, stmt);
      match next {
        case None => nil := false;
        case Some(after) => session := after; nil := true;
      }
    }
  }
}
