/** Whole programs: any sequence of calls to the SQLite binding. */
module SqlitePrograms {
  import opened LuaValues
  import opened RefTables
  import opened SqliteEngine
  import opened SqliteObjects
  import opened StatementOwnership
  import opened SqliteStatements
  import opened SqliteReferences
  import opened ReferenceOwnership
  import opened Sqlite

  /** A call on the databases and statements the program holds, by their positions; Open takes none. */
  datatype Command =
    | OpenDb
    | OnDb(i: nat, call: DbCall)
    | OnVm(j: nat, use: VmUse)

  datatype DbCall =
    | CloseDb
    | PrepareSql(sql: string, temp: bool)
    | CloseAll(temp: bool)
    | SetHook(h: Hook, fn: Value, udata: Value)
    | SetProgressHook(opcodes: Value, fn: Value, udata: Value)
    | SetTimeout(timeout: Value)
    | AddFunction(aggregate: bool, fn: Value, fin: Value, udata: Value, code: int)   // and SQLite's answer

  datatype VmUse = TakeRow | TakeStep | FinalizeIt

  /** What a program holds: every database it has opened, every statement it has prepared, closed or not. */
  class Program {
    const l: Lsqlite
    var dbs: seq<Sdb>
    var vms: seq<SdbVm>

    ghost function Footprint(): set<object>
      reads l.statements
    {
      {l, l.statements, l.statements.engine, l.references, l.references.registry} + l.statements.vms + l.statements.dbs
    }

    ghost predicate Valid()
      reads this, l, l.statements, l.statements.engine, l.statements.dbs, l.statements.vms
      reads l.references, l.references.registry, l.references.snap.Keys
    {
      && l.Valid()
      && (forall i :: 0 <= i < |dbs| ==> dbs[i] in l.statements.dbs)
      && (forall j :: 0 <= j < |vms| ==> vms[j] in l.statements.vms)
    }

    constructor (l: Lsqlite)
      requires l.Valid()
      ensures Valid() && this.l == l && dbs == [] && vms == []
    {
      this.l, dbs, vms := l, [], [];
    }

    method Open()
      requires Valid() && this !in Footprint()
      modifies this, Footprint()
      ensures Valid() && fresh(Footprint() - old(Footprint()))
    {
      hide Lsqlite.Valid, Opened;
      var db, code := l.Open();
      dbs := dbs + [db];
    }

    method CallDb(db: Sdb, c: DbCall)
      requires Valid() && db in l.statements.dbs && this !in Footprint()
      modifies this, Footprint()
      ensures Valid() && fresh(Footprint() - old(Footprint()))
    {
      hide Lsqlite.Valid, CleanedUp, Closed, Put, PutFunc, WithoutDb, Adds, AddsNothing, Empties;
      match c
      case CloseDb =>
        var wasOpen, result := l.Close(db);
      case PrepareSql(sql, temp) =>
        var r := l.Prepare(db, sql, temp);
        if r.Prepared? {
          vms := vms + [r.svm];
        }
      case CloseAll(temp) =>
        if db.conn != 0 {
          l.IsTracked(db);
          l.CloseVms(db, temp);
        }
      case SetHook(h, fn, udata) =>
        if h != Progress {
          var r := l.SetCallback(db, h, fn, udata);
        }
      case SetProgressHook(opcodes, fn, udata) =>
        var r := l.SetProgress(db, opcodes, fn, udata);
      case SetTimeout(timeout) =>
        var r := l.BusyTimeout(db, timeout);
      case AddFunction(aggregate, fn, fin, udata, code) =>
        var r := l.CreateFunction(db, aggregate, fn, fin, udata, code);
    }

    method UseVm(svm: SdbVm, use: VmUse)
      requires Valid() && svm in l.statements.vms && this !in Footprint()
      modifies this, Footprint()
      ensures Valid() && fresh(Footprint() - old(Footprint()))
    {
      hide Lsqlite.Valid, GoesOn, Drops;
      match use
      case TakeRow =>
        var r := l.NextRow(svm);
      case TakeStep =>
        var wasOpen, result := l.Step(svm);
      case FinalizeIt =>
        var wasOpen, code := l.Finalize(svm);
    }

    /** A call on something the program does not hold is an argument error and does nothing. */
    method Perform(c: Command)
      requires Valid() && this !in Footprint()
      modifies this, Footprint()
      ensures Valid() && fresh(Footprint() - old(Footprint()))
    {
      hide Lsqlite.Valid;
      match c
      case OpenDb => Open();
      case OnDb(i, call) =>
        if i < |dbs| {
          CallDb(dbs[i], call);
        }
      case OnVm(j, use) =>
        if j < |vms| {
          UseVm(vms[j], use);
        }
    }
  }

  /**
   * Every program, whatever calls it makes in whatever order and whatever SQLite answers, keeps both kinds of
   * ownership: each handle ever prepared is live with one owner or was finalized once, and each callback of an
   * open database resolves to the latest value installed.
   */
  method RunProgram(engine: Engine, registry: RefTable, numeric: string -> bool, commands: seq<Command>)
    returns (p: Program)
    requires engine.Valid() && engine.stmts == map[] && registry.Valid()
    modifies engine, registry
    ensures p.Valid() && p.l.statements.engine == engine && p.l.references.registry == registry
    ensures forall s :: 1 <= s < engine.nextStmt ==>
      if s in engine.finalized then s !in engine.stmts else s in engine.stmts && p.l.statements.HasOneOwner(s)
    ensures forall i, j :: 0 <= i < j < |engine.finalized| ==> engine.finalized[i] != engine.finalized[j]
    ensures forall db, h :: db in p.l.statements.tables ==> p.l.CallbackShows(db, h)
  {
    hide Lsqlite.Valid;
    var l := new Lsqlite(engine, registry, numeric);
    p := new Program(l);
    for k := 0 to |commands|
      invariant p.l == l && p.Valid() && p !in p.Footprint()
      invariant l.statements.engine == engine && l.references.registry == registry
      invariant fresh(p) && fresh(p.Footprint() - {engine, registry})
    {
      p.Perform(commands[k]);
    }
    forall s | 1 <= s < engine.nextStmt
      ensures if s in engine.finalized then s !in engine.stmts else s in engine.stmts && l.statements.HasOneOwner(s)
    {
      l.EveryHandle(s);
    }
    l.FinalizedOnce();
    forall db, h | db in l.statements.tables ensures l.CallbackShows(db, h) {
      l.EveryCallback(db, h);
    }
  }
}
