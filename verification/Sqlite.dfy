/** The Lua-visible operations of lsqlite3.c on both kinds of ownership together. */
module Sqlite {
  import opened LuaValues
  import opened RefTables
  import opened SqliteEngine
  import opened SqliteObjects
  import opened StatementOwnership
  import opened SqliteAnswers
  import opened SqliteStatements
  import opened SqliteReferences
  import opened ReferenceOwnership

  class Lsqlite {
    const statements: Statements
    const references: References
    ghost var shows: Values   // what the program last put into each callback and function field

    /**
     * The databases with tracked statements are those whose references are in use, and each of their fields
     * resolves to the latest value put there. Every operation below keeps this, so it holds in every run.
     */
    ghost predicate Valid()
      reads `shows, statements, statements.dbs`conn, statements.vms`vm, statements.engine`conns
      reads statements.engine`nextConn, statements.engine`stmts, statements.engine`nextStmt
      reads statements.engine`finalized
      reads references, references.registry, references.snap.Keys`callbacks, references.snap.Keys`func
    {
      && statements.Valid() && references.Valid() && references.snap.Keys == statements.tables.Keys
      && Shows(references.registry.Live(), references.snap, shows)
    }

    constructor (engine: Engine, registry: RefTable, numeric: string -> bool)
      requires engine.Valid() && engine.stmts == map[] && registry.Valid()
      ensures Valid() && statements.engine == engine && references.registry == registry
      ensures statements.tables == map[] && references.snap == map[] && shows == map[]
      ensures fresh(statements) && fresh(references) && statements.vms == {} && statements.dbs == {}
    {
      statements := new Statements(engine);
      references := new References(registry, numeric);
      shows := map[];
    }

    // ---- What holds at any time ---------------------------------------------------------------

    /** A handle ever prepared is either live and owned by exactly one tracked userdata, or was finalized once. */
    lemma EveryHandle(s: int)
      requires Valid() && 1 <= s < statements.engine.nextStmt
      ensures s in statements.engine.stmts <==> s !in statements.engine.finalized
      ensures s in statements.engine.stmts ==> statements.HasOneOwner(s)
      ensures forall i, j :: 0 <= i < j < |statements.engine.finalized| ==>
        statements.engine.finalized[i] != statements.engine.finalized[j]
    {
      hide References.Valid, Shows;
      if s in statements.engine.stmts {
        statements.Owner(s);
      }
    }

    lemma FinalizedOnce()
      requires Valid()
      ensures forall i, j :: 0 <= i < j < |statements.engine.finalized| ==>
        statements.engine.finalized[i] != statements.engine.finalized[j]
    {
      hide References.Valid, Shows;
    }

    /** A callback of db stands for the latest value installed, or for nil. */
    ghost predicate CallbackShows(db: Sdb, h: Hook)
      reads `shows, db`callbacks, references.registry
    {
      && h in db.callbacks
      && references.Resolve(db.callbacks[h].cb) == Said(shows, db, Cb(h))
      && references.Resolve(db.callbacks[h].udata) == Said(shows, db, Ud(h))
    }

    lemma EveryCallback(db: Sdb, h: Hook)
      requires Valid() && db in statements.tables
      ensures CallbackShows(db, h)
    {
      hide Statements.Valid, References.Sound;
      references.AllHooks(db, h);
      assert HasPlace(references.snap[db], Cb(h)) && RefAt(references.snap[db], Cb(h)) == db.callbacks[h].cb;
      assert HasPlace(references.snap[db], Ud(h)) && RefAt(references.snap[db], Ud(h)) == db.callbacks[h].udata;
    }

    lemma IsTracked(db: Sdb)
      requires Valid() && db in statements.dbs
      ensures db in statements.tables <==> db.conn != 0
    {
      hide References.Valid, Shows;
      statements.OpenDatabase(db);
    }

    // ---- Statements -----------------------------------------------------------------------------

    /** db:prepare and db:rows. */
    method Prepare(db: Sdb, sql: string, temp: bool) returns (r: PrepareResult)
      requires Valid() && db in statements.dbs
      modifies statements`tables, statements`vms, statements`owner
      modifies statements.engine`stmts, statements.engine`nextStmt, statements.engine`finalized, statements.engine`log
      ensures Valid() && old(statements.vms) <= statements.vms && fresh(statements.vms - old(statements.vms))
      ensures r == DatabaseClosed <==> db.conn == 0
      ensures r == DatabaseClosed ==> statements.engine.log == old(statements.engine.log)
      ensures r.Failed? ==>
        r.code != SQLITE_OK
        && statements.engine.log == old(statements.engine.log) + [PrepareCall(db.conn, sql, r.code, 0)]
      ensures r.Prepared? ==>
        statements.engine.log == old(statements.engine.log) + [PrepareCall(db.conn, sql, SQLITE_OK, r.svm.vm)]
      ensures !r.Prepared? ==> AddsNothing(old(statements.State()), statements.State())
      ensures r.Prepared? ==>
        && fresh(r.svm) && r.svm in statements.vms && r.svm.db == db && r.svm.temp == temp
        && (r.svm.vm == 0 <==> !statements.engine.compiles(sql))
        && Adds(old(statements.State()), statements.State(), db, r.svm, sql, db.conn)
    {
      hide Statements.Valid, References.Valid, Shows;
      r := statements.DbPrepare(db, sql, temp);
    }

    /** The iterator of db:rows and stmt:rows. */
    method NextRow(svm: SdbVm) returns (r: RowResult)
      requires Valid() && svm in statements.vms
      modifies svm, statements`tables, statements`owner
      modifies statements.engine`stmts, statements.engine`nextStmt, statements.engine`finalized, statements.engine`log
      ensures Valid() && svm.temp == old(svm.temp)
      ensures r == ClosedVm <==> old(svm.vm) == 0
      ensures r == ClosedVm ==> statements.State() == old(statements.State())
      ensures r == ClosedVm ==> statements.engine.log == old(statements.engine.log)
      ensures r != ClosedVm ==>
        && old(statements.engine.log) <= statements.engine.log
        && Fetches(statements.engine.log[|old(statements.engine.log)|..], old(svm.vm), svm.db.conn,
                   old(statements.Sql(svm)), svm.temp, r)
      ensures r.Row? ==> svm.hasValues && r.columns == svm.columns
      ensures r != ClosedVm && (r.Row? || !svm.temp) ==> GoesOn(old(statements.State()), statements.State(), svm)
      ensures r != ClosedVm && !r.Row? && svm.temp ==> Drops(old(statements.State()), statements.State(), svm)
    {
      hide Statements.Valid, References.Valid, Shows;
      r := statements.DoNextRow(svm);
    }

    /** stmt:step. */
    method Step(svm: SdbVm) returns (wasOpen: bool, result: int)
      requires Valid() && svm in statements.vms
      modifies svm, statements`owner
      modifies statements.engine`stmts, statements.engine`nextStmt, statements.engine`finalized, statements.engine`log
      ensures Valid() && svm.temp == old(svm.temp)
      ensures wasOpen <==> old(svm.vm) != 0
      ensures !wasOpen ==> statements.State() == old(statements.State())
      ensures !wasOpen ==> statements.engine.log == old(statements.engine.log)
      ensures wasOpen ==>
        && old(statements.engine.log) <= statements.engine.log
        && StepsAndCounts(statements.engine.log[|old(statements.engine.log)|..], old(svm.vm), svm.db.conn,
                          old(statements.Sql(svm)), result, svm.columns)
      ensures wasOpen ==>
        (svm.hasValues <==> result == SQLITE_ROW) && GoesOn(old(statements.State()), statements.State(), svm)
    {
      hide Statements.Valid, References.Valid, Shows, GoesOn;
      wasOpen, result := statements.VmStep(svm);
    }

    /** stmt:finalize, and the collector's finalizer. */
    method Finalize(svm: SdbVm) returns (wasOpen: bool, code: int)
      requires Valid() && svm in statements.vms
      modifies svm, statements`tables, statements`owner, statements.engine`stmts, statements.engine`finalized
      modifies statements.engine`log
      ensures Valid() && svm.vm == 0 && svm.temp == old(svm.temp)
      ensures wasOpen <==> old(svm.vm) != 0
      ensures if wasOpen then Drops(old(statements.State()), statements.State(), svm)
              else statements.State() == old(statements.State())
      ensures statements.engine.log ==
        old(statements.engine.log) + if wasOpen then [FinalizeCall(old(svm.vm), code)] else []
    {
      hide Statements.Valid, References.Valid, Shows;
      wasOpen, code := statements.VmClose(svm);
    }

    /** db:close_vm. */
    method CloseVms(db: Sdb, temp: bool)
      requires Valid() && db in statements.tables
      modifies statements.vms`vm, statements`owner, statements.engine`stmts, statements.engine`finalized
      modifies statements.engine`log
      ensures Valid() && Empties(old(statements.State()), statements.State(), statements.Chosen(db, temp))
      ensures forall svm :: svm in statements.vms ==>
        svm.vm == if svm in statements.tables[db] && (!temp || svm.temp) then 0 else old(svm.vm)
    {
      hide Statements.Valid, Statements.Chosen, References.Valid, Shows, Empties;
      statements.DbCloseVm(db, temp);
    }

    // ---- Callbacks and functions ----------------------------------------------------------------

    method SetCallback(db: Sdb, h: Hook, fn: Value, udata: Value) returns (r: SetResult)
      requires Valid() && db in statements.dbs && h != Progress
      modifies `shows, references.registry, references`owner, references`snap, db`callbacks
      ensures Valid() && (r == ClosedDatabase <==> db.conn == 0)
      ensures shows == if r == Done then Put(old(shows), db, h, fn == Nil, fn, udata) else old(shows)
      ensures r == Done ==>
        && h in db.callbacks && references.Resolve(db.callbacks[h].cb) == fn
        && references.Resolve(db.callbacks[h].udata) == if fn == Nil then Nil else udata
    {
      hide Statements.Valid, References.Valid, Shows, HookSet;
      references.IsOwned();
      ghost var was := references.State();
      statements.OpenDatabase(db);
      r := references.SetCallback(db, h, fn, udata);
      if r == Done {
        HookSetShows(was, references.State(), db, h, fn == Nil, fn, udata, shows);
        shows := Put(shows, db, h, fn == Nil, fn, udata);
      }
    }

    method SetProgress(db: Sdb, opcodes: Value, fn: Value, udata: Value) returns (r: SetResult)
      requires Valid() && db in statements.dbs
      modifies `shows, references.registry, references`owner, references`snap, db`callbacks
      ensures Valid() && (r == ClosedDatabase <==> db.conn == 0)
      ensures shows == if r == Done then Put(old(shows), db, Progress, opcodes == Nil, fn, udata) else old(shows)
    {
      hide Statements.Valid, References.Valid, Shows, HookSet;
      references.IsOwned();
      ghost var was := references.State();
      statements.OpenDatabase(db);
      r := references.SetProgress(db, opcodes, fn, udata);
      if r == Done {
        HookSetShows(was, references.State(), db, Progress, opcodes == Nil, fn, udata, shows);
        shows := Put(shows, db, Progress, opcodes == Nil, fn, udata);
      }
    }

    method BusyTimeout(db: Sdb, timeout: Value) returns (r: SetResult)
      requires Valid() && db in statements.dbs
      modifies `shows, references.registry, references`owner, references`snap, db`callbacks
      ensures Valid() && (r == ClosedDatabase <==> db.conn == 0)
      ensures shows == if r == Done then Put(old(shows), db, Busy, true, Nil, Nil) else old(shows)
    {
      hide Statements.Valid, References.Valid, Shows, HookSet;
      references.IsOwned();
      ghost var was := references.State();
      statements.OpenDatabase(db);
      r := references.BusyTimeout(db, timeout);
      if r == Done {
        HookSetShows(was, references.State(), db, Busy, true, Nil, Nil, shows);
        shows := Put(shows, db, Busy, true, Nil, Nil);
      }
    }

    method CreateFunction(db: Sdb, aggregate: bool, fn: Value, fin: Value, udata: Value, code: int)
      returns (r: SetResult)
      requires Valid() && db in statements.dbs
      modifies `shows, references.registry, references`owner, references`snap, db`func
      ensures Valid() && (r == ClosedDatabase <==> db.conn == 0)
      ensures r == Done <==> db.conn != 0 && fn.Function? && (aggregate ==> fin.Function?) && code == SQLITE_OK
      ensures r != Done ==> shows == old(shows)
      ensures r == Done ==> db in old(references.snap)
      ensures r == Done ==>
        shows == PutFunc(old(shows), db, |old(references.snap)[db].funcs|, fn, if aggregate then fin else Nil, udata)
    {
      hide Statements.Valid, References.Valid, Shows, FunctionAdded;
      references.IsOwned();
      ghost var was := references.State();
      statements.OpenDatabase(db);
      r := references.CreateFunction(db, aggregate, fn, fin, udata, code);
      if r == Done {
        FunctionAddedShows(was, references.State(), db, db.func.refs, aggregate, fn, fin, udata, shows);
        shows := PutFunc(shows, db, |was.snap[db].funcs|, fn, if aggregate then fin else Nil, udata);
      }
    }

    // ---- Opening and closing --------------------------------------------------------------------

    /**
     * cleanupdb: afterwards every statement of the database has been finalized and no other one has, the
     * connection is closed without complaint, and exactly the references of the database have been given back.
     */
    method CleanupDb(db: Sdb) returns (result: int)
      requires Valid() && db in statements.tables
      modifies `shows, statements`tables, statements`owner, statements.vms
      modifies statements.engine`stmts, statements.engine`finalized, statements.engine`conns, statements.engine`log
      modifies references`owner, references`snap, references.registry, db`conn, db`func
      ensures Valid() && result == SQLITE_OK && db.conn == 0 && db.func == null
      ensures old(statements.engine.log) < statements.engine.log
      ensures statements.engine.log[|statements.engine.log| - 1] == CloseCall(old(db.conn), result)
      ensures CleanedUp(old(statements.State()), statements.State(), db, old(db.conn))
      ensures references.State() == Closed(old(references.State()), db) && shows == WithoutDb(old(shows), db)
    {
      hide Statements.Valid, CleanedUp, References.Valid, Shows, WithoutDb, Closed, RefTable.Live;
      ghost var was, refs := statements.State(), references.State();
      OthersStillShow(db);
      result := Dismantle(db, was, refs);
      SameKeys(was, statements.State(), refs, db, old(db.conn));
      shows := WithoutDb(shows, db);
    }

    lemma OthersStillShow(db: Sdb)
      requires Valid()
      ensures var now := Closed(references.State(), db); Shows(now.live, now.snap, WithoutDb(shows, db))
    {
      hide Shows, Closed, WithoutDb, References.Valid;
      references.IsOwned();
      ClosedStateShows(references.State(), db, shows);
    }

    lemma SameKeys(was: VmState, now: VmState, refs: RefState, db: Sdb, conn: int)
      requires refs.snap.Keys == was.tables.Keys && CleanedUp(was, now, db, conn)
      ensures Closed(refs, db).snap.Keys == now.tables.Keys
    {
    }

    /** The steps of cleanupdb, in their order. */
    method Dismantle(db: Sdb, ghost was: VmState, ghost refs: RefState) returns (result: int)
      requires Valid() && db in was.tables && was == statements.State() && refs == references.State()
      modifies statements`tables, statements`owner, statements.vms
      modifies statements.engine`stmts, statements.engine`finalized, statements.engine`conns, statements.engine`log
      modifies references`owner, references`snap, references.registry, db`conn, db`func
      ensures statements.Valid() && references.Valid()
      ensures result == SQLITE_OK && db.conn == 0 && db.func == null
      ensures old(statements.engine.log) < statements.engine.log
      ensures statements.engine.log[|statements.engine.log| - 1] == CloseCall(old(db.conn), result)
      ensures CleanedUp(was, statements.State(), db, old(db.conn)) && references.State() == Closed(refs, db)
    {
      hide Statements.Valid, Emptied, CleanedUp, References.Valid, References.Retiring, Releasing, Closed, Shows;
      hide RefTable.Live, RefTable.Valid, References.Outside;
      statements.CloseStatements(db);
      references.ReleaseCallbacks(db);
      result := statements.Disconnect(db, was);
      references.ReleaseFunctions(db, refs);
    }

    /** lsqlite_do_open: a database that fails to open is cleaned up at once and leaves nothing behind. */
    method Open() returns (db: Sdb, code: int)
      requires Valid()
      modifies `shows, statements`tables, statements`owner, statements`dbs, statements.vms, statements.engine
      modifies references`owner, references`snap, references.registry
      ensures Valid() && fresh(db) && statements.dbs == old(statements.dbs) + {db}
      ensures forall svm :: svm in statements.vms ==> svm.vm == old(svm.vm)
      ensures |statements.engine.log| > |old(statements.engine.log)|
      ensures var opening := statements.engine.log[|old(statements.engine.log)|];
        opening.OpenCall? && code == opening.code && (code == SQLITE_OK ==> db.conn == opening.conn)
      ensures code == SQLITE_OK ==> db.conn != 0 && db.conn !in old(statements.engine.conns) && shows == old(shows)
      ensures code == SQLITE_OK ==> Opened(old(statements.State()), statements.State(), db, db.conn)
      ensures code == SQLITE_OK ==> references.snap == old(references.snap)[db := DbRefs(NO_CALLBACKS, [])]
      ensures code != SQLITE_OK ==> db.conn == 0 && statements.State() == old(statements.State())
      ensures code != SQLITE_OK ==> references.State() == old(references.State())
    {
      hide Statements.Valid, References.Valid, References.Outside, Shows;
      ghost var was, snap := statements.State(), references.snap;
      db, code := statements.NewDb();
      if db.conn == 0 {
        statements.SameHeld(was);
        return;
      }
      OpenedShows(references.registry.Live(), references.snap, db, shows);
      references.AddDb(db);
      if code != SQLITE_OK {
        Discard(db, was, snap);
      }
      statements.SameHeld(was);
    }

    lemma IsValid()
      requires Valid()
      ensures statements.Valid() && references.Valid()
    {
    }

    /** cleanupdb on a database nobody has used yet. */
    method Discard(db: Sdb, ghost was: VmState, ghost snap: Snapshot)
      requires Valid() && db !in was.tables && db.conn !in was.conns && Opened(was, statements.State(), db, db.conn)
      requires db !in snap && references.snap == snap[db := DbRefs(NO_CALLBACKS, [])]
      modifies `shows, statements`tables, statements`owner, statements.vms
      modifies statements.engine`stmts, statements.engine`finalized, statements.engine`conns, statements.engine`log
      modifies references`owner, references`snap, references.registry, db`conn, db`func
      ensures Valid() && db.conn == 0 && statements.State() == was
      ensures old(statements.engine.log) < statements.engine.log
      ensures references.State() == old(references.State()).(snap := snap)
    {
      IsValid();
      statements.OpenedMeans(was, db);
      hide Valid, Statements.Valid, References.Valid, Closed, CleanedUp, WithoutDb, Shows, Opened;
      ghost var now, conn := statements.State(), db.conn;
      statements.NothingLive(db);
      statements.NothingHeld(db);
      references.NothingOwned(db);
      UnusedClosed(references.State(), db, snap);
      var result := CleanupDb(db);
      OpenedAndCleanedUp(was, now, statements.State(), db, conn);
    }

    /** db:close, and the collector's finalizer: a database that is already closed is left alone. */
    method Close(db: Sdb) returns (wasOpen: bool, result: int)
      requires Valid() && db in statements.dbs
      modifies `shows, statements`tables, statements`owner, statements.vms
      modifies statements.engine`stmts, statements.engine`finalized, statements.engine`conns, statements.engine`log
      modifies references`owner, references`snap, references.registry, db`conn, db`func
      ensures Valid() && db.conn == 0
      ensures wasOpen <==> old(db.conn) != 0
      ensures wasOpen ==>
        result == SQLITE_OK && CleanedUp(old(statements.State()), statements.State(), db, old(db.conn))
      ensures wasOpen ==>
        references.State() == Closed(old(references.State()), db) && shows == WithoutDb(old(shows), db)
      ensures wasOpen ==>
        && old(statements.engine.log) < statements.engine.log
        && statements.engine.log[|statements.engine.log| - 1] == CloseCall(old(db.conn), result)
      ensures !wasOpen ==> statements.State() == old(statements.State()) && shows == old(shows)
    {
      hide Statements.Valid, CleanedUp, References.Valid, Closed, Shows;
      wasOpen, result := db.conn != 0, SQLITE_OK;
      if wasOpen {
        statements.OpenDatabase(db);
        result := CleanupDb(db);
      }
    }
  }
}
