/**
 * The part of SQLite that lsqlite3.c relies on: connections and prepared statements as handles.
 * Result codes are chosen freely wherever SQLite may choose them.
 */
module SqliteEngine {
  import opened LuaValues

  const SQLITE_OK := 0
  const SQLITE_ERROR := 1
  const SQLITE_BUSY := 5
  const SQLITE_SCHEMA := 17
  const SQLITE_ROW := 100
  const SQLITE_DONE := 101

  /** A live prepared statement; the handle 0 is the null pointer. */
  datatype Stmt = Stmt(conn: int, sql: string, bindings: map<int, Value>)

  /** A call of SQLite and what it answered. */
  datatype Call =
    | OpenCall(code: int, conn: int)
    | PrepareCall(conn: int, sql: string, code: int, stmt: int)
    | StepCall(stmt: int, code: int)
    | ResetCall(stmt: int, code: int)
    | CountCall(stmt: int, columns: nat)
    | FinalizeCall(stmt: int, code: int)
    | CloseCall(conn: int, code: int)

  class Engine {
    var conns: set<int>
    var nextConn: int
    var stmts: map<int, Stmt>
    var nextStmt: int
    var finalized: seq<int>          // handles in the order of their finalization
    const compiles: string -> bool   // false for a text that holds no statement
    ghost var log: seq<Call>         // every call so far

    /** Every statement ever prepared is either live, on an open connection, or was finalized exactly once. */
    ghost predicate Valid()
      reads `conns, `nextConn, `stmts, `nextStmt, `finalized
    {
      && (forall c :: c in conns ==> 1 <= c < nextConn) && 1 <= nextConn
      && (forall s :: 1 <= s < nextStmt <==> s in stmts || s in finalized) && 1 <= nextStmt
      && (forall s :: s in stmts ==> s !in finalized && stmts[s].conn in conns && compiles(stmts[s].sql))
      && (forall i, j :: 0 <= i < j < |finalized| ==> finalized[i] != finalized[j])
    }

    lemma LiveStatement(s: int)
      requires Valid() && s in stmts
      ensures s >= 1 && stmts[s].conn in conns && compiles(stmts[s].sql)
    {
    }

    constructor (compiles: string -> bool)
      ensures Valid() && conns == {} && stmts == map[] && finalized == []
      ensures this.compiles == compiles && log == []
    {
      conns, nextConn := {}, 1;
      stmts, nextStmt, finalized, log := map[], 1, [], [];
      this.compiles := compiles;
    }

    /** sqlite3_open: a handle is usually returned even when opening fails. */
    method Open() returns (code: int, conn: int)
      requires Valid()
      modifies `conns, `nextConn, `log
      ensures Valid() && log == old(log) + [OpenCall(code, conn)]
      ensures conn == 0 || conn !in old(conns)
      ensures conns == old(conns) + if conn == 0 then {} else {conn}
      ensures code == SQLITE_OK ==> conn != 0
    {
      code, conn := *, 0;
      var hasHandle := *;
      if hasHandle || code == SQLITE_OK {
        conn := nextConn;
        nextConn := nextConn + 1;
        conns := conns + {conn};
      }
      log := log + [OpenCall(code, conn)];
    }

    /** sqlite3_prepare: on failure, or when the text holds no statement, the handle is null. */
    method Prepare(conn: int, sql: string) returns (code: int, stmt: int)
      requires Valid() && conn in conns
      modifies `stmts, `nextStmt, `log
      ensures Valid() && log == old(log) + [PrepareCall(conn, sql, code, stmt)]
      ensures code != SQLITE_OK || !compiles(sql) ==> stmt == 0 && stmts == old(stmts)
      ensures old(nextStmt) <= nextStmt
      ensures code == SQLITE_OK && compiles(sql) ==> stmt >= old(nextStmt) >= 1 && stmt !in old(stmts)
      ensures code == SQLITE_OK && compiles(sql) ==> stmts == old(stmts)[stmt := Stmt(conn, sql, map[])]
    {
      code, stmt := *, 0;
      if code == SQLITE_OK && compiles(sql) {
        stmt := nextStmt;
        nextStmt := nextStmt + 1;
        stmts := stmts[stmt := Stmt(conn, sql, map[])];
      }
      log := log + [PrepareCall(conn, sql, code, stmt)];
    }

    method Step(stmt: int) returns (code: int)
      requires stmt in stmts
      modifies `log
      ensures log == old(log) + [StepCall(stmt, code)]
    {
      code := *;
      log := log + [StepCall(stmt, code)];
    }

    method Reset(stmt: int) returns (code: int)
      requires stmt in stmts
      modifies `log
      ensures log == old(log) + [ResetCall(stmt, code)]
    {
      code := *;
      log := log + [ResetCall(stmt, code)];
    }

    method DataCount(stmt: int) returns (columns: nat)
      requires stmt in stmts
      modifies `log
      ensures log == old(log) + [CountCall(stmt, columns)]
    {
      columns := *;
      log := log + [CountCall(stmt, columns)];
    }

    /** sqlite3_transfer_bindings. */
    method TransferBindings(from: int, to: int)
      requires Valid() && from in stmts && to in stmts && from != to
      modifies `stmts
      ensures Valid()
      ensures stmts == old(stmts)[to := old(stmts[to].(bindings := stmts[from].bindings))]
        [from := old(stmts[from].(bindings := map[]))]
    {
      stmts := stmts[to := stmts[to].(bindings := stmts[from].bindings)][from := stmts[from].(bindings := map[])];
    }

    /** sqlite3_finalize: legal once for each handle; does nothing for the null handle. */
    method Finalize(stmt: int) returns (code: int)
      requires Valid() && (stmt == 0 || stmt in stmts)
      modifies `stmts, `finalized, `log
      ensures Valid() && log == old(log) + [FinalizeCall(stmt, code)]
      ensures stmt == 0 ==> code == SQLITE_OK
      ensures stmts == old(stmts) - {stmt}
      ensures finalized == old(finalized) + if stmt == 0 then [] else [stmt]
    {
      code := SQLITE_OK;
      if stmt != 0 {
        code := *;
        stmts := stmts - {stmt};
        finalized := finalized + [stmt];
      }
      log := log + [FinalizeCall(stmt, code)];
    }

    /** sqlite3_close: refuses while a statement of the connection is live. */
    method Close(conn: int) returns (code: int)
      requires Valid() && (conn == 0 || conn in conns)
      modifies `conns, `log
      ensures Valid() && log == old(log) + [CloseCall(conn, code)]
      ensures code == SQLITE_OK <==> forall s :: s in stmts ==> conn == 0 || stmts[s].conn != conn
      ensures code != SQLITE_OK ==> code == SQLITE_BUSY && conns == old(conns)
      ensures code == SQLITE_OK ==> conns == old(conns) - {conn}
    {
      code := SQLITE_OK;
      if conn != 0 {
        if exists s :: s in stmts && stmts[s].conn == conn {
          code := SQLITE_BUSY;
        } else {
          conns := conns - {conn};
        }
      }
      log := log + [CloseCall(conn, code)];
    }
  }
}
