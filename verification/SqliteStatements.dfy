/** Ownership of prepared statements by the userdata of lsqlite3.c, as a relation between plain maps. */
module StatementOwnership {
  import opened SqliteEngine
  import opened SqliteObjects

  /** For each open database, the tracked userdata with their sql texts. */
  type Tables = map<Sdb, map<SdbVm, string>>

  /** The open databases are those with a table, each on a connection of its own. */
  ghost predicate Connected(tables: Tables, conns: map<Sdb, int>, live: set<int>) {
    && (forall db :: db in tables ==> db in conns && conns[db] != 0)
    && (forall db :: db in conns && conns[db] != 0 ==> db in tables)
    && (forall db :: db in tables ==> conns[db] in live)
    && (forall a, b :: a in tables && b in tables && conns[a] == conns[b] ==> a == b)
  }

  /** A statement is on the connection of its owner's open database and tracked there with its own text. */
  ghost predicate TrackedAs(stmt: Stmt, svm: SdbVm, tables: Tables, conns: map<Sdb, int>) {
    && svm.db in conns && stmt.conn == conns[svm.db]
    && svm.db in tables && svm in tables[svm.db] && tables[svm.db][svm] == stmt.sql
  }

  /** Live statements and open userdata correspond one to one, and every open userdata is tracked. */
  ghost predicate HandlesOwned(stmts: map<int, Stmt>, tables: Tables, held: map<SdbVm, int>, conns: map<Sdb, int>,
                        owner: map<int, SdbVm>)
  {
    && 0 !in owner && owner.Keys == stmts.Keys
    && (forall svm :: svm in held && held[svm] != 0 ==> held[svm] in owner && owner[held[svm]] == svm)
    && (forall s :: s in owner ==> owner[s] in held && held[owner[s]] == s)
    && (forall s :: s in owner ==> TrackedAs(stmts[s], owner[s], tables, conns))
    && (forall db, svm :: db in tables && svm in tables[db] ==> svm in held && svm.db == db)
  }

  /** The tracked userdata, the statements they hold, and what SQLite has open, at one moment. */
  datatype VmState = VmState(tables: Tables, held: map<SdbVm, int>, stmts: map<int, Stmt>, conns: set<int>)

  /** A database is open on a new connection and tracks nothing yet. */
  ghost predicate Opened(a: VmState, b: VmState, db: Sdb, conn: int) {
    b == a.(tables := a.tables[db := map[]], conns := a.conns + {conn})
  }

  /** A new userdata of db is tracked under its text; it holds a new statement unless the text has none. */
  ghost predicate Adds(a: VmState, b: VmState, db: Sdb, svm: SdbVm, sql: string, conn: int) {
    && svm !in a.held && db in a.tables && svm in b.held
    && b.tables == a.tables[db := a.tables[db][svm := sql]]
    && b.held == a.held[svm := b.held[svm]] && b.conns == a.conns
    && if b.held[svm] == 0 then b.stmts == a.stmts
       else b.held[svm] !in a.stmts && b.stmts == a.stmts[b.held[svm] := Stmt(conn, sql, map[])]
  }

  /** Nothing has changed but for userdata that were made and closed again. */
  ghost predicate AddsNothing(a: VmState, b: VmState) {
    && b == a.(held := b.held) && a.held.Keys <= b.held.Keys
    && forall svm :: svm in b.held ==> b.held[svm] == if svm in a.held then a.held[svm] else 0
  }

  /** An open userdata goes on with a statement of the same text and bindings, the one it had or a new one. */
  ghost predicate GoesOn(a: VmState, b: VmState, svm: SdbVm) {
    && svm in a.held && svm in b.held && a.held[svm] in a.stmts && b.held[svm] != 0
    && (b.held[svm] == a.held[svm] || b.held[svm] !in a.stmts)
    && b == a.(held := a.held[svm := b.held[svm]],
               stmts := (a.stmts - {a.held[svm]})[b.held[svm] := a.stmts[a.held[svm]]])
  }

  /** An open userdata is untracked and its statement is gone. */
  ghost predicate Drops(a: VmState, b: VmState, svm: SdbVm) {
    && svm in a.held && a.held[svm] in a.stmts && svm.db in a.tables && svm in a.tables[svm.db]
    && b == VmState(a.tables[svm.db := a.tables[svm.db] - {svm}], a.held[svm := 0], a.stmts - {a.held[svm]}, a.conns)
  }

  /** A new userdata without a statement is tracked. */
  ghost predicate Tracks(a: VmState, b: VmState, db: Sdb, svm: SdbVm, sql: string) {
    && svm !in a.held && db in a.tables && svm !in a.tables[db]
    && b == a.(tables := a.tables[db := a.tables[db][svm := sql]], held := a.held[svm := 0])
  }

  /** A userdata without a statement gets one for the text, or none. */
  ghost predicate Fills(a: VmState, b: VmState, svm: SdbVm, sql: string, conn: int) {
    && svm in a.held && svm in b.held && a.held[svm] == 0
    && if b.held[svm] == 0 then b == a
       else b.held[svm] !in a.stmts
            && b == a.(held := a.held[svm := b.held[svm]], stmts := a.stmts[b.held[svm] := Stmt(conn, sql, map[])])
  }

  /** A userdata loses its statement, if it has one, and stays tracked. */
  ghost predicate Loses(a: VmState, b: VmState, svm: SdbVm) {
    svm in a.held && b == a.(held := a.held[svm := 0], stmts := a.stmts - {a.held[svm]})
  }

  /** A userdata is untracked, if it was tracked, and its statement, if it has one, is gone. */
  ghost predicate CleansUp(a: VmState, b: VmState, svm: SdbVm) {
    && svm in a.held && svm.db in a.tables
    && b == VmState(a.tables[svm.db := a.tables[svm.db] - {svm}], a.held[svm := 0], a.stmts - {a.held[svm]}, a.conns)
  }

  /** Some userdata of db have been cleaned up, and nothing else has changed. */
  ghost predicate ClosesSome(a: VmState, b: VmState, db: Sdb, conn: int) {
    && db in a.tables && db in b.tables && b.tables == a.tables[db := b.tables[db]] && b.conns == a.conns
    && b.held.Keys == a.held.Keys
    && (forall svm :: svm in a.held && svm.db != db ==> b.held[svm] == a.held[svm])
    && (forall s :: s in b.stmts ==> s in a.stmts && b.stmts[s] == a.stmts[s])
    && (forall s :: s in a.stmts && a.stmts[s].conn != conn ==> s in b.stmts)
  }

  /** The chosen userdata lose their statements and stay tracked. */
  ghost predicate Empties(a: VmState, b: VmState, chosen: set<SdbVm>) {
    && b.tables == a.tables && b.conns == a.conns && b.held.Keys == a.held.Keys && chosen <= a.held.Keys
    && (forall svm :: svm in a.held ==> b.held[svm] == if svm in chosen then 0 else a.held[svm])
    && b.stmts == a.stmts - set svm | svm in chosen :: a.held[svm]
  }

  /**
   * Of the userdata only those of db have lost their statements, and exactly the statements on its connection
   * are gone.
   */
  ghost predicate ClosesOnly(heldBefore: map<SdbVm, int>, before: map<int, Stmt>, heldAfter: map<SdbVm, int>,
                             after: map<int, Stmt>, db: Sdb, conn: int)
  {
    && heldAfter.Keys == heldBefore.Keys
    && (forall svm :: svm in heldBefore && svm.db != db ==> heldAfter[svm] == heldBefore[svm])
    && (forall s :: s in after <==> s in before && before[s].conn != conn)
    && (forall s :: s in after ==> after[s] == before[s])
  }

  /** db tracks nothing any more, but is still connected. */
  ghost predicate Emptied(a: VmState, b: VmState, db: Sdb, conn: int) {
    && db in a.tables && b.tables == a.tables[db := map[]] && b.conns == a.conns
    && ClosesOnly(a.held, a.stmts, b.held, b.stmts, db, conn)
  }

  /** db has been cleaned up: untracked, without statements, and off its connection; the rest is as it was. */
  ghost predicate CleanedUp(a: VmState, b: VmState, db: Sdb, conn: int) {
    && b.tables == a.tables - {db} && b.conns == a.conns - {conn}
    && ClosesOnly(a.held, a.stmts, b.held, b.stmts, db, conn)
    && forall svm :: svm in b.held && svm.db == db ==> b.held[svm] == 0
  }

  lemma TracksAndFills(a: VmState, b: VmState, c: VmState, db: Sdb, svm: SdbVm, sql: string, conn: int)
    requires Tracks(a, b, db, svm, sql) && Fills(b, c, svm, sql, conn)
    ensures Adds(a, c, db, svm, sql, conn)
  {
    assert c.held == a.held[svm := c.held[svm]];
  }

  /** A userdata whose text could not be prepared is cleaned up again. */
  lemma TracksAndCleansUp(a: VmState, b: VmState, c: VmState, db: Sdb, svm: SdbVm, sql: string)
    requires Tracks(a, b, db, svm, sql) && CleansUp(b, c, svm) && svm.db == db && 0 !in a.stmts
    ensures AddsNothing(a, c)
  {
    assert a.tables[db][svm := sql] - {svm} == a.tables[db];
    assert c.tables == a.tables && c.stmts == a.stmts;
  }

  lemma NothingClosed(a: VmState, db: Sdb, conn: int)
    requires db in a.tables
    ensures ClosesSome(a, a, db, conn)
  {
  }

  lemma ClosesOne(a: VmState, b: VmState, c: VmState, db: Sdb, conn: int, svm: SdbVm)
    requires ClosesSome(a, b, db, conn) && CleansUp(b, c, svm) && svm.db == db
    requires b.held[svm] in b.stmts ==> b.stmts[b.held[svm]].conn == conn
    ensures ClosesSome(a, c, db, conn)
  {
  }

  lemma Shrinks(a: VmState, b: VmState, db: Sdb, svm: SdbVm)
    requires CleansUp(a, b, svm) && svm.db == db && svm in a.tables[db]
    ensures db in b.tables && b.tables[db].Keys < a.tables[db].Keys
  {
  }

  lemma ClosesAll(a: VmState, b: VmState, db: Sdb, conn: int)
    requires ClosesSome(a, b, db, conn) && b.tables[db] == map[]
    requires forall s :: s in b.stmts ==> b.stmts[s].conn != conn
    ensures Emptied(a, b, db, conn)
  {
  }

  lemma GoesOnAgain(a: VmState, b: VmState, c: VmState, svm: SdbVm)
    requires GoesOn(a, b, svm) && GoesOn(b, c, svm) && (c.held[svm] == b.held[svm] || c.held[svm] !in a.stmts)
    ensures GoesOn(a, c, svm)
  {
    assert c.held == a.held[svm := c.held[svm]];
    assert c.stmts == (a.stmts - {a.held[svm]})[c.held[svm] := a.stmts[a.held[svm]]];
  }

  lemma GoesOnUnchanged(a: VmState, svm: SdbVm)
    requires svm in a.held && a.held[svm] in a.stmts && a.held[svm] != 0
    ensures GoesOn(a, a, svm)
  {
    assert a.held == a.held[svm := a.held[svm]];
    assert a.stmts == (a.stmts - {a.held[svm]})[a.held[svm] := a.stmts[a.held[svm]]];
  }

  /** Cleaning up a database that has never had a statement undoes its opening. */
  lemma OpenedAndCleanedUp(was: VmState, a: VmState, b: VmState, db: Sdb, conn: int)
    requires Opened(was, a, db, conn) && db !in was.tables && conn !in was.conns && CleanedUp(a, b, db, conn)
    requires forall s :: s in a.stmts ==> a.stmts[s].conn != conn
    requires forall svm :: svm in a.held && svm.db == db ==> a.held[svm] == 0
    ensures b == was
  {
    assert b.held == a.held;
    forall s | s in a.stmts ensures s in b.stmts && b.stmts[s] == a.stmts[s] {
      assert a.stmts[s].conn != conn;
    }
    assert forall s :: s in b.stmts ==> s in a.stmts;
    assert b.stmts == a.stmts;
    assert a.tables - {db} == was.tables && a.conns - {conn} == was.conns;
  }

  lemma SameTables(a: VmState, b: VmState, svm: SdbVm)
    requires GoesOn(a, b, svm)
    ensures a.tables == b.tables
  {
  }

  lemma LosesNoTables(a: VmState, b: VmState, svm: SdbVm)
    requires Loses(a, b, svm)
    ensures a.tables == b.tables
  {
  }

  lemma GoesOnThenDrops(a: VmState, b: VmState, c: VmState, d: VmState, svm: SdbVm)
    requires GoesOn(a, b, svm) && Loses(b, c, svm) && CleansUp(c, d, svm)
    requires svm in a.tables[svm.db] && 0 !in c.stmts
    ensures Drops(a, d, svm)
  {
    assert d.held == a.held[svm := 0];
    assert d.stmts == a.stmts - {a.held[svm]};
  }

  lemma NothingEmptied(a: VmState)
    ensures Empties(a, a, {})
  {
  }

  lemma EmptiesOne(a: VmState, b: VmState, c: VmState, chosen: set<SdbVm>, svm: SdbVm)
    requires Empties(a, b, chosen) && svm in a.held && svm !in chosen
    requires Loses(b, c, svm) || (b == c && b.held[svm] == 0 && 0 !in b.stmts)
    ensures Empties(a, c, chosen + {svm})
  {
    assert (set x | x in chosen + {svm} :: a.held[x]) == (set x | x in chosen :: a.held[x]) + {a.held[svm]};
  }

  /** Only the set of open databases matters to their connections. */
  lemma ConnectedByKeys(tables: Tables, after: Tables, conns: map<Sdb, int>, live: set<int>)
    requires Connected(tables, conns, live) && after.Keys == tables.Keys
    ensures Connected(after, conns, live)
  {
    assert forall db :: db in after ==> db in tables;
    assert forall db :: db in tables ==> db in after;
  }

  lemma HeldIsLive(stmts: map<int, Stmt>, tables: Tables, held: map<SdbVm, int>, conns: map<Sdb, int>,
                   owner: map<int, SdbVm>, svm: SdbVm)
    requires HandlesOwned(stmts, tables, held, conns, owner) && svm in held && held[svm] != 0
    ensures held[svm] in stmts && TrackedAs(stmts[held[svm]], svm, tables, conns)
  {
  }

  lemma TrackedIsHeld(stmts: map<int, Stmt>, tables: Tables, held: map<SdbVm, int>, conns: map<Sdb, int>,
                      owner: map<int, SdbVm>, db: Sdb)
    requires HandlesOwned(stmts, tables, held, conns, owner) && db in tables
    ensures tables[db].Keys <= held.Keys
    ensures forall svm :: svm in tables[db] ==> svm.db == db
  {
  }

  lemma NewKeeps(stmts: map<int, Stmt>, tables: Tables, held: map<SdbVm, int>, conns: map<Sdb, int>,
                 owner: map<int, SdbVm>, svm: SdbVm, sql: string)
    requires HandlesOwned(stmts, tables, held, conns, owner)
    requires svm !in held && svm.db in tables
    ensures HandlesOwned(stmts, tables[svm.db := tables[svm.db][svm := sql]], held[svm := 0], conns, owner)
  {
  }

  lemma AdoptKeeps(stmts: map<int, Stmt>, tables: Tables, held: map<SdbVm, int>, conns: map<Sdb, int>,
                   owner: map<int, SdbVm>, svm: SdbVm, s: int, stmt: Stmt)
    requires HandlesOwned(stmts, tables, held, conns, owner)
    requires svm in held && held[svm] == 0 && s != 0 && s !in stmts
    requires TrackedAs(stmt, svm, tables, conns)
    ensures HandlesOwned(stmts[s := stmt], tables, held[svm := s], conns, owner[s := svm])
  {
  }

  lemma DropKeeps(stmts: map<int, Stmt>, tables: Tables, held: map<SdbVm, int>, conns: map<Sdb, int>,
                  owner: map<int, SdbVm>, svm: SdbVm)
    requires HandlesOwned(stmts, tables, held, conns, owner) && svm in held
    ensures HandlesOwned(stmts - {held[svm]}, tables, held[svm := 0], conns, owner - {held[svm]})
  {
  }

  lemma UntrackKeeps(stmts: map<int, Stmt>, tables: Tables, held: map<SdbVm, int>, conns: map<Sdb, int>,
                     owner: map<int, SdbVm>, svm: SdbVm)
    requires HandlesOwned(stmts, tables, held, conns, owner) && svm in held && held[svm] == 0
    requires svm.db in tables
    ensures HandlesOwned(stmts, tables[svm.db := tables[svm.db] - {svm}], held, conns, owner)
  {
  }

  /** cleanupvm, for an open or a closed userdata. */
  lemma CleanupKeeps(stmts: map<int, Stmt>, tables: Tables, held: map<SdbVm, int>, conns: map<Sdb, int>,
                     owner: map<int, SdbVm>, live: set<int>, svm: SdbVm)
    requires HandlesOwned(stmts, tables, held, conns, owner) && Connected(tables, conns, live)
    requires svm in held && svm.db in tables
    ensures held[svm] != 0 ==> held[svm] in stmts
    ensures var after := tables[svm.db := tables[svm.db] - {svm}];
      && HandlesOwned(stmts - {held[svm]}, after, held[svm := 0], conns, owner - {held[svm]})
      && Connected(after, conns, live)
    ensures held[svm] == 0 ==> stmts - {0} == stmts && owner - {0} == owner
  {
    DropKeeps(stmts, tables, held, conns, owner, svm);
    UntrackKeeps(stmts - {held[svm]}, tables, held[svm := 0], conns, owner - {held[svm]}, svm);
    ConnectedByKeys(tables, tables[svm.db := tables[svm.db] - {svm}], conns, live);
  }

  /** Preparing again, moving the bindings over and finalizing the old statement. */
  lemma SwappedStatements(stmts: map<int, Stmt>, h: int, s: int, blank: Stmt)
    requires h in stmts && s !in stmts && blank == stmts[h].(bindings := map[])
    ensures stmts[s := blank][s := blank.(bindings := stmts[h].bindings)][h := stmts[h].(bindings := map[])] - {h}
      == (stmts - {h})[s := stmts[h]]
  {
  }

  /** The re-prepare: a new handle takes over text, connection and bindings. */
  lemma SwapKeeps(stmts: map<int, Stmt>, tables: Tables, held: map<SdbVm, int>, conns: map<Sdb, int>,
                  owner: map<int, SdbVm>, svm: SdbVm, s: int)
    requires HandlesOwned(stmts, tables, held, conns, owner) && svm in held && held[svm] != 0
    requires s != 0 && s !in stmts
    ensures var h := held[svm];
      HandlesOwned((stmts - {h})[s := stmts[h]], tables, held[svm := s], conns, (owner - {h})[s := svm])
  {
    var h := held[svm];
    DropKeeps(stmts, tables, held, conns, owner, svm);
    AdoptKeeps(stmts - {h}, tables, held[svm := 0], conns, owner - {h}, svm, s, stmts[h]);
    assert held[svm := 0][svm := s] == held[svm := s];
  }

  lemma OpenKeeps(stmts: map<int, Stmt>, tables: Tables, held: map<SdbVm, int>, conns: map<Sdb, int>,
                  owner: map<int, SdbVm>, live: set<int>, db: Sdb, conn: int)
    requires HandlesOwned(stmts, tables, held, conns, owner) && Connected(tables, conns, live)
    requires db !in conns && (conn == 0 || conn !in live)
    ensures var grown := if conn == 0 then tables else tables[db := map[]];
      && HandlesOwned(stmts, grown, held, conns[db := conn], owner)
      && Connected(grown, conns[db := conn], live + if conn == 0 then {} else {conn})
    ensures db !in tables
  {
    assert db !in tables;
  }

  /** Once a database tracks nothing, no live statement is left on its connection. */
  lemma NothingTrackedNothingLive(stmts: map<int, Stmt>, tables: Tables, held: map<SdbVm, int>,
                                  conns: map<Sdb, int>, owner: map<int, SdbVm>, live: set<int>, db: Sdb)
    requires HandlesOwned(stmts, tables, held, conns, owner) && Connected(tables, conns, live)
    requires db in tables && tables[db] == map[]
    ensures forall s :: s in stmts ==> stmts[s].conn != conns[db]
  {
    forall s | s in stmts ensures stmts[s].conn != conns[db] {
      assert TrackedAs(stmts[s], owner[s], tables, conns);
      assert owner[s].db in tables;
    }
  }

  lemma ForgetKeeps(stmts: map<int, Stmt>, tables: Tables, held: map<SdbVm, int>, conns: map<Sdb, int>,
                    owner: map<int, SdbVm>, live: set<int>, db: Sdb)
    requires HandlesOwned(stmts, tables, held, conns, owner) && Connected(tables, conns, live)
    requires db in tables && tables[db] == map[]
    ensures HandlesOwned(stmts, tables - {db}, held, conns[db := 0], owner)
    ensures Connected(tables - {db}, conns[db := 0], live - {conns[db]})
  {
    forall s | s in owner ensures TrackedAs(stmts[s], owner[s], tables - {db}, conns[db := 0]) {
      assert TrackedAs(stmts[s], owner[s], tables, conns);
      assert owner[s] !in tables[db];
    }
  }
}

/** The statement operations of lsqlite3.c. */
module SqliteStatements {
  import opened SqliteEngine
  import opened SqliteObjects
  import opened StatementOwnership
  import opened SqliteAnswers

  datatype PrepareResult = DatabaseClosed | Failed(code: int) | Prepared(svm: SdbVm)

  datatype RowResult = ClosedVm | Row(columns: nat) | End | Raised

  /** The calls behind one row: those of the step, the column count, and whatever ends the rows. */
  ghost predicate FetchesAt(calls: seq<Call>, k: nat, h: int, conn: int, sql: string, temp: bool, r: RowResult) {
    && 0 < k < |calls| && Stepping(calls[..k], h, conn, sql)
    && calls[k].CountCall? && calls[k].stmt == Current(calls[..k], h)
    && var answer := Answer(calls[..k]);
       if answer == SQLITE_ROW then |calls| == k + 1 && r == Row(calls[k].columns)
       else if temp || answer == SQLITE_DONE then
         && |calls| == k + 2 && (if temp then calls[k + 1].FinalizeCall? else calls[k + 1].ResetCall?)
         && calls[k + 1].stmt == Current(calls[..k], h)
         && r == if calls[k + 1].code == SQLITE_OK then End else Raised
       else |calls| == k + 1 && r == if answer == SQLITE_OK then End else Raised
  }

  ghost predicate Fetches(calls: seq<Call>, h: int, conn: int, sql: string, temp: bool, r: RowResult) {
    exists k: nat :: FetchesAt(calls, k, h, conn, sql, temp, r)
  }

  /** The calls behind stmt:step: those of the step, then the column count. */
  ghost predicate StepsAndCounts(calls: seq<Call>, h: int, conn: int, sql: string, result: int, columns: nat) {
    && |calls| > 1
    && var n := |calls| - 1;
       && Stepping(calls[..n], h, conn, sql) && result == Answer(calls[..n])
       && calls[n] == CountCall(Current(calls[..n], h), columns)
  }

  /** Only one call counts the columns, and the answer before it is the result of the step. */
  lemma CountedOnce(calls: seq<Call>, at: nat, k: nat, h: int, conn: int, sql: string, temp: bool, r: RowResult)
    requires FetchesAt(calls, at, h, conn, sql, temp, r) && k < |calls| && calls[k].CountCall?
    ensures k == at && calls[k - 1] == calls[..at][at - 1]
  {
    NeverCounts(calls[..at], h, conn, sql);
    assert forall i :: 0 <= i < at ==> calls[..at][i] == calls[i];
  }

  /**
   * With a the last answer before the columns are counted: there is a row exactly if a is one. The rows of a
   * temporary end without an error exactly if its finalization succeeds; those of a lasting statement if SQLite is
   * done and can be reset, if a third schema change has used up the tries, or if a is SQLITE_OK.
   */
  lemma FetchedIff(calls: seq<Call>, k: nat, h: int, conn: int, sql: string, temp: bool, r: RowResult)
    requires Fetches(calls, h, conn, sql, temp, r) && k < |calls| && calls[k].CountCall?
    ensures k > 0 && (r.Row? <==> !calls[k - 1].FinalizeCall? && calls[k - 1].code == SQLITE_ROW)
    ensures r.Row? ==> r.columns == calls[k].columns
    ensures temp ==>
      (r == End <==> !r.Row? && k + 1 < |calls| && calls[k + 1] == FinalizeCall(calls[k].stmt, SQLITE_OK))
    ensures !temp ==>
      (r == End <==>
        || calls[k - 1].FinalizeCall? || calls[k - 1].code == SQLITE_OK
        || (calls[k - 1].code == SQLITE_DONE && k + 1 < |calls| && calls[k + 1] == ResetCall(calls[k].stmt, SQLITE_OK)))
  {
    var at: nat :| FetchesAt(calls, at, h, conn, sql, temp, r);
    CountedOnce(calls, at, k, h, conn, sql, temp, r);
    AnswerIsLast(calls[..at], h, conn, sql);
  }

  /** Three schema changes in a row end the rows of a lasting statement, though SQLite has never said it was done. */
  lemma ThreeChangesEndTheRows(h: int, a: int, b: int, c: int, conn: int, sql: string, columns: nat)
    returns (calls: seq<Call>)
    ensures Fetches(calls, h, conn, sql, false, End)
    ensures forall i :: 0 <= i < |calls| && calls[i].StepCall? ==> calls[i].code == SQLITE_SCHEMA
  {
    hide Stepping, Answer, Current;
    var steps := ThreeChanges(h, a, b, c, conn, sql);
    calls := steps + [CountCall(c, columns)];
    assert calls[..|steps|] == steps;
    assert FetchesAt(calls, |steps|, h, conn, sql, false, End);
  }

  /** A row answered at once is delivered at once. */
  lemma RowIsDelivered(calls: seq<Call>, h: int, conn: int, sql: string, temp: bool, r: RowResult)
    requires Fetches(calls, h, conn, sql, temp, r) && calls[0].StepCall? && calls[0].code == SQLITE_ROW
    ensures r.Row? && calls == [StepCall(h, SQLITE_ROW), CountCall(h, r.columns)]
  {
    var at: nat :| FetchesAt(calls, at, h, conn, sql, temp, r);
    FirstAnswerDecides(calls[..at], h, conn, sql);
    assert Current(calls[..at], h) == h;
  }

  class Statements {
    const engine: Engine
    var tables: Tables       // the registry entries keyed by database addresses
    ghost var dbs: set<Sdb>
    ghost var vms: set<SdbVm>
    ghost var owner: map<int, SdbVm>

    ghost function Held(): map<SdbVm, int>
      reads `vms, vms`vm
    {
      map svm | svm in vms :: svm.vm
    }

    ghost function Conns(): map<Sdb, int>
      reads `dbs, dbs`conn
    {
      map db | db in dbs :: db.conn
    }

    ghost function State(): VmState
      reads `tables, `vms, vms`vm, engine`stmts, engine`conns
    {
      VmState(tables, Held(), engine.stmts, engine.conns)
    }

    /** The text a userdata is tracked under. */
    ghost function Sql(svm: SdbVm): string
      reads `tables
    {
      if svm.db in tables && svm in tables[svm.db] then tables[svm.db][svm] else ""
    }

    /** Every live statement is owned by exactly one userdata, and every open userdata is tracked. */
    ghost predicate Valid()
      reads this, engine`conns, engine`nextConn, engine`stmts, engine`nextStmt, engine`finalized, dbs`conn, vms`vm
    {
      && engine.Valid()
      && Connected(tables, Conns(), engine.conns)
      && HandlesOwned(engine.stmts, tables, Held(), Conns(), owner)
    }

    constructor (engine: Engine)
      requires engine.Valid() && engine.stmts == map[]
      ensures Valid() && dbs == {} && vms == {} && this.engine == engine
    {
      this.engine := engine;
      tables, dbs, vms, owner := map[], {}, {}, map[];
    }

    lemma OpenDatabase(db: Sdb)
      requires Valid() && (db in dbs || db in tables)
      ensures db in dbs && (db in tables <==> db.conn != 0)
      ensures db in tables ==> db.conn in engine.conns
      ensures db in tables ==> forall svm :: svm in tables[db] ==> svm in vms && svm.db == db
    {
      assert db in Conns() && Conns()[db] == db.conn;
      if db in tables {
        assert db in dbs;
        TrackedIsHeld(engine.stmts, tables, Held(), Conns(), owner, db);
      }
    }

    lemma OpenVm(svm: SdbVm)
      requires Valid() && svm in vms && svm.vm != 0
      ensures svm.vm in engine.stmts && engine.stmts[svm.vm].conn == svm.db.conn != 0
      ensures svm.db in dbs && svm.db in tables && svm in tables[svm.db]
      ensures tables[svm.db][svm] == engine.stmts[svm.vm].sql
    {
      assert Held()[svm] == svm.vm;
      assert TrackedAs(engine.stmts[svm.vm], svm, tables, Conns());
      assert svm.db in Conns();
    }

    /** The owner of a statement, and nobody else, holds it, and it is tracked. */
    ghost predicate HasOneOwner(s: int)
      reads `owner, `vms, `tables, vms`vm
    {
      && s in owner && owner[s] in vms && owner[s].vm == s
      && owner[s].db in tables && owner[s] in tables[owner[s].db]
      && forall svm :: svm in vms && svm.vm == s ==> svm == owner[s]
    }

    lemma Owner(s: int)
      requires Valid() && s in engine.stmts
      ensures HasOneOwner(s)
    {
      assert s in owner && owner[s] in Held() && Held()[owner[s]] == s;
      assert TrackedAs(engine.stmts[s], owner[s], tables, Conns());
      forall svm | svm in vms && svm.vm == s ensures svm == owner[s] {
        assert Held()[svm] == s && s != 0;
      }
    }

    lemma NoNullStatement()
      requires Valid()
      ensures 0 !in engine.stmts && 0 !in owner
    {
    }

    /** newvm: the userdata is tracked under its sql text before anything is prepared. */
    method NewVm(db: Sdb, sql: string, temp: bool) returns (svm: SdbVm)
      requires Valid() && db in tables
      modifies `tables, `vms
      ensures Valid() && fresh(svm) && svm.db == db && svm.vm == 0 && svm.temp == temp
      ensures vms == old(vms) + {svm} && Tracks(old(State()), State(), db, svm, sql)
    {
      hide Engine.Valid, Connected, HandlesOwned;
      TrackedIsHeld(engine.stmts, tables, Held(), Conns(), owner, db);
      svm := new SdbVm(db, temp);
      ghost var after := tables[db := tables[db][svm := sql]];
      NewKeeps(engine.stmts, tables, Held(), Conns(), owner, svm, sql);
      ConnectedByKeys(tables, after, Conns(), engine.conns);
      vms := vms + {svm};
      tables := tables[db := tables[db][svm := sql]];
      assert Held() == old(Held())[svm := 0];
      assert Conns() == old(Conns());
    }

    /** sqlite3_prepare into svm->vm, with the text svm is tracked under. */
    method PrepareInto(svm: SdbVm, sql: string) returns (code: int)
      requires Valid() && svm in vms && svm.vm == 0
      requires svm.db in tables && svm in tables[svm.db] && tables[svm.db][svm] == sql
      modifies svm`vm, `owner, engine`stmts, engine`nextStmt, engine`log
      ensures Valid()
      ensures Fills(old(State()), State(), svm, sql, svm.db.conn)
      ensures svm.vm == 0 <==> code != SQLITE_OK || !engine.compiles(sql)
      ensures engine.log == old(engine.log) + [PrepareCall(svm.db.conn, sql, code, svm.vm)]
    {
      hide Engine.Valid, HandlesOwned;
      assert svm.db in Conns();
      var s;
      code, s := engine.Prepare(svm.db.conn, sql);
      if s != 0 {
        AdoptKeeps(old(engine.stmts), tables, Held(), Conns(), owner, svm, s, Stmt(svm.db.conn, sql, map[]));
        owner := owner[s := svm];
      }
      svm.vm := s;
      assert Held() == old(Held())[svm := s];
      assert Conns() == old(Conns());
    }

    /** Finalizes the statement of a userdata, if it has one, and leaves the userdata without. */
    method FinalizeVm(svm: SdbVm) returns (code: int)
      requires Valid() && svm in vms
      modifies svm`vm, `owner, engine`stmts, engine`finalized, engine`log
      ensures Valid() && svm.vm == 0 && Loses(old(State()), State(), svm)
      ensures engine.finalized == old(engine.finalized) + if old(svm.vm) == 0 then [] else [old(svm.vm)]
      ensures engine.log == old(engine.log) + [FinalizeCall(old(svm.vm), code)]
    {
      hide Engine.Valid, Connected, HandlesOwned, TrackedAs;
      assert svm.vm == Held()[svm];
      if svm.vm != 0 {
        HeldIsLive(engine.stmts, tables, Held(), Conns(), owner, svm);
      }
      DropKeeps(engine.stmts, tables, Held(), Conns(), owner, svm);
      code := engine.Finalize(svm.vm);
      owner := owner - {svm.vm};
      svm.vm := 0;
      assert Held() == old(Held())[svm := 0];
      assert Conns() == old(Conns());
    }

    /** cleanupvm: untracks the userdata and finalizes its statement if it has one. */
    method CleanupVm(svm: SdbVm) returns (wasOpen: bool, code: int)
      requires Valid() && svm in vms && svm.db in tables
      modifies svm, `tables, `owner, engine`stmts, engine`finalized, engine`log
      ensures Valid() && svm.vm == 0 && svm.columns == 0 && !svm.hasValues && svm.temp == old(svm.temp)
      ensures CleansUp(old(State()), State(), svm)
      ensures wasOpen <==> old(svm.vm) != 0
      ensures engine.finalized == old(engine.finalized) + if wasOpen then [old(svm.vm)] else []
      ensures engine.log == old(engine.log) + if wasOpen then [FinalizeCall(old(svm.vm), code)] else []
    {
      NoNullStatement();
      hide Engine.Valid, Connected, HandlesOwned, TrackedAs;
      assert svm.vm == Held()[svm];
      CleanupKeeps(engine.stmts, tables, Held(), Conns(), owner, engine.conns, svm);
      tables := tables[svm.db := tables[svm.db] - {svm}];
      assert Held() == old(Held()) && Conns() == old(Conns());
      wasOpen, code := Vacate(svm);
    }

    /** Clears the fields of a userdata and finalizes its statement. */
    method Vacate(svm: SdbVm) returns (wasOpen: bool, code: int)
      requires engine.Valid() && svm in vms && (svm.vm == 0 || svm.vm in engine.stmts) && 0 !in engine.stmts
      requires 0 !in owner
      modifies svm, `owner, engine`stmts, engine`finalized, engine`log
      ensures engine.Valid() && svm.vm == 0 && svm.columns == 0 && !svm.hasValues && svm.temp == old(svm.temp)
      ensures Held() == old(Held())[svm := 0] && Conns() == old(Conns())
      ensures engine.stmts == old(engine.stmts) - {old(svm.vm)} && owner == old(owner) - {old(svm.vm)}
      ensures wasOpen <==> old(svm.vm) != 0
      ensures engine.finalized == old(engine.finalized) + if wasOpen then [old(svm.vm)] else []
      ensures engine.log == old(engine.log) + if wasOpen then [FinalizeCall(old(svm.vm), code)] else []
    {
      hide Engine.Valid;
      svm.columns := 0;
      svm.hasValues := false;
      wasOpen, code := svm.vm != 0, SQLITE_OK;
      if wasOpen {
        code := engine.Finalize(svm.vm);
        owner := owner - {svm.vm};
        svm.vm := 0;
      }
      assert Held() == old(Held())[svm := 0] && Conns() == old(Conns());
    }

    /** Moves the bindings to the new statement, finalizes the old one and makes the new one svm's own. */
    method Supersede(svm: SdbVm, vn: int, ghost stmts: map<int, Stmt>) returns (ghost ignored: int)
      requires engine.Valid() && svm in vms && svm.vm in stmts && vn != 0 && vn !in stmts
      requires HandlesOwned(stmts, tables, Held(), Conns(), owner)
      requires engine.stmts == stmts[vn := stmts[svm.vm].(bindings := map[])]
      modifies svm`vm, `owner, engine`stmts, engine`finalized, engine`log
      ensures engine.Valid() && svm.vm == vn
      ensures Held() == old(Held())[svm := vn]
      ensures engine.stmts == (stmts - {old(svm.vm)})[vn := stmts[old(svm.vm)]]
      ensures engine.finalized == old(engine.finalized) + [old(svm.vm)]
      ensures engine.log == old(engine.log) + [FinalizeCall(old(svm.vm), ignored)]
      ensures Conns() == old(Conns()) && HandlesOwned(engine.stmts, tables, Held(), Conns(), owner)
    {
      hide Engine.Valid, TrackedAs;
      var h := svm.vm;
      assert h == Held()[svm];
      SwapKeeps(stmts, tables, Held(), Conns(), owner, svm, vn);
      SwappedStatements(stmts, h, vn, engine.stmts[vn]);
      hide HandlesOwned;
      engine.TransferBindings(h, vn);
      var code := engine.Finalize(h);
      ignored := code;
      owner := (owner - {h})[vn := svm];
      svm.vm := vn;
      assert Held() == old(Held())[svm := vn];
      assert Conns() == old(Conns());
    }

    /** The re-prepare inside stepvm: a new statement takes over the text and the bindings of the old one. */
    method Reprepare(svm: SdbVm) returns (code: int, ghost ignored: int)
      requires Valid() && svm in vms && svm.vm != 0
      modifies svm`vm, `owner, engine`stmts, engine`nextStmt, engine`finalized, engine`log
      ensures Valid() && svm.vm != 0 && old(engine.nextStmt) <= engine.nextStmt
      ensures code != SQLITE_OK ==> State() == old(State()) && svm.vm == old(svm.vm)
      ensures code == SQLITE_OK ==> GoesOn(old(State()), State(), svm) && svm.vm >= old(engine.nextStmt)
      ensures engine.finalized == old(engine.finalized) + if code == SQLITE_OK then [old(svm.vm)] else []
      ensures engine.log == old(engine.log) +
        if code == SQLITE_OK
        then [PrepareCall(svm.db.conn, Sql(svm), code, svm.vm), FinalizeCall(old(svm.vm), ignored)]
        else [PrepareCall(svm.db.conn, Sql(svm), code, 0)]
    {
      hide Engine.Valid, Connected, HandlesOwned;
      OpenVm(svm);
      engine.LiveStatement(svm.vm);
      var sql := tables[svm.db][svm];
      var vn;
      ignored := SQLITE_OK;
      code, vn := engine.Prepare(svm.db.conn, sql);
      if code == SQLITE_OK {
        ignored := Supersede(svm, vn, old(engine.stmts));
      }
    }

    /** The calls made so far, which are all that have been made since `before`. */
    ghost predicate Asking(svm: SdbVm, before: seq<Call>, calls: seq<Call>, h: int, sql: string)
      reads engine`log, svm`vm, svm.db`conn, `tables
    {
      && engine.log == before + calls && Chain(calls, h, svm.db.conn, sql) && svm.vm == Current(calls, h)
      && Sql(svm) == sql
    }

    /** sqlite3_step, and the reset that looks into an error. */
    method Ask(svm: SdbVm, ghost before: seq<Call>, ghost calls: seq<Call>, ghost h: int, ghost sql: string)
      returns (result: int, ghost more: seq<Call>)
      requires svm.vm in engine.stmts && Asking(svm, before, calls, h, sql)
      requires calls != [] ==> calls[|calls| - 1].FinalizeCall?
      modifies engine`log
      ensures Asking(svm, before, more, h, sql) && more != []
      ensures Tries(more) == Tries(calls) + 1 && Replaced(more) == Replaced(calls) && result == Answer(more)
      ensures if result == SQLITE_SCHEMA then SchemaChanged(more[|more| - 1]) else IsFinal(more[|more| - 1])
    {
      hide Chain, Tries, Replaced, Current, Answer, Sql;
      result := engine.Step(svm.vm);
      Asked(calls, StepCall(svm.vm, result), h, svm.db.conn, sql);
      more := calls + [StepCall(svm.vm, result)];
      if result == SQLITE_ERROR {
        result := engine.Reset(svm.vm);
        Asked(more, ResetCall(svm.vm, result), h, svm.db.conn, sql);
        more := more + [ResetCall(svm.vm, result)];
      }
    }

    /** The branch of stepvm for a changed schema. */
    method Renew(svm: SdbVm, ghost before: seq<Call>, ghost calls: seq<Call>, ghost h: int, ghost sql: string)
      returns (code: int, ghost more: seq<Call>)
      requires Valid() && svm in vms && svm.vm != 0 && Asking(svm, before, calls, h, sql)
      requires calls != [] && SchemaChanged(calls[|calls| - 1])
      modifies svm`vm, `owner, engine`stmts, engine`nextStmt, engine`finalized, engine`log
      ensures Valid() && svm.vm != 0 && old(engine.nextStmt) <= engine.nextStmt && more != []
      ensures code != SQLITE_OK ==> State() == old(State()) && IsFinal(more[|more| - 1])
      ensures code == SQLITE_OK ==> GoesOn(old(State()), State(), svm) && svm.vm >= old(engine.nextStmt)
      ensures code == SQLITE_OK ==> more[|more| - 1].FinalizeCall?
      ensures |engine.finalized| == |old(engine.finalized)| + Replaced(more) - Replaced(calls)
      ensures Asking(svm, before, more, h, sql) && code == Answer(more) && Tries(more) == Tries(calls)
      ensures Replaced(more) == Replaced(calls) + if code == SQLITE_OK then 1 else 0
    {
      hide Valid, GoesOn, Chain, Tries, Replaced, Current, Answer, Sql;
      ghost var held := svm.vm;
      ghost var ignored;
      code, ignored := Reprepare(svm);
      ghost var prepared := PrepareCall(svm.db.conn, sql, code, if code == SQLITE_OK then svm.vm else 0);
      Asked(calls, prepared, h, svm.db.conn, sql);
      more := calls + [prepared];
      if code == SQLITE_OK {
        Asked(more, FinalizeCall(held, ignored), h, svm.db.conn, sql);
        more := more + [FinalizeCall(held, ignored)];
      }
      assert engine.log == before + more;
    }

    /**
     * stepvm. The calls follow each other as SQLite's answers demand and the result is the last of these answers;
     * the userdata keeps a statement of the same text and bindings, the very same one unless it was replaced.
     */
    method StepVm(svm: SdbVm) returns (result: int, ghost calls: seq<Call>)
      requires Valid() && svm in vms && svm.vm != 0
      modifies svm`vm, `owner, engine`stmts, engine`nextStmt, engine`finalized, engine`log
      ensures Valid() && svm.vm != 0 && GoesOn(old(State()), State(), svm)
      ensures engine.log == old(engine.log) + calls && calls != []
      ensures Stepping(calls, old(svm.vm), svm.db.conn, old(Sql(svm)))
      ensures result == Answer(calls) && svm.vm == Current(calls, old(svm.vm))
      ensures |engine.finalized| == |old(engine.finalized)| + Replaced(calls)
      ensures Replaced(calls) == 0 ==> State() == old(State())
      ensures calls[0].StepCall? && calls[0].stmt == old(svm.vm)
      ensures calls[0].code != SQLITE_ERROR && calls[0].code != SQLITE_SCHEMA ==>
        result == calls[0].code && State() == old(State()) && engine.log == old(engine.log) + [calls[0]]
    {
      hide Valid, GoesOn, Chain, Tries, Replaced, Current, Answer, Sql;
      OpenVm(svm);
      GoesOnUnchanged(State(), svm);
      UsedHandles();
      result := SQLITE_OK;
      var loopLimit := 3;
      ghost var was, used, h, sql, before := State(), engine.nextStmt, svm.vm, Sql(svm), engine.log;
      calls := [];
      NothingAsked(h, svm.db.conn, sql);
      while loopLimit > 0
        invariant 0 <= loopLimit <= 3 && Tries(calls) == Replaced(calls) == 3 - loopLimit
        invariant Valid() && svm.vm != 0 && used <= engine.nextStmt && Asking(svm, before, calls, h, sql)
        invariant GoesOn(was, State(), svm) && (loopLimit == 3 ==> State() == was)
        invariant if loopLimit == 3 then calls == [] else calls != [] && calls[|calls| - 1].FinalizeCall?
        invariant result == Answer(calls) && |engine.finalized| == |old(engine.finalized)| + Replaced(calls)
      {
        loopLimit := loopLimit - 1;
        OpenVm(svm);
        result, calls := Ask(svm, before, calls, h, sql);
        if result != SQLITE_SCHEMA {
          break;
        }
        ghost var now := State();
        result, calls := Renew(svm, before, calls, h, sql);
        if result != SQLITE_OK {
          break;
        }
        GoesOnAgain(was, now, State(), svm);
      }
      FirstAnswerDecides(calls, h, svm.db.conn, sql);
    }

    lemma NothingAsked(h: int, conn: int, sql: string)
      ensures Chain([], h, conn, sql) && Current([], h) == h
      ensures Tries([]) == Replaced([]) == 0 && Answer([]) == SQLITE_OK
    {
    }

    lemma UsedHandles()
      requires Valid()
      ensures forall s :: s in engine.stmts ==> s < engine.nextStmt
    {
    }

    // ---- The Lua-visible operations ---------------------------------------------------------

    /** db:prepare, and with `temp` the statement behind db:rows. A failed prepare leaves no trace. */
    method DbPrepare(db: Sdb, sql: string, temp: bool) returns (r: PrepareResult)
      requires Valid() && db in dbs
      modifies `tables, `vms, `owner, engine`stmts, engine`nextStmt, engine`finalized, engine`log
      ensures Valid() && old(vms) <= vms && fresh(vms - old(vms))
      ensures r == DatabaseClosed <==> db.conn == 0
      ensures r == DatabaseClosed ==> engine.log == old(engine.log)
      ensures r.Failed? ==>
        r.code != SQLITE_OK && engine.log == old(engine.log) + [PrepareCall(db.conn, sql, r.code, 0)]
      ensures r.Prepared? ==> engine.log == old(engine.log) + [PrepareCall(db.conn, sql, SQLITE_OK, r.svm.vm)]
      ensures !r.Prepared? ==> AddsNothing(old(State()), State())
      ensures r.Prepared? ==>
        && fresh(r.svm) && r.svm in vms && r.svm.db == db && r.svm.temp == temp
        && (r.svm.vm == 0 <==> !engine.compiles(sql))
        && Adds(old(State()), State(), db, r.svm, sql, db.conn)
    {
      hide Valid;
      if db.conn == 0 {
        return DatabaseClosed;
      }
      OpenDatabase(db);
      NoNullStatement();
      ghost var was := State();
      var svm := NewVm(db, sql, temp);
      ghost var tracked := State();
      var code := PrepareInto(svm, sql);
      if code != SQLITE_OK {
        assert State() == tracked;
        var wasOpen, _ := CleanupVm(svm);
        TracksAndCleansUp(was, tracked, State(), db, svm, sql);
        return Failed(code);
      }
      TracksAndFills(was, tracked, State(), db, svm, sql, db.conn);
      return Prepared(svm);
    }

    /** The end of the rows of a temporary: finalized, then cleaned up. */
    method EndTemporary(svm: SdbVm, ghost was: VmState) returns (code: int)
      requires Valid() && svm in vms && svm.vm != 0 && GoesOn(was, State(), svm)
      modifies svm, `tables, `owner, engine`stmts, engine`finalized, engine`log
      ensures Valid() && svm.temp == old(svm.temp) && Drops(was, State(), svm)
      ensures engine.log == old(engine.log) + [FinalizeCall(old(svm.vm), code)]
    {
      hide Valid, GoesOn, Loses, CleansUp, Drops;
      OpenVm(svm);
      ghost var stepped := State();
      assert was.tables == tables by { SameTables(was, stepped, svm); }
      code := FinalizeVm(svm);
      ghost var finalized := State();
      assert finalized.tables == stepped.tables by { LosesNoTables(stepped, finalized, svm); }
      NoNullStatement();
      var wasOpen, _ := CleanupVm(svm);
      GoesOnThenDrops(was, stepped, finalized, State(), svm);
    }

    /** db_do_next_row: the iterator behind db:rows and stmt:rows. */
    method DoNextRow(svm: SdbVm) returns (r: RowResult)
      requires Valid() && svm in vms
      modifies svm, `tables, `owner, engine`stmts, engine`nextStmt, engine`finalized, engine`log
      ensures Valid() && svm.temp == old(svm.temp)
      ensures r == ClosedVm <==> old(svm.vm) == 0
      ensures r == ClosedVm ==> State() == old(State()) && engine.log == old(engine.log)
      ensures r != ClosedVm ==>
        && old(engine.log) <= engine.log
        && Fetches(engine.log[|old(engine.log)|..], old(svm.vm), svm.db.conn, old(Sql(svm)), svm.temp, r)
      ensures r.Row? ==> svm.hasValues && r.columns == svm.columns
      ensures r != ClosedVm && (r.Row? || !svm.temp) ==> GoesOn(old(State()), State(), svm)
      ensures r != ClosedVm && !r.Row? && svm.temp ==> Drops(old(State()), State(), svm)
    {
      hide Valid, GoesOn, Loses, CleansUp, Drops, Stepping, Current, Answer;
      if svm.vm == 0 {
        return ClosedVm;
      }
      OpenVm(svm);
      ghost var was, sql := State(), Sql(svm);
      var result, calls := StepVm(svm);
      OpenVm(svm);
      svm.hasValues := result == SQLITE_ROW;
      svm.columns := engine.DataCount(svm.vm);
      ghost var rest, held := [CountCall(svm.vm, svm.columns)], svm.vm;
      if result == SQLITE_ROW {
        r := Row(svm.columns);
      } else {
        if svm.temp {
          result := EndTemporary(svm, was);
          rest := rest + [FinalizeCall(held, result)];
        } else if result == SQLITE_DONE {
          result := engine.Reset(svm.vm);
          rest := rest + [ResetCall(held, result)];
        }
        r := if result != SQLITE_OK then Raised else End;
      }
      assert engine.log == old(engine.log) + calls + rest;
      SinceThen(old(engine.log), calls, rest);
      assert FetchesAt(calls + rest, |calls|, old(svm.vm), svm.db.conn, sql, svm.temp, r);
    }

    /** stmt:step. */
    method VmStep(svm: SdbVm) returns (wasOpen: bool, result: int)
      requires Valid() && svm in vms
      modifies svm, `owner, engine`stmts, engine`nextStmt, engine`finalized, engine`log
      ensures Valid() && svm.temp == old(svm.temp)
      ensures wasOpen <==> old(svm.vm) != 0
      ensures !wasOpen ==> State() == old(State()) && engine.log == old(engine.log)
      ensures wasOpen ==> (svm.hasValues <==> result == SQLITE_ROW) && GoesOn(old(State()), State(), svm)
      ensures wasOpen ==>
        && old(engine.log) <= engine.log
        && StepsAndCounts(engine.log[|old(engine.log)|..], old(svm.vm), svm.db.conn, old(Sql(svm)), result, svm.columns)
    {
      hide Valid, GoesOn, Stepping, Current, Answer;
      wasOpen, result := svm.vm != 0, SQLITE_OK;
      if wasOpen {
        ghost var calls;
        result, calls := StepVm(svm);
        OpenVm(svm);
        svm.hasValues := result == SQLITE_ROW;
        svm.columns := engine.DataCount(svm.vm);
        SinceThen(old(engine.log), calls, [CountCall(svm.vm, svm.columns)]);
      }
    }

    /** stmt:finalize, and the collector's finalizer: a userdata that is already closed is left alone. */
    method VmClose(svm: SdbVm) returns (wasOpen: bool, code: int)
      requires Valid() && svm in vms
      modifies svm, `tables, `owner, engine`stmts, engine`finalized, engine`log
      ensures Valid() && svm.vm == 0 && svm.temp == old(svm.temp)
      ensures wasOpen <==> old(svm.vm) != 0
      ensures if wasOpen then Drops(old(State()), State(), svm) else State() == old(State())
      ensures engine.finalized == old(engine.finalized) + if wasOpen then [old(svm.vm)] else []
      ensures engine.log == old(engine.log) + if wasOpen then [FinalizeCall(old(svm.vm), code)] else []
    {
      hide Valid;
      if svm.vm == 0 {
        return false, SQLITE_OK;
      }
      OpenVm(svm);
      wasOpen, code := CleanupVm(svm);
    }

    /** Those of some userdata that db:close_vm is meant for. */
    ghost function Selected(svms: set<SdbVm>, temp: bool): set<SdbVm>
      reads svms`temp
    {
      set svm | svm in svms && (!temp || svm.temp)
    }

    ghost function Chosen(db: Sdb, temp: bool): set<SdbVm>
      requires db in tables
      reads `tables, tables[db].Keys`temp
    {
      Selected(tables[db].Keys, temp)
    }

    lemma NoneSelected(temp: bool)
      ensures Selected({}, temp) == {}
    {
    }

    lemma SelectedNext(done: set<SdbVm>, svm: SdbVm, temp: bool)
      ensures Selected(done + {svm}, temp)
           == if !temp || svm.temp then Selected(done, temp) + {svm} else Selected(done, temp)
    {
    }

    lemma AllEmptied(was: VmState, db: Sdb, temp: bool)
      requires db in tables && Empties(was, State(), Chosen(db, temp))
      ensures forall svm :: svm in vms ==>
        svm in was.held && svm.vm == if svm in tables[db] && (!temp || svm.temp) then 0 else was.held[svm]
    {
      assert forall svm :: svm in vms ==> svm in State().held && State().held[svm] == svm.vm;
    }

    /** db:close_vm: finalizes what the database tracks, or only its temporaries, and keeps tracking it. */
    method DbCloseVm(db: Sdb, temp: bool)
      requires Valid() && db in tables
      modifies vms`vm, `owner, engine`stmts, engine`finalized, engine`log
      ensures Valid()
      ensures forall svm :: svm in vms ==>
        svm.vm == if svm in tables[db] && (!temp || svm.temp) then 0 else old(svm.vm)
      ensures Empties(old(State()), State(), Chosen(db, temp))
    {
      hide Valid, Empties, Loses, Selected;
      OpenDatabase(db);
      NothingEmptied(State());
      var todo := tables[db].Keys;
      ghost var was := State();
      assert tables[db].Keys - todo == {};
      NoneSelected(temp);
      while todo != {}
        invariant Valid() && todo <= tables[db].Keys <= vms
        invariant Empties(was, State(), Selected(tables[db].Keys - todo, temp))
        decreases |todo|
      {
        var svm :| svm in todo;
        ghost var done := tables[db].Keys - todo;
        assert tables[db].Keys - (todo - {svm}) == done + {svm};
        CloseIfSelected(svm, temp, was, done);
        todo := todo - {svm};
      }
      assert tables[db].Keys - todo == tables[db].Keys;
      AllEmptied(was, db, temp);
    }

    /** One turn of the loop of db:close_vm; `done` are the userdata of the turns before. */
    method CloseIfSelected(svm: SdbVm, temp: bool, ghost was: VmState, ghost done: set<SdbVm>)
      requires Valid() && svm in vms && svm !in done && Empties(was, State(), Selected(done, temp))
      modifies svm`vm, `owner, engine`stmts, engine`finalized, engine`log
      ensures Valid() && Empties(was, State(), Selected(done + {svm}, temp))
    {
      hide Valid, Empties, Loses, Selected;
      SelectedNext(done, svm, temp);
      if !temp || svm.temp {
        NoNullStatement();
        ghost var now := State();
        NotDone(was, now, done, temp, svm);
        if svm.vm != 0 {
          var code := FinalizeVm(svm);
        }
        EmptiesOne(was, now, State(), Selected(done, temp), svm);
      }
    }

    lemma NotDone(was: VmState, now: VmState, done: set<SdbVm>, temp: bool, svm: SdbVm)
      requires Empties(was, now, Selected(done, temp)) && svm !in done && svm in now.held
      ensures svm in was.held && svm !in Selected(done, temp) && now.held[svm] == was.held[svm]
    {
    }

    /** The loop of cleanupdb: cleans up the first tracked userdata until the table is empty. */
    method CloseStatements(db: Sdb)
      requires Valid() && db in tables
      modifies this`tables, `owner, vms, engine`stmts, engine`finalized, engine`log
      ensures Valid()
      ensures db in tables && tables[db] == map[] && Emptied(old(State()), State(), db, db.conn)
      ensures old(engine.finalized) <= engine.finalized && old(engine.log) <= engine.log
    {
      hide Valid, ClosesSome, Emptied, CleansUp;
      ghost var was := State();
      NothingClosed(was, db, db.conn);
      while tables[db] != map[]
        invariant Valid() && db in tables && ClosesSome(was, State(), db, db.conn)
        invariant old(engine.finalized) <= engine.finalized && old(engine.log) <= engine.log
        decreases tables[db].Keys
      {
        OpenDatabase(db);
        NoNullStatement();
        var svm :| svm in tables[db];
        if svm.vm != 0 {
          OpenVm(svm);
        }
        ghost var now := State();
        var wasOpen, _ := CleanupVm(svm);
        ClosesOne(was, now, State(), db, db.conn, svm);
        Shrinks(now, State(), db, svm);
      }
      NothingLive(db);
      ClosesAll(was, State(), db, db.conn);
    }

    lemma NothingLive(db: Sdb)
      requires Valid() && db in tables && tables[db] == map[]
      ensures forall s :: s in engine.stmts ==> engine.stmts[s].conn != db.conn
    {
      OpenDatabase(db);
      assert Conns()[db] == db.conn;
      NothingTrackedNothingLive(engine.stmts, tables, Held(), Conns(), owner, engine.conns, db);
    }

    lemma OpenedMeans(was: VmState, db: Sdb)
      requires Opened(was, State(), db, db.conn)
      ensures db in tables && tables[db] == map[]
    {
    }

    lemma SameHeld(was: VmState)
      requires State().held == was.held
      ensures forall svm :: svm in vms ==> svm in was.held && svm.vm == was.held[svm]
    {
      assert forall svm :: svm in vms ==> svm in State().held && State().held[svm] == svm.vm;
    }

    /** No userdata of a database that tracks nothing holds a statement. */
    lemma NothingHeld(db: Sdb)
      requires Valid() && db in tables && tables[db] == map[]
      ensures forall svm :: svm in Held() && svm.db == db ==> Held()[svm] == 0
    {
      forall svm | svm in vms && svm.db == db ensures svm.vm == 0 {
        if svm.vm != 0 {
          OpenVm(svm);
        }
      }
    }

    /** The registry entry goes, then the connection; `was` is the state before the statements were closed. */
    method Disconnect(db: Sdb, ghost was: VmState) returns (result: int)
      requires Valid() && db in tables && tables[db] == map[] && Emptied(was, State(), db, db.conn)
      modifies `tables, db`conn, engine`conns, engine`log
      ensures Valid() && db.conn == 0 && result == SQLITE_OK
      ensures engine.log == old(engine.log) + [CloseCall(old(db.conn), SQLITE_OK)]
      ensures CleanedUp(was, State(), db, old(db.conn))
    {
      hide Engine.Valid, HandlesOwned, Connected, ClosesOnly;
      OpenDatabase(db);
      ghost var conns, held, conn := Conns(), Held(), db.conn;
      assert conns[db] == db.conn;
      NothingTrackedNothingLive(engine.stmts, tables, held, conns, owner, engine.conns, db);
      ForgetKeeps(engine.stmts, tables, held, conns, owner, engine.conns, db);
      tables := tables - {db};
      result := engine.Close(db.conn);
      db.conn := 0;
      assert Conns() == conns[db := 0] && Held() == held;
      IsCleanedUp(was, db, conn);
    }

    lemma IsCleanedUp(was: VmState, db: Sdb, conn: int)
      requires Valid() && db in was.tables
      requires tables == was.tables[db := map[]] - {db} && engine.conns == was.conns - {conn}
      requires ClosesOnly(was.held, was.stmts, Held(), engine.stmts, db, conn)
      ensures CleanedUp(was, State(), db, conn)
    {
      assert tables == was.tables - {db};
      forall svm | svm in vms && svm.db == db ensures svm.vm == 0 {
        if svm.vm != 0 {
          OpenVm(svm);
        }
      }
    }

    /** newdb and sqlite3_open together: the database is tracked from the moment it has a connection. */
    method NewDb() returns (db: Sdb, code: int)
      requires Valid()
      modifies `tables, `dbs, engine`conns, engine`nextConn, engine`log
      ensures Valid() && fresh(db) && dbs == old(dbs) + {db} && db.callbacks == NO_CALLBACKS && db.func == null
      ensures engine.log == old(engine.log) + [OpenCall(code, db.conn)]
      ensures db.conn == 0 ==> code != SQLITE_OK
      ensures db.conn != 0 ==> db !in old(tables) && db.conn !in old(engine.conns)
      ensures db.conn == 0 ==> State() == old(State())
      ensures db.conn != 0 ==> Opened(old(State()), State(), db, db.conn)
    {
      hide Engine.Valid, HandlesOwned, Connected;
      db := new Sdb();
      var conn;
      code, conn := engine.Open();
      OpenKeeps(engine.stmts, tables, Held(), Conns(), owner, old(engine.conns), db, conn);
      tables := if conn == 0 then tables else tables[db := map[]];
      assert Held() == old(Held()) && Conns() == old(Conns());
      Adopt(db, conn);
    }

    /** The userdata gets its connection. */
    method Adopt(db: Sdb, conn: int)
      requires db !in dbs
      modifies `dbs, db`conn
      ensures dbs == old(dbs) + {db} && db.conn == conn
      ensures Held() == old(Held()) && Conns() == old(Conns())[db := conn]
    {
      dbs := dbs + {db};
      db.conn := conn;
      assert Conns() == old(Conns())[db := conn];
    }
  }
}
