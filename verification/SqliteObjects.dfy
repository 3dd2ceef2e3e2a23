/** The C structures of lsqlite3.c. */
module SqliteObjects {
  import opened RefTables

  /** The callbacks a database can have. */
  datatype Hook = Busy | Progress | Trace | Update | Commit | Rollback

  /** The two reference fields of one callback. */
  datatype CallbackRefs = CallbackRefs(cb: int, udata: int)

  /** The three reference fields of a registered function. */
  datatype FuncRefs = FuncRefs(fnStep: int, fnFinalize: int, udata: int)

  const NO_CALLBACK := CallbackRefs(LUA_NOREF, LUA_NOREF)

  const NO_CALLBACKS: map<Hook, CallbackRefs> :=
    map[Busy := NO_CALLBACK, Progress := NO_CALLBACK, Trace := NO_CALLBACK,
        Update := NO_CALLBACK, Commit := NO_CALLBACK, Rollback := NO_CALLBACK]

  /** struct sdb_func: never changed once it is on the list of its database. */
  class SdbFunc {
    const refs: FuncRefs
    const aggregate: bool
    const next: SdbFunc?

    constructor (refs: FuncRefs, aggregate: bool, next: SdbFunc?)
      ensures this.refs == refs && this.aggregate == aggregate && this.next == next
    {
      this.refs, this.aggregate, this.next := refs, aggregate, next;
    }
  }

  /** struct sdb: the connection, 0 while the database is closed, and the references it holds. */
  class Sdb {
    var conn: int
    var callbacks: map<Hook, CallbackRefs>
    var func: SdbFunc?

    constructor ()
      ensures conn == 0 && callbacks == NO_CALLBACKS && func == null
    {
      conn, callbacks, func := 0, NO_CALLBACKS, null;
    }
  }

  /** struct sdb_vm. */
  class SdbVm {
    const db: Sdb
    var vm: int
    var columns: nat
    var hasValues: bool
    var temp: bool

    constructor (db: Sdb, temp: bool)
      ensures this.db == db && vm == 0 && columns == 0 && !hasValues && this.temp == temp
    {
      this.db := db;
      vm, columns, hasValues, this.temp := 0, 0, false, temp;
    }
  }
}
