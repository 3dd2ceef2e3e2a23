/** Which database field holds which reference, as a relation between plain maps. */
module ReferenceOwnership {
  import opened LuaValues
  import opened RefTables
  import opened SqliteObjects

  /** The references one database holds; functions in the order of their registration. */
  datatype DbRefs = DbRefs(callbacks: map<Hook, CallbackRefs>, funcs: seq<FuncRefs>)

  /** A field that holds a reference. */
  datatype Place = Cb(h: Hook) | Ud(h: Hook) | FnStep(n: nat) | FnFinalize(n: nat) | FnUdata(n: nat)

  predicate HasPlace(d: DbRefs, p: Place) {
    match p
    case Cb(h) => h in d.callbacks
    case Ud(h) => h in d.callbacks
    case FnStep(n) => n < |d.funcs|
    case FnFinalize(n) => n < |d.funcs|
    case FnUdata(n) => n < |d.funcs|
  }

  function RefAt(d: DbRefs, p: Place): int
    requires HasPlace(d, p)
  {
    match p
    case Cb(h) => d.callbacks[h].cb
    case Ud(h) => d.callbacks[h].udata
    case FnStep(n) => d.funcs[n].fnStep
    case FnFinalize(n) => d.funcs[n].fnFinalize
    case FnUdata(n) => d.funcs[n].udata
  }

  function WithRef(d: DbRefs, p: Place, ref: int): (r: DbRefs)
    requires HasPlace(d, p)
    ensures forall q :: HasPlace(r, q) <==> HasPlace(d, q)
    ensures forall q :: HasPlace(d, q) ==> RefAt(r, q) == if p == q then ref else RefAt(d, q)
  {
    match p
    case Cb(h) => d.(callbacks := d.callbacks[h := d.callbacks[h].(cb := ref)])
    case Ud(h) => d.(callbacks := d.callbacks[h := d.callbacks[h].(udata := ref)])
    case FnStep(n) => d.(funcs := d.funcs[n := d.funcs[n].(fnStep := ref)])
    case FnFinalize(n) => d.(funcs := d.funcs[n := d.funcs[n].(fnFinalize := ref)])
    case FnUdata(n) => d.(funcs := d.funcs[n := d.funcs[n].(udata := ref)])
  }

  type Snapshot = map<Sdb, DbRefs>
  type Owners = map<int, (Sdb, Place)>

  /**
   * The non-negative references in the fields of the open databases are live and pairwise distinct:
   * each belongs to exactly one field.
   */
  ghost predicate Owned(live: map<int, Value>, snap: Snapshot, owner: Owners) {
    && (forall r :: r in owner ==> r >= 0 && r in live && owner[r].0 in snap)
    && (forall r :: r in owner ==>
      HasPlace(snap[owner[r].0], owner[r].1) && RefAt(snap[owner[r].0], owner[r].1) == r)
    && (forall db, p :: db in snap && HasPlace(snap[db], p) && RefAt(snap[db], p) >= 0 ==>
      RefAt(snap[db], p) in owner && owner[RefAt(snap[db], p)] == (db, p))
  }

  // ---- What the fields stand for --------------------------------------------------------------

  function ValueOf(live: map<int, Value>, ref: int): Value {
    if ref in live then live[ref] else Nil
  }

  /** What the program last put into each field; a field it never filled stands for nil. */
  type Values = map<(Sdb, Place), Value>

  function Said(shows: Values, db: Sdb, p: Place): Value {
    if (db, p) in shows then shows[(db, p)] else Nil
  }

  /** Each field of each open database resolves to the latest value put there. */
  ghost predicate Shows(live: map<int, Value>, snap: Snapshot, shows: Values) {
    && (forall db, p :: db in snap && HasPlace(snap[db], p) ==> ValueOf(live, RefAt(snap[db], p)) == Said(shows, db, p))
    && (forall k :: k in shows ==> k.0 in snap && HasPlace(snap[k.0], k.1))
  }

  /** References are positive, and apart from the released ones each keeps its owner and its value. */
  ghost predicate Kept(live: map<int, Value>, owner: Owners, live': map<int, Value>, owner': Owners,
                       released: set<int>)
  {
    && (forall r :: r in live ==> r >= 1) && (forall r :: r in live' ==> r >= 1)
    && (forall r :: r in owner && r !in released ==>
      r in owner' && owner'[r] == owner[r] && ValueOf(live', r) == ValueOf(live, r))
  }

  lemma UntouchedShow(live: map<int, Value>, snap: Snapshot, owner: Owners, live': map<int, Value>, owner': Owners,
                      released: set<int>, db: Sdb, p: Place)
    requires Owned(live, snap, owner) && Kept(live, owner, live', owner', released)
    requires db in snap && HasPlace(snap[db], p) && (RefAt(snap[db], p) in released ==> RefAt(snap[db], p) < 0)
    ensures ValueOf(live', RefAt(snap[db], p)) == ValueOf(live, RefAt(snap[db], p))
  {
  }

  /** What changes when one callback does: only its two places. */
  lemma HookPlaces(d: DbRefs, h: Hook, refs: CallbackRefs, p: Place)
    requires h in d.callbacks
    ensures var after := d.(callbacks := d.callbacks[h := refs]);
      && (HasPlace(after, p) <==> HasPlace(d, p))
      && (HasPlace(d, p) ==>
        RefAt(after, p) == if p == Cb(h) then refs.cb else if p == Ud(h) then refs.udata else RefAt(d, p))
  {
  }

  /** A callback field changes; every other field shows what it showed. */
  lemma HookShows(live: map<int, Value>, snap: Snapshot, owner: Owners, live': map<int, Value>, owner': Owners,
                  db: Sdb, h: Hook, refs: CallbackRefs, shows: Values)
    requires Owned(live, snap, owner) && Shows(live, snap, shows) && db in snap && h in snap[db].callbacks
    requires Kept(live, owner, live', owner', {snap[db].callbacks[h].cb, snap[db].callbacks[h].udata})
    ensures Shows(live', snap[db := snap[db].(callbacks := snap[db].callbacks[h := refs])],
                  shows[(db, Cb(h)) := ValueOf(live', refs.cb)][(db, Ud(h)) := ValueOf(live', refs.udata)])
  {
    hide Owned, Kept, ValueOf;
    var after := snap[db := snap[db].(callbacks := snap[db].callbacks[h := refs])];
    var shows' := shows[(db, Cb(h)) := ValueOf(live', refs.cb)][(db, Ud(h)) := ValueOf(live', refs.udata)];
    assert RefAt(snap[db], Cb(h)) == snap[db].callbacks[h].cb && RefAt(snap[db], Ud(h)) == snap[db].callbacks[h].udata;
    assert HasPlace(snap[db], Cb(h)) && HasPlace(snap[db], Ud(h));
    hide HasPlace, RefAt;
    forall p ensures var d := snap[db].(callbacks := snap[db].callbacks[h := refs]);
      && (HasPlace(d, p) <==> HasPlace(snap[db], p))
      && (HasPlace(d, p) ==>
        RefAt(d, p) == if p == Cb(h) then refs.cb else if p == Ud(h) then refs.udata else RefAt(snap[db], p))
    {
      HookPlaces(snap[db], h, refs, p);
    }
    forall d, p | d in after && HasPlace(after[d], p) ensures ValueOf(live', RefAt(after[d], p)) == Said(shows', d, p) {
      if !(d == db && (p == Cb(h) || p == Ud(h))) {
        var r := RefAt(snap[d], p);
        if r >= 0 && (r == snap[db].callbacks[h].cb || r == snap[db].callbacks[h].udata) {
          FieldsAreDistinct(live, snap, owner, d, p, db, if r == snap[db].callbacks[h].cb then Cb(h) else Ud(h));
        }
        UntouchedShow(live, snap, owner, live', owner', {snap[db].callbacks[h].cb, snap[db].callbacks[h].udata}, d, p);
      }
    }
  }

  /** What changes when a function is added: only its three places. */
  lemma FuncPlaces(d: DbRefs, refs: FuncRefs, p: Place)
    ensures var n, after := |d.funcs|, d.(funcs := d.funcs + [refs]);
      if p == FnStep(n) then HasPlace(after, p) && RefAt(after, p) == refs.fnStep
      else if p == FnFinalize(n) then HasPlace(after, p) && RefAt(after, p) == refs.fnFinalize
      else if p == FnUdata(n) then HasPlace(after, p) && RefAt(after, p) == refs.udata
      else (HasPlace(after, p) <==> HasPlace(d, p)) && (HasPlace(d, p) ==> RefAt(after, p) == RefAt(d, p))
  {
  }

  function WithFunc(live: map<int, Value>, shows: Values, db: Sdb, n: nat, refs: FuncRefs): Values {
    shows[(db, FnStep(n)) := ValueOf(live, refs.fnStep)][(db, FnFinalize(n)) := ValueOf(live, refs.fnFinalize)]
      [(db, FnUdata(n)) := ValueOf(live, refs.udata)]
  }

  /** A new function shows its values; every field shows what it showed. */
  lemma FuncShows(live: map<int, Value>, snap: Snapshot, owner: Owners, live': map<int, Value>, owner': Owners,
                  db: Sdb, refs: FuncRefs, shows: Values)
    requires Owned(live, snap, owner) && Shows(live, snap, shows) && db in snap
    requires Kept(live, owner, live', owner', {})
    ensures Shows(live', snap[db := snap[db].(funcs := snap[db].funcs + [refs])],
                  WithFunc(live', shows, db, |snap[db].funcs|, refs))
  {
    hide Owned, Kept, ValueOf, HasPlace, RefAt;
    var n := |snap[db].funcs|;
    var after := snap[db := snap[db].(funcs := snap[db].funcs + [refs])];
    forall d, p | d in after && HasPlace(after[d], p)
      ensures ValueOf(live', RefAt(after[d], p)) == Said(WithFunc(live', shows, db, n, refs), d, p)
    {
      FuncPlaces(snap[db], refs, p);
      if HasPlace(snap[d], p) {
        UntouchedShow(live, snap, owner, live', owner', {}, d, p);
      }
    }
    forall k | k in WithFunc(live', shows, db, n, refs) ensures k.0 in after && HasPlace(after[k.0], k.1) {
      FuncPlaces(snap[db], refs, k.1);
    }
  }

  /** The registry and the fields at one moment. */
  datatype RefState = RefState(live: map<int, Value>, snap: Snapshot, owner: Owners)

  /** A callback setter has cleared the field, or installed the callback, and touched no other reference. */
  ghost predicate HookSet(a: RefState, b: RefState, db: Sdb, h: Hook, clears: bool, fn: Value, udata: Value) {
    && db in a.snap && h in a.snap[db].callbacks && db in b.snap && h in b.snap[db].callbacks
    && Kept(a.live, a.owner, b.live, b.owner, {a.snap[db].callbacks[h].cb, a.snap[db].callbacks[h].udata})
    && var refs := b.snap[db].callbacks[h];
       && b.snap == a.snap[db := a.snap[db].(callbacks := a.snap[db].callbacks[h := refs])]
       && ValueOf(b.live, refs.cb) == (if clears then Nil else fn)
       && ValueOf(b.live, refs.udata) == (if clears then Nil else udata)
       && (clears ==> refs == NO_CALLBACK)
  }

  /** What a callback setter leaves in the fields. */
  function Put(shows: Values, db: Sdb, h: Hook, clears: bool, fn: Value, udata: Value): Values {
    shows[(db, Cb(h)) := if clears then Nil else fn][(db, Ud(h)) := if clears then Nil else udata]
  }

  /** Nil clears both fields; nothing else that a field stands for changes. */
  lemma PutSays(shows: Values, db: Sdb, h: Hook, fn: Value, udata: Value, d: Sdb, p: Place)
    ensures Said(Put(shows, db, h, true, fn, udata), db, Cb(h)) == Nil
    ensures Said(Put(shows, db, h, true, fn, udata), db, Ud(h)) == Nil
    ensures Said(Put(shows, db, h, false, fn, udata), db, Cb(h)) == fn
    ensures Said(Put(shows, db, h, false, fn, udata), db, Ud(h)) == udata
    ensures !(d == db && (p == Cb(h) || p == Ud(h))) ==>
      forall clears :: Said(Put(shows, db, h, clears, fn, udata), d, p) == Said(shows, d, p)
  {
  }

  lemma PutFuncSays(shows: Values, db: Sdb, n: nat, fn: Value, fin: Value, udata: Value, d: Sdb, p: Place)
    ensures var after := PutFunc(shows, db, n, fn, fin, udata);
      && Said(after, db, FnStep(n)) == fn && Said(after, db, FnFinalize(n)) == fin
      && Said(after, db, FnUdata(n)) == udata
      && (!(d == db && (p == FnStep(n) || p == FnFinalize(n) || p == FnUdata(n))) ==>
        Said(after, d, p) == Said(shows, d, p))
  {
  }

  lemma HookSetShows(a: RefState, b: RefState, db: Sdb, h: Hook, clears: bool, fn: Value, udata: Value, shows: Values)
    requires Owned(a.live, a.snap, a.owner) && Shows(a.live, a.snap, shows) && HookSet(a, b, db, h, clears, fn, udata)
    ensures b.snap.Keys == a.snap.Keys && Shows(b.live, b.snap, Put(shows, db, h, clears, fn, udata))
  {
    hide Owned, Shows, Kept;
    HookShows(a.live, a.snap, a.owner, b.live, b.owner, db, h, b.snap[db].callbacks[h], shows);
  }

  /** A function has been added with the given references, which resolve to its values. */
  ghost predicate FunctionAdded(a: RefState, b: RefState, db: Sdb, refs: FuncRefs, aggregate: bool,
                                fn: Value, fin: Value, udata: Value)
  {
    && db in a.snap && Kept(a.live, a.owner, b.live, b.owner, {})
    && b.snap == a.snap[db := a.snap[db].(funcs := a.snap[db].funcs + [refs])]
    && ValueOf(b.live, refs.fnStep) == fn && ValueOf(b.live, refs.udata) == udata
    && ValueOf(b.live, refs.fnFinalize) == (if aggregate then fin else Nil)
    && (!aggregate ==> refs.fnFinalize == LUA_NOREF)
  }

  function PutFunc(shows: Values, db: Sdb, n: nat, fn: Value, fin: Value, udata: Value): Values {
    shows[(db, FnStep(n)) := fn][(db, FnFinalize(n)) := fin][(db, FnUdata(n)) := udata]
  }

  lemma FunctionAddedShows(a: RefState, b: RefState, db: Sdb, refs: FuncRefs, aggregate: bool,
                           fn: Value, fin: Value, udata: Value, shows: Values)
    requires Owned(a.live, a.snap, a.owner) && Shows(a.live, a.snap, shows)
    requires FunctionAdded(a, b, db, refs, aggregate, fn, fin, udata)
    ensures b.snap.Keys == a.snap.Keys
    ensures Shows(b.live, b.snap, PutFunc(shows, db, |a.snap[db].funcs|, fn, if aggregate then fin else Nil, udata))
  {
    hide Owned, Shows, Kept;
    FuncShows(a.live, a.snap, a.owner, b.live, b.owner, db, refs, shows);
  }

  lemma OpenedShows(live: map<int, Value>, snap: Snapshot, db: Sdb, shows: Values)
    requires Shows(live, snap, shows) && db !in snap && forall r :: r in live ==> r >= 1
    ensures Shows(live, snap[db := DbRefs(NO_CALLBACKS, [])], shows)
  {
  }

  function WithoutDb(shows: Values, db: Sdb): Values {
    map k | k in shows && k.0 != db :: shows[k]
  }

  /** After a database has been closed the fields of the others show what they showed. */
  lemma ClosedShows(live: map<int, Value>, snap: Snapshot, owner: Owners, live': map<int, Value>, owner': Owners,
                    db: Sdb, shows: Values)
    requires Owned(live, snap, owner) && Shows(live, snap, shows)
    requires forall r :: r in live ==> r >= 1
    requires forall r :: r in live' ==> r >= 1
    requires forall r :: r in owner && owner[r].0 != db ==> r in live' && live'[r] == live[r]
    ensures Shows(live', snap - {db}, WithoutDb(shows, db))
  {
  }

  /** Two fields hold the same reference only if they are the same field. */
  lemma FieldsAreDistinct(live: map<int, Value>, snap: Snapshot, owner: Owners, a: Sdb, p: Place, b: Sdb, q: Place)
    requires Owned(live, snap, owner) && a in snap && b in snap && HasPlace(snap[a], p) && HasPlace(snap[b], q)
    requires RefAt(snap[a], p) == RefAt(snap[b], q) >= 0
    ensures a == b && p == q && RefAt(snap[a], p) in live
  {
    assert owner[RefAt(snap[a], p)] == (a, p);
    assert owner[RefAt(snap[b], q)] == (b, q);
  }

  /** luaL_unref on a field: its slot is freed and the field counts as empty. */
  lemma ReleaseKeeps(live: map<int, Value>, snap: Snapshot, owner: Owners, db: Sdb, p: Place)
    requires Owned(live, snap, owner) && db in snap && HasPlace(snap[db], p)
    ensures if RefAt(snap[db], p) < 0 then RefAt(snap[db], p) !in owner
      else RefAt(snap[db], p) in live && RefAt(snap[db], p) in owner && owner[RefAt(snap[db], p)] == (db, p)
    ensures var ref := RefAt(snap[db], p);
      Owned(live - {ref}, snap[db := WithRef(snap[db], p, LUA_NOREF)], owner - {ref})
  {
  }

  /** luaL_ref into an empty field; nil needs no slot. */
  lemma TakeKeeps(live: map<int, Value>, snap: Snapshot, owner: Owners, db: Sdb, p: Place, v: Value, ref: int)
    requires Owned(live, snap, owner) && db in snap && HasPlace(snap[db], p) && RefAt(snap[db], p) < 0
    requires if v == Nil then ref == LUA_REFNIL else ref >= 1 && ref !in live
    ensures ref !in owner && owner.Keys <= live.Keys
    ensures var snap' := snap[db := WithRef(snap[db], p, ref)];
      if v == Nil then Owned(live, snap', owner) else Owned(live[ref := v], snap', owner[ref := (db, p)])
  {
    assert owner.Keys <= live.Keys by {
      forall r | r in owner.Keys ensures r in live.Keys {
        assert r in owner;
      }
    }
    assert forall q :: HasPlace(snap[db], q) ==>
      RefAt(WithRef(snap[db], p, ref), q) == if p == q then ref else RefAt(snap[db], q);
  }

  const NO_FUNC := FuncRefs(LUA_NOREF, LUA_NOREF, LUA_NOREF)

  lemma AddFuncKeeps(live: map<int, Value>, snap: Snapshot, owner: Owners, db: Sdb)
    requires Owned(live, snap, owner) && db in snap
    ensures Owned(live, snap[db := snap[db].(funcs := snap[db].funcs + [NO_FUNC])], owner)
  {
    var d := snap[db].(funcs := snap[db].funcs + [NO_FUNC]);
    forall p | HasPlace(d, p) && RefAt(d, p) >= 0
      ensures HasPlace(snap[db], p) && RefAt(snap[db], p) == RefAt(d, p)
    {
    }
  }

  lemma DropFuncKeeps(live: map<int, Value>, snap: Snapshot, owner: Owners, db: Sdb)
    requires Owned(live, snap, owner) && db in snap && |snap[db].funcs| > 0
    requires snap[db].funcs[|snap[db].funcs| - 1] == NO_FUNC
    ensures Owned(live, snap[db := snap[db].(funcs := snap[db].funcs[..|snap[db].funcs| - 1])], owner)
  {
    var d := snap[db].(funcs := snap[db].funcs[..|snap[db].funcs| - 1]);
    forall p | HasPlace(snap[db], p) && RefAt(snap[db], p) >= 0
      ensures HasPlace(d, p) && RefAt(d, p) == RefAt(snap[db], p)
    {
    }
    forall p | HasPlace(d, p) ensures HasPlace(snap[db], p) && RefAt(d, p) == RefAt(snap[db], p) {
    }
  }

  lemma AddDbKeeps(live: map<int, Value>, snap: Snapshot, owner: Owners, db: Sdb)
    requires Owned(live, snap, owner) && db !in snap
    ensures Owned(live, snap[db := DbRefs(NO_CALLBACKS, [])], owner)
  {
  }

  /** A database whose fields are all empty can be forgotten. */
  lemma DropDbKeeps(live: map<int, Value>, snap: Snapshot, owner: Owners, db: Sdb)
    requires Owned(live, snap, owner) && db in snap && snap[db] == DbRefs(NO_CALLBACKS, [])
    ensures Owned(live, snap - {db}, owner)
  {
  }
}

/** The callback and function operations of lsqlite3.c, as clients of luaL_ref and luaL_unref. */
module SqliteReferences {
  import opened LuaValues
  import opened RefTables
  import opened SqliteEngine
  import opened SqliteObjects
  import opened ReferenceOwnership

  /** The list of registered functions, newest first, holds the references `funcs`. */
  ghost predicate Chain(f: SdbFunc?, funcs: seq<FuncRefs>)
    decreases |funcs|
  {
    if funcs == [] then f == null
    else f != null && f.refs == funcs[|funcs| - 1] && Chain(f.next, funcs[..|funcs| - 1])
  }

  ghost function OutsideOf(live: map<int, Value>, owner: Owners, db: Sdb): (map<int, Value>, Owners) {
    (map r | r in live && !(r in owner && owner[r].0 == db) :: live[r],
     map r | r in owner && owner[r].0 != db :: owner[r])
  }

  lemma OutsideWithout(live: map<int, Value>, owner: Owners, db: Sdb, ref: int)
    requires if ref in owner then owner[ref].0 == db else ref !in live
    ensures OutsideOf(live - {ref}, owner - {ref}, db) == OutsideOf(live, owner, db)
  {
    assert OutsideOf(live - {ref}, owner - {ref}, db).0 == OutsideOf(live, owner, db).0;
    assert OutsideOf(live - {ref}, owner - {ref}, db).1 == OutsideOf(live, owner, db).1;
  }

  lemma OutsideIsAll(live: map<int, Value>, owner: Owners, db: Sdb)
    requires forall r :: r in owner ==> owner[r].0 != db
    ensures OutsideOf(live, owner, db) == (live, owner)
  {
    var outside := OutsideOf(live, owner, db);
    assert forall r :: r in live ==> r in outside.0;
    assert forall r :: r in owner ==> r in outside.1;
    assert outside.0 == live && outside.1 == owner;
  }

  /** The callbacks of db have been released, its functions not yet. */
  ghost predicate Releasing(was: RefState, now: RefState, db: Sdb) {
    && db in was.snap && now.snap == was.snap[db := DbRefs(NO_CALLBACKS, was.snap[db].funcs)]
    && OutsideOf(now.live, now.owner, db) == OutsideOf(was.live, was.owner, db)
  }

  /** The registry and the fields once db has been closed: exactly its own references are gone. */
  ghost function Closed(was: RefState, db: Sdb): RefState {
    var outside := OutsideOf(was.live, was.owner, db);
    RefState(outside.0, was.snap - {db}, outside.1)
  }

  lemma ClosedStateShows(was: RefState, db: Sdb, shows: Values)
    requires Owned(was.live, was.snap, was.owner) && Shows(was.live, was.snap, shows)
    requires forall r :: r in was.live ==> r >= 1
    ensures var now := Closed(was, db); Shows(now.live, now.snap, WithoutDb(shows, db))
  {
    hide Shows;
    var now := Closed(was, db);
    forall r | r in was.owner && was.owner[r].0 != db ensures r in now.live && now.live[r] == was.live[r] {
    }
    ClosedShows(was.live, was.snap, was.owner, now.live, now.owner, db, shows);
  }

  lemma UnusedClosed(was: RefState, db: Sdb, snap: Snapshot)
    requires db !in snap && was.snap == snap[db := DbRefs(NO_CALLBACKS, [])]
    requires forall r :: r in was.owner ==> was.owner[r].0 != db
    ensures Closed(was, db) == RefState(was.live, snap, was.owner)
  {
    OutsideIsAll(was.live, was.owner, db);
    assert was.snap - {db} == snap;
  }

  lemma AddedAndDropped<K, V>(m: map<K, V>, k: K, v: V)
    ensures m[k := v] - {k} == m - {k}
  {
  }

  lemma ChainPush(f: SdbFunc, funcs: seq<FuncRefs>)
    requires Chain(f.next, funcs)
    ensures Chain(f, funcs + [f.refs])
  {
    assert (funcs + [f.refs])[..|funcs|] == funcs;
  }

  /** The callback fields with some of them emptied. */
  ghost function WithoutHooks(callbacks: map<Hook, CallbackRefs>, hs: set<Hook>): map<Hook, CallbackRefs> {
    map h | h in callbacks :: if h in hs then NO_CALLBACK else callbacks[h]
  }

  const FIELD_ORDER: seq<Hook> := [Busy, Progress, Trace, Update, Commit, Rollback]

  lemma NoneReleased(callbacks: map<Hook, CallbackRefs>)
    ensures WithoutHooks(callbacks, {}) == callbacks
  {
  }

  lemma AllReleased(callbacks: map<Hook, CallbackRefs>, done: set<Hook>)
    requires callbacks.Keys == NO_CALLBACKS.Keys && forall h :: h in done <==> h in FIELD_ORDER
    ensures WithoutHooks(callbacks, done) == NO_CALLBACKS
  {
    assert forall h :: h in NO_CALLBACKS ==> h in FIELD_ORDER;
  }

  lemma SnapAt(a: Snapshot, b: Snapshot, db: Sdb)
    requires a.Keys == b.Keys && a - {db} == b - {db} && db in b
    ensures b == a[db := b[db]]
  {
    assert forall k :: k in a && k != db ==> k in a - {db} && k in b - {db};
  }

  lemma ChainEmpty()
    ensures Chain(null, [])
  {
  }

  /** What the fields of one callback come to after both have been released and taken again. */
  lemma Reinstalled(d: DbRefs, h: Hook, cb: int, ud: int)
    requires h in d.callbacks
    ensures WithRef(WithRef(WithRef(WithRef(d, Cb(h), LUA_NOREF), Ud(h), LUA_NOREF), Ud(h), ud), Cb(h), cb)
      == d.(callbacks := d.callbacks[h := CallbackRefs(cb, ud)])
    ensures WithRef(WithRef(d, Cb(h), LUA_NOREF), Ud(h), LUA_NOREF) == d.(callbacks := d.callbacks[h := NO_CALLBACK])
    ensures WithRef(WithRef(d, Ud(h), ud), Cb(h), cb) == d.(callbacks := d.callbacks[h := CallbackRefs(cb, ud)])
  {
  }

  /** What the fields of a new function come to. */
  lemma Registered(d: DbRefs, refs: FuncRefs)
    ensures var n := |d.funcs|;
      var d1 := d.(funcs := d.funcs + [NO_FUNC]);
      HasPlace(d1, FnStep(n))
      && WithRef(WithRef(WithRef(d1, FnStep(n), refs.fnStep), FnUdata(n), refs.udata), FnFinalize(n), refs.fnFinalize)
        == d.(funcs := d.funcs + [refs])
      && (refs.fnFinalize == LUA_NOREF ==>
        WithRef(WithRef(d1, FnStep(n), refs.fnStep), FnUdata(n), refs.udata) == d.(funcs := d.funcs + [refs]))
  {
    assert (d.funcs + [NO_FUNC])[|d.funcs| := refs] == d.funcs + [refs];
  }

  datatype SetResult = ClosedDatabase | TypeError | Rejected | Done

  class References {
    const registry: RefTable
    const numeric: string -> bool   // which strings read as numbers
    ghost var snap: Snapshot
    ghost var owner: Owners

    /** The fields of an open database are what the snapshot says. */
    ghost predicate Mirrors(db: Sdb)
      reads this, db`callbacks, db`func
    {
      && db in snap && snap[db].callbacks == db.callbacks && Chain(db.func, snap[db].funcs)
      && db.callbacks.Keys == NO_CALLBACKS.Keys
    }

    ghost predicate Sound()
      reads this, registry
    {
      registry.Valid() && Owned(registry.Live(), snap, owner)
    }

    ghost predicate Valid()
      reads this, registry, snap.Keys`callbacks, snap.Keys`func
    {
      Sound() && forall db :: db in snap ==> Mirrors(db)
    }

    /** The live references that no database field holds. */
    ghost function Foreign(): map<int, Value>
      reads `owner, registry
    {
      registry.Live() - owner.Keys
    }

    /** The value a reference field stands for. */
    ghost function Resolve(ref: int): Value
      reads registry
    {
      if ref in registry.Live() then registry.Live()[ref] else Nil
    }

    /** Apart from the given references, every owned one keeps its owner and its value. */
    twostate predicate KeepsOthers(released: set<int>)
      reads `owner, registry
    {
      && Foreign() == old(Foreign())
      && forall r :: r in old(owner) && r !in released ==>
        r in owner && owner[r] == old(owner)[r] && Resolve(r) == old(Resolve(r))
    }

    twostate lemma KeptOf(released: set<int>)
      requires KeepsOthers(released)
      ensures Kept(old(registry.Live()), old(owner), registry.Live(), owner, released)
    {
    }

    ghost function State(): RefState
      reads `snap, `owner, registry
    {
      RefState(registry.Live(), snap, owner)
    }

    /** The references of one callback. */
    ghost function HookRefs(db: Sdb, h: Hook): set<int>
      reads db`callbacks
    {
      if h in db.callbacks then {db.callbacks[h].cb, db.callbacks[h].udata} else {}
    }

    /** The field of h, and of no other hook, now stands for fn and udata. */
    twostate predicate Installed(db: Sdb, h: Hook, fn: Value, udata: Value)
      reads db`callbacks, registry
    {
      && h in db.callbacks && db.callbacks == old(db.callbacks)[h := db.callbacks[h]]
      && Resolve(db.callbacks[h].cb) == fn && Resolve(db.callbacks[h].udata) == udata
    }

    /** The references that are not held by db, with their values, and the holders of the owned ones. */
    ghost function Outside(db: Sdb): (map<int, Value>, Owners)
      reads `owner, registry
    {
      OutsideOf(registry.Live(), owner, db)
    }

    constructor (registry: RefTable, numeric: string -> bool)
      requires registry.Valid()
      ensures Valid() && snap == map[] && this.registry == registry && Foreign() == registry.Live()
    {
      this.registry, this.numeric := registry, numeric;
      snap, owner := map[], map[];
    }

    /** luaL_unref on a field of db. */
    method Release(ref: int, ghost db: Sdb, ghost p: Place)
      requires Sound() && db in snap && HasPlace(snap[db], p) && RefAt(snap[db], p) == ref
      modifies registry, `owner, `snap
      ensures Sound() && snap == old(snap)[db := WithRef(old(snap)[db], p, LUA_NOREF)]
      ensures registry.Live() == old(registry.Live()) - {ref} && owner == old(owner) - {ref}
      ensures KeepsOthers({ref}) && Outside(db) == old(Outside(db))
    {
      hide Owned, OutsideOf;
      ReleaseKeeps(registry.Live(), snap, owner, db, p);
      registry.Unref(ref);
      snap := snap[db := WithRef(snap[db], p, LUA_NOREF)];
      owner := owner - {ref};
      OutsideWithout(old(registry.Live()), old(owner), db, ref);
    }

    /** luaL_ref into an empty field of db. */
    method Take(v: Value, ghost db: Sdb, ghost p: Place) returns (ref: int)
      requires Sound() && db in snap && HasPlace(snap[db], p) && RefAt(snap[db], p) < 0
      modifies registry, `owner, `snap
      ensures Sound() && snap == old(snap)[db := WithRef(old(snap)[db], p, ref)]
      ensures Resolve(ref) == v && ref !in old(owner) && (ref == LUA_REFNIL || ref in owner)
      ensures KeepsOthers({})
    {
      hide Owned, Represents, LiveMap, RefStep;
      var sizeArray: nat := *;
      ref := registry.Ref(v, sizeArray);
      TakeKeeps(old(registry.Live()), snap, owner, db, p, v, ref);
      snap := snap[db := WithRef(snap[db], p, ref)];
      if v != Nil {
        owner := owner[ref := (db, p)];
      }
    }

    /** luaL_unref on both fields of a callback; the C code leaves their stale numbers for its caller to replace. */
    method ReleaseHook(db: Sdb, h: Hook)
      requires Sound() && db in snap && h in db.callbacks && h in snap[db].callbacks
      requires snap[db].callbacks[h] == db.callbacks[h]
      modifies registry, `owner, `snap
      ensures Sound() && snap == old(snap)[db := old(snap)[db].(callbacks := old(snap)[db].callbacks[h := NO_CALLBACK])]
      ensures owner == old(owner) - {db.callbacks[h].cb, db.callbacks[h].udata}
      ensures KeepsOthers({db.callbacks[h].cb, db.callbacks[h].udata}) && Outside(db) == old(Outside(db))
    {
      hide Owned, RefTable.Valid, RefTable.Live;
      Reinstalled(snap[db], h, 0, 0);
      Release(db.callbacks[h].cb, db, Cb(h));
      Release(db.callbacks[h].udata, db, Ud(h));
    }

    /** The clearing branch of db_trace, the hooks, db_progress_handler and db_busy_handler; also db_busy_timeout. */
    method Clear(db: Sdb, h: Hook)
      requires Valid() && db in snap
      modifies registry, `owner, `snap, db`callbacks
      ensures Valid() && h in old(db.callbacks) && db.callbacks == old(db.callbacks)[h := NO_CALLBACK]
      ensures snap == old(snap)[db := old(snap)[db].(callbacks := db.callbacks)]
      ensures KeepsOthers(old(HookRefs(db, h)))
      ensures HookSet(old(State()), State(), db, h, true, Nil, Nil)
    {
      hide Sound, Resolve, Foreign, Chain, KeepsOthers, Kept;
      AllHooks(db, h);
      assert old(Mirrors(db));
      ReleaseHook(db, h);
      Store(db, h, NO_CALLBACK);
      KeptOf(old(HookRefs(db, h)));
    }

    /** The field follows what has been taken or released for it. */
    method Store(db: Sdb, h: Hook, refs: CallbackRefs)
      requires Sound() && db in snap && h in db.callbacks && Chain(db.func, snap[db].funcs)
      requires db.callbacks.Keys == NO_CALLBACKS.Keys && snap[db].callbacks == db.callbacks[h := refs]
      requires forall other :: other in snap && other != db ==> Mirrors(other)
      modifies db`callbacks
      ensures Valid() && db.callbacks == old(db.callbacks)[h := refs]
    {
      hide Sound, Chain;
      db.callbacks := db.callbacks[h := refs];
      assert Mirrors(db);
      forall other | other in snap && other != db ensures Mirrors(other) {
        assert old(Mirrors(other));
      }
    }

    /** References for both fields of an empty callback, user data first. */
    method TakePair(fn: Value, udata: Value, ghost db: Sdb, ghost h: Hook) returns (refs: CallbackRefs)
      requires Sound() && db in snap && h in snap[db].callbacks && snap[db].callbacks[h] == NO_CALLBACK
      modifies registry, `owner, `snap
      ensures Sound() && snap == old(snap)[db := old(snap)[db].(callbacks := old(snap)[db].callbacks[h := refs])]
      ensures Resolve(refs.cb) == fn && Resolve(refs.udata) == udata
      ensures KeepsOthers({})
    {
      hide Sound, Resolve, Foreign;
      var ud := Take(udata, db, Ud(h));
      ResolveNil();
      assert Resolve(ud) == udata;
      var cb := Take(fn, db, Cb(h));
      ResolveNil();
      refs := CallbackRefs(cb, ud);
      Reinstalled(old(snap)[db], h, cb, ud);
    }

    method TakeHook(db: Sdb, h: Hook, fn: Value, udata: Value)
      requires Valid() && db in snap && h in db.callbacks && db.callbacks[h] == NO_CALLBACK
      modifies registry, `owner, `snap, db`callbacks
      ensures Valid()
      ensures snap == old(snap)[db := old(snap)[db].(callbacks := db.callbacks)]
      ensures Installed(db, h, fn, udata)
      ensures KeepsOthers({})
    {
      hide Sound, Resolve, Foreign, Chain, KeepsOthers;
      AllHooks(db, h);
      assert old(Mirrors(db));
      var refs := TakePair(fn, udata, db, h);
      Store(db, h, refs);
    }

    /**
     * The installing branch: the old references go before the new ones are taken. The C code does not store
     * the sentinel in between; nothing can look at the fields there.
     */
    method Install(db: Sdb, h: Hook, fn: Value, udata: Value)
      requires Valid() && db in snap
      modifies registry, `owner, `snap, db`callbacks
      ensures Valid() && h in old(db.callbacks)
      ensures snap == old(snap)[db := old(snap)[db].(callbacks := db.callbacks)]
      ensures Installed(db, h, fn, udata)
      ensures KeepsOthers(old(HookRefs(db, h)))
      ensures HookSet(old(State()), State(), db, h, false, fn, udata)
    {
      hide Valid, Foreign, Kept;
      AllHooks(db, h);
      Clear(db, h);
      TakeHook(db, h, fn, udata);
      KeptOf(old(HookRefs(db, h)));
    }

    lemma ResolveNil()
      ensures Resolve(LUA_REFNIL) == Nil && Resolve(LUA_NOREF) == Nil
    {
    }

    lemma AllHooks(db: Sdb, h: Hook)
      requires Valid() && db in snap
      ensures h in db.callbacks && snap[db].callbacks == db.callbacks
    {
      assert h in NO_CALLBACKS;
      assert Mirrors(db);
    }

    /** newdb: a new database starts with every field empty. */
    method AddDb(db: Sdb)
      requires Valid() && db !in snap && db.callbacks == NO_CALLBACKS && db.func == null
      modifies `snap
      ensures Valid() && snap == old(snap)[db := DbRefs(NO_CALLBACKS, [])]
    {
      hide Owned, Chain;
      assert Chain(null, []) by { ChainEmpty(); }
      AddDbSound(db);
      snap := snap[db := DbRefs(NO_CALLBACKS, [])];
      forall other | other in snap && other != db ensures Mirrors(other) {
        assert old(Mirrors(other));
      }
    }

    lemma AddDbSound(db: Sdb)
      requires Sound() && db !in snap
      ensures Owned(registry.Live(), snap[db := DbRefs(NO_CALLBACKS, [])], owner) && registry.Valid()
    {
      AddDbKeeps(registry.Live(), snap, owner, db);
    }

    /** The three references of a new function, in the order in which the C code takes them. */
    method TakeFunc(db: Sdb, aggregate: bool, fn: Value, fin: Value, udata: Value) returns (refs: FuncRefs)
      requires Sound() && db in snap
      modifies registry, `owner, `snap
      ensures Sound() && snap == old(snap)[db := old(snap)[db].(funcs := old(snap)[db].funcs + [refs])]
      ensures Resolve(refs.fnStep) == fn && Resolve(refs.udata) == udata
      ensures if aggregate then Resolve(refs.fnFinalize) == fin else refs.fnFinalize == LUA_NOREF
      ensures KeepsOthers({})
    {
      hide Owned, Resolve, Foreign, RefTable.Valid, RefTable.Live;
      ghost var n, was := |snap[db].funcs|, snap[db];
      AddFuncKeeps(registry.Live(), snap, owner, db);
      snap := snap[db := snap[db].(funcs := snap[db].funcs + [NO_FUNC])];
      ResolveNil();
      var fnStep := Take(fn, db, FnStep(n));
      ResolveNil();
      assert Resolve(fnStep) == fn;
      var ud := Take(udata, db, FnUdata(n));
      ResolveNil();
      assert Resolve(fnStep) == fn && Resolve(ud) == udata;
      var fnFinalize := LUA_NOREF;
      if aggregate {
        fnFinalize := Take(fin, db, FnFinalize(n));
        ResolveNil();
      }
      refs := FuncRefs(fnStep, fnFinalize, ud);
      Registered(was, refs);
    }

    /** db_register_function once SQLite has accepted the function: it goes to the front of the list. */
    method RegisterFunction(db: Sdb, aggregate: bool, fn: Value, fin: Value, udata: Value)
      requires Valid() && db in snap
      modifies registry, `owner, `snap, db`func
      ensures Valid() && db.func != null
      ensures snap == old(snap)[db := old(snap)[db].(funcs := old(snap)[db].funcs + [db.func.refs])]
      ensures fresh(db.func) && db.func.next == old(db.func) && db.func.aggregate == aggregate
      ensures Resolve(db.func.refs.fnStep) == fn && Resolve(db.func.refs.udata) == udata
      ensures if aggregate then Resolve(db.func.refs.fnFinalize) == fin else db.func.refs.fnFinalize == LUA_NOREF
      ensures KeepsOthers({})
    {
      hide Sound, Resolve, Foreign, KeepsOthers, Chain;
      assert old(Mirrors(db));
      var refs := TakeFunc(db, aggregate, fn, fin, udata);
      var func := new SdbFunc(refs, aggregate, db.func);
      ChainPush(func, old(snap)[db].funcs);
      db.func := func;
      forall other | other in snap && other != db ensures Mirrors(other) {
        assert old(Mirrors(other));
      }
    }

    /** One more callback released; `done` are those released before. */
    method ReleaseNext(db: Sdb, h: Hook, ghost done: set<Hook>)
      requires Sound() && db in snap && h in db.callbacks && h !in done
      requires snap[db].callbacks == WithoutHooks(db.callbacks, done)
      modifies registry, `owner, `snap
      ensures Sound() && snap.Keys == old(snap).Keys && snap - {db} == old(snap) - {db}
      ensures snap[db].callbacks == WithoutHooks(db.callbacks, done + {h}) && snap[db].funcs == old(snap)[db].funcs
      ensures Outside(db) == old(Outside(db))
    {
      hide Sound, Foreign, Resolve, KeepsOthers, Outside;
      ReleaseHook(db, h);
    }

    /** Every callback, in the order of the fields. */
    method EmptyCallbacks(db: Sdb)
      requires Sound() && db in snap && snap[db].callbacks == db.callbacks && db.callbacks.Keys == NO_CALLBACKS.Keys
      modifies registry, `owner, `snap
      ensures Sound() && snap == old(snap)[db := DbRefs(NO_CALLBACKS, old(snap)[db].funcs)]
      ensures Outside(db) == old(Outside(db))
    {
      hide Sound, Foreign, Resolve, Chain, KeepsOthers, Outside, WithoutHooks;
      NoneReleased(db.callbacks);
      ghost var done: set<Hook> := {};
      for i := 0 to |FIELD_ORDER|
        invariant Sound() && snap.Keys == old(snap).Keys && snap - {db} == old(snap) - {db}
        invariant snap[db] == DbRefs(WithoutHooks(db.callbacks, done), old(snap)[db].funcs)
        invariant forall h :: h in done <==> h in FIELD_ORDER[..i]
        invariant Outside(db) == old(Outside(db))
      {
        ReleaseNext(db, FIELD_ORDER[i], done);
        done := done + {FIELD_ORDER[i]};
      }
      AllReleased(db.callbacks, done);
      SnapAt(old(snap), snap, db);
    }

    /** The first half of the releases in cleanupdb: every callback. */
    method ReleaseCallbacks(db: Sdb)
      requires Valid() && db in snap
      modifies registry, `owner, `snap
      ensures Retiring(db) && Releasing(old(State()), State(), db)
    {
      hide Sound, Outside, Chain, OutsideOf;
      OutsideMeans(db);
      assert Mirrors(db);
      EmptyCallbacks(db);
      OutsideMeans(db);
      forall other | other in snap && other != db ensures Mirrors(other) {
        assert old(Mirrors(other));
      }
    }

    /** In cleanupdb, between the releases: the callback fields of db are stale, its functions still listed. */
    ghost predicate Retiring(db: Sdb)
      reads this, registry, snap.Keys`callbacks, snap.Keys`func
    {
      && Sound() && db in snap && snap[db].callbacks == NO_CALLBACKS && Chain(db.func, snap[db].funcs)
      && forall other :: other in snap && other != db ==> Mirrors(other)
    }

    /** The second half, after the connection is closed: every registered function, newest first. */
    method ReleaseFunctions(db: Sdb, ghost was: RefState)
      requires Retiring(db) && Releasing(was, State(), db)
      modifies registry, `owner, `snap, db`func
      ensures Valid() && db.func == null && State() == Closed(was, db)
    {
      hide Releasing, Closed, OutsideOf, Outside;
      OutsideMeans(db);
      ReleaseFuncs(db);
      IsClosed(was, old(State()), db);
    }

    /** The loop itself. */
    method ReleaseFuncs(db: Sdb)
      requires Retiring(db)
      modifies registry, `owner, `snap, db`func
      ensures Valid() && snap == old(snap) - {db} && db.func == null
      ensures Outside(db) == old(Outside(db))
    {
      hide Owned, Foreign, Resolve, KeepsOthers, Outside, RefTable.Valid, RefTable.Live;
      var func := db.func;
      while func != null
        invariant Sound() && snap.Keys == old(snap).Keys && snap == old(snap)[db := snap[db]]
        invariant snap[db].callbacks == NO_CALLBACKS && Chain(func, snap[db].funcs)
        invariant Outside(db) == old(Outside(db))
        decreases |snap[db].funcs|
      {
        ReleaseFunc(db, func.refs);
        func := func.next;
      }
      db.func := null;
      ForgetDb(db);
      snap := snap - {db};
      forall other | other in snap ensures Mirrors(other) {
        assert old(Mirrors(other));
      }
    }

    /** The three references of the newest function still listed. */
    method ReleaseFunc(ghost db: Sdb, refs: FuncRefs)
      requires Sound() && db in snap && snap[db].funcs != [] && snap[db].funcs[|snap[db].funcs| - 1] == refs
      modifies registry, `owner, `snap
      ensures Sound()
      ensures snap == old(snap)[db := old(snap)[db].(funcs := old(snap)[db].funcs[..|old(snap)[db].funcs| - 1])]
      ensures Outside(db) == old(Outside(db))
    {
      hide Owned, Foreign, Resolve, KeepsOthers, Outside, RefTable.Valid, RefTable.Live;
      ghost var n := |snap[db].funcs| - 1;
      Release(refs.fnStep, db, FnStep(n));
      Release(refs.fnFinalize, db, FnFinalize(n));
      Release(refs.udata, db, FnUdata(n));
      DropFuncKeeps(registry.Live(), snap, owner, db);
      snap := snap[db := snap[db].(funcs := snap[db].funcs[..n])];
    }

    lemma OwnersAreOpen()
      requires Valid()
      ensures forall r :: r in owner ==> owner[r].0 in snap
    {
    }

    /** A database with empty fields owns nothing. */
    lemma NothingOwned(db: Sdb)
      requires Valid() && db in snap && snap[db] == DbRefs(NO_CALLBACKS, [])
      ensures forall r :: r in owner ==> owner[r].0 != db
    {
    }

    lemma IsClosed(was: RefState, mid: RefState, db: Sdb)
      requires Valid() && Releasing(was, mid, db)
      requires Outside(db) == OutsideOf(mid.live, mid.owner, db) && snap == mid.snap - {db}
      ensures State() == Closed(was, db)
    {
      hide OutsideOf;
      OwnersAreOpen();
      OutsideIsAll(registry.Live(), owner, db);
      AddedAndDropped(was.snap, db, DbRefs(NO_CALLBACKS, was.snap[db].funcs));
    }

    lemma OutsideMeans(db: Sdb)
      ensures Outside(db) == OutsideOf(State().live, State().owner, db)
    {
    }

    lemma ForgetDb(db: Sdb)
      requires Sound() && db in snap && snap[db] == DbRefs(NO_CALLBACKS, [])
      ensures registry.Valid() && Owned(registry.Live(), snap - {db}, owner)
    {
      DropDbKeeps(registry.Live(), snap, owner, db);
    }

    // ---- The Lua-visible operations ---------------------------------------------------------

    lemma IsOwned()
      requires Valid()
      ensures ReferenceOwnership.Owned(State().live, State().snap, State().owner)
    {
    }

    /** db:trace, db:busy_handler and the three hooks: nil clears, anything but a function is refused. */
    method SetCallback(db: Sdb, h: Hook, fn: Value, udata: Value) returns (r: SetResult)
      requires Valid() && h != Progress && (db.conn != 0 ==> db in snap)
      modifies registry, `owner, `snap, db`callbacks
      ensures Valid() && r != Rejected
      ensures r == ClosedDatabase <==> db.conn == 0
      ensures r == TypeError <==> db.conn != 0 && fn != Nil && !fn.Function?
      ensures if r == Done then HookSet(old(State()), State(), db, h, fn == Nil, fn, udata) else State() == old(State())
      ensures r == Done ==>
        && h in db.callbacks && Resolve(db.callbacks[h].cb) == fn
        && Resolve(db.callbacks[h].udata) == if fn == Nil then Nil else udata
      ensures r != Done ==> db.callbacks == old(db.callbacks)
    {
      hide Valid, Foreign, Resolve, KeepsOthers, Kept;
      if db.conn == 0 {
        return ClosedDatabase;
      }
      if fn == Nil {
        Clear(db, h);
        ResolveNil();
      } else if !fn.Function? {
        return TypeError;
      } else {
        Install(db, h, fn, udata);
      }
      return Done;
    }

    /** luaL_checkint accepts numbers and numeric strings. */
    predicate IsInt(v: Value) {
      v.Number? || (v.Str? && numeric(v.s))
    }

    /** db:progress_handler: what decides is the number of opcodes; a nil function beside a number is an error. */
    method SetProgress(db: Sdb, opcodes: Value, fn: Value, udata: Value) returns (r: SetResult)
      requires Valid() && (db.conn != 0 ==> db in snap)
      modifies registry, `owner, `snap, db`callbacks
      ensures Valid() && r != Rejected
      ensures r == ClosedDatabase <==> db.conn == 0
      ensures r == TypeError <==>
        && db.conn != 0 && opcodes != Nil
        && !(fn.Function? && (opcodes.Number? || (opcodes.Str? && numeric(opcodes.s))))
      ensures if r == Done then HookSet(old(State()), State(), db, Progress, opcodes == Nil, fn, udata)
              else State() == old(State())
      ensures r == Done ==>
        && Progress in db.callbacks
        && Resolve(db.callbacks[Progress].cb) == (if opcodes == Nil then Nil else fn)
        && Resolve(db.callbacks[Progress].udata) == (if opcodes == Nil then Nil else udata)
      ensures r != Done ==> db.callbacks == old(db.callbacks)
    {
      hide Valid, Foreign, Resolve, KeepsOthers, Kept;
      if db.conn == 0 {
        return ClosedDatabase;
      }
      if opcodes == Nil {
        Clear(db, Progress);
        ResolveNil();
      } else if !IsInt(opcodes) || !fn.Function? {
        return TypeError;
      } else {
        Install(db, Progress, fn, udata);
      }
      return Done;
    }

    /** db:busy_timeout takes the place of a busy handler. */
    method BusyTimeout(db: Sdb, timeout: Value) returns (r: SetResult)
      requires Valid() && (db.conn != 0 ==> db in snap)
      modifies registry, `owner, `snap, db`callbacks
      ensures Valid() && r != Rejected
      ensures r == ClosedDatabase <==> db.conn == 0
      ensures r == TypeError <==> db.conn != 0 && !timeout.Number? && !(timeout.Str? && numeric(timeout.s))
      ensures r == Done ==>
        Busy in db.callbacks && Resolve(db.callbacks[Busy].cb) == Resolve(db.callbacks[Busy].udata) == Nil
      ensures if r == Done then HookSet(old(State()), State(), db, Busy, true, Nil, Nil) else State() == old(State())
      ensures r != Done ==> db.callbacks == old(db.callbacks)
    {
      hide Valid, Foreign, Resolve, KeepsOthers, Kept;
      if db.conn == 0 {
        return ClosedDatabase;
      }
      if !IsInt(timeout) {
        return TypeError;
      }
      Clear(db, Busy);
      ResolveNil();
      return Done;
    }

    /** db:create_function and db:create_aggregate; `code` is what sqlite3_create_function answers. */
    method CreateFunction(db: Sdb, aggregate: bool, fn: Value, fin: Value, udata: Value, code: int)
      returns (r: SetResult)
      requires Valid() && (db.conn != 0 ==> db in snap)
      modifies registry, `owner, `snap, db`func
      ensures Valid()
      ensures r == ClosedDatabase <==> db.conn == 0
      ensures r == TypeError <==> db.conn != 0 && (!fn.Function? || (aggregate && !fin.Function?))
      ensures r == Done <==> db.conn != 0 && fn.Function? && (aggregate ==> fin.Function?) && code == SQLITE_OK
      ensures r == Done ==>
        && db.func != null && Resolve(db.func.refs.fnStep) == fn && Resolve(db.func.refs.udata) == udata
        && Resolve(db.func.refs.fnFinalize) == if aggregate then fin else Nil
      ensures r != Done ==> State() == old(State()) && db.func == old(db.func)
      ensures r == Done ==>
        && db.func != null && db.func.next == old(db.func) && db.func.aggregate == aggregate
        && FunctionAdded(old(State()), State(), db, db.func.refs, aggregate, fn, fin, udata)
    {
      hide Valid, Foreign, KeepsOthers, Kept;
      if db.conn == 0 {
        return ClosedDatabase;
      }
      if !fn.Function? || (aggregate && !fin.Function?) {
        return TypeError;
      }
      if code != SQLITE_OK {
        return Rejected;
      }
      RegisterFunction(db, aggregate, fn, fin, udata);
      KeptOf({});
      return Done;
    }
  }
}
