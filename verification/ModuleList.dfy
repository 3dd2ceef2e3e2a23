/** What the list of loaded modules stands for: how often each path is open. */
module OpenCounts {
  type Counts = map<string, nat>

  function Opened(c: Counts, path: string): Counts {
    c[path := if path in c then c[path] + 1 else 1]
  }

  function Closed(c: Counts, path: string): Counts
    requires path in c
  {
    if c[path] > 1 then c[path := c[path] - 1] else c - {path}
  }

  datatype Event = Open(path: string) | Close(path: string)

  /** How often a path was opened less how often it was closed. */
  function Balance(events: seq<Event>, path: string): int {
    if events == [] then 0
    else
      var e := events[|events| - 1];
      Balance(events[..|events| - 1], path) + if e.path != path then 0 else if e.Open? then 1 else -1
  }

  /** A caller only closes what it has open. */
  ghost predicate Disciplined(events: seq<Event>) {
    forall i :: 0 <= i < |events| && events[i].Close? ==> Balance(events[..i], events[i].path) > 0
  }

  function AfterAll(events: seq<Event>): (c: Counts)
    requires Disciplined(events)
    ensures forall p :: p in c <==> Balance(events, p) > 0
    ensures forall p :: p in c ==> c[p] == Balance(events, p)
  {
    if events == [] then map[]
    else
      var n := |events| - 1;
      var front := events[..n];
      assert forall i :: 0 <= i <= n ==> front[..i] == events[..i];
      var before := AfterAll(front);
      assert forall p :: Balance(front, p) >= 0 by { BalanceIsNat(front); }
      match events[n]
      case Open(p) => Opened(before, p)
      case Close(p) => Closed(before, p)
  }

  lemma {:induction false} BalanceIsNat(events: seq<Event>)
    requires Disciplined(events)
    ensures forall p :: Balance(events, p) >= 0
    decreases |events|
  {
    if events != [] {
      var n := |events| - 1;
      assert forall i :: 0 <= i <= n ==> events[..n][..i] == events[..i];
      BalanceIsNat(events[..n]);
      if events[n].Close? {
        assert Balance(events[..n], events[n].path) > 0;
      }
    }
  }
}

/** dlopen, dlclose and the exit handler of LoadLib/dlfcn.c. */
module ModuleLists {
  import opened OpenCounts

  class Module {
    var next: Module?
    const name: string
    var refCnt: int
    const entry: int

    constructor (name: string, entry: int, next: Module?)
      ensures this.name == name && this.entry == entry && refCnt == 1 && this.next == next
    {
      this.name, this.entry := name, entry;
      this.refCnt, this.next := 1, next;
    }
  }

  /**
   * What the system answers during one dlopen: findMain, calloc, strdup, load, loadbind against the main module
   * and against the module with a given entry point, readExports, and the code of an unload that undoes it.
   */
  datatype Answers = Answers(mainFound: bool, hasMemory: bool, hasName: bool, loads: bool, bindsMain: bool,
                             binds: int -> bool, readsExports: bool, unloads: int)

  /** The shape of the list that starts at `first`. */
  ghost predicate Listed(first: Module?, modules: seq<Module>)
    reads modules`next
  {
    && first == ModuleAt(modules, 0)
    && forall i {:trigger modules[i].next} :: 0 <= i < |modules| ==> modules[i].next == ModuleAt(modules, i + 1)
  }

  /** The module at a position of the list, or NULL past its end. */
  ghost function ModuleAt(modules: seq<Module>, i: nat): Module? {
    if i < |modules| then modules[i] else null
  }

  /** The listed modules are distinct, and their entry points are what the system has in memory. */
  ghost predicate Loaded(modules: seq<Module>, loaded: set<int>, nextEntry: int) {
    && (forall i, j :: 0 <= i < j < |modules| ==> modules[i] != modules[j] && modules[i].entry != modules[j].entry)
    && (forall m :: m in modules ==> m.entry in loaded)
    && (forall e :: e in loaded ==> e < nextEntry && exists i :: 0 <= i < |modules| && modules[i].entry == e)
  }

  ghost function Refs(modules: seq<Module>): (r: seq<int>)
    reads modules`refCnt
    ensures |r| == |modules|
    ensures forall i :: 0 <= i < |r| ==> r[i] == modules[i].refCnt
  {
    if modules == [] then [] else Refs(modules[..|modules| - 1]) + [modules[|modules| - 1].refCnt]
  }

  /** Each listed module has a name of its own and the positive count of that name. */
  ghost predicate Counted(modules: seq<Module>, refs: seq<int>, counts: Counts) {
    && |refs| == |modules|
    && (forall i, j :: 0 <= i < j < |modules| ==> modules[i].name != modules[j].name)
    && (forall i :: 0 <= i < |modules| ==> modules[i].name in counts && counts[modules[i].name] == refs[i] >= 1)
    && (forall p :: p in counts ==> exists i :: 0 <= i < |modules| && modules[i].name == p)
  }

  lemma OpenAgain(modules: seq<Module>, refs: seq<int>, counts: Counts, k: nat)
    requires Counted(modules, refs, counts) && k < |modules|
    ensures Counted(modules, refs[k := refs[k] + 1], Opened(counts, modules[k].name))
  {
  }

  lemma CloseOne(modules: seq<Module>, refs: seq<int>, counts: Counts, k: nat)
    requires Counted(modules, refs, counts) && k < |modules| && refs[k] > 1
    ensures Counted(modules, refs[k := refs[k] - 1], Closed(counts, modules[k].name))
  {
  }

  function Without<T>(s: seq<T>, k: nat): (r: seq<T>)
    requires k < |s|
    ensures |r| == |s| - 1
    ensures forall i :: 0 <= i < |r| ==> r[i] == if i < k then s[i] else s[i + 1]
  {
    s[..k] + s[k + 1..]
  }

  ghost predicate LacksOnly<T>(rest: seq<T>, s: seq<T>, k: nat)
    requires k < |s|
  {
    |rest| == |s| - 1 && forall i :: 0 <= i < |rest| ==> rest[i] == s[if i < k then i else i + 1]
  }

  lemma CountsWithout(modules: seq<Module>, refs: seq<int>, counts: Counts, k: nat, rest: seq<Module>, left: seq<int>)
    requires Counted(modules, refs, counts) && k < |modules| && refs[k] == 1
    requires LacksOnly(rest, modules, k) && LacksOnly(left, refs, k)
    ensures Counted(rest, left, Closed(counts, modules[k].name))
  {
    forall p | p in Closed(counts, modules[k].name) ensures exists i :: 0 <= i < |rest| && rest[i].name == p {
      var i :| 0 <= i < |modules| && modules[i].name == p;
      assert i != k;
      var j := if i < k then i else i - 1;
      assert rest[j] == modules[i];
    }
  }

  lemma CloseLast(modules: seq<Module>, refs: seq<int>, counts: Counts, k: nat)
    requires Counted(modules, refs, counts) && k < |modules| && refs[k] == 1
    ensures Counted(Without(modules, k), Without(refs, k), Closed(counts, modules[k].name))
  {
    assert LacksOnly(Without(modules, k), modules, k);
    assert k < |refs| && LacksOnly(Without(refs, k), refs, k);
    hide Counted, Closed;
    CountsWithout(modules, refs, counts, k, Without(modules, k), Without(refs, k));
  }

  lemma Unload(modules: seq<Module>, loaded: set<int>, nextEntry: int, k: nat)
    requires Loaded(modules, loaded, nextEntry) && k < |modules|
    ensures Loaded(Without(modules, k), loaded - {modules[k].entry}, nextEntry)
  {
    var rest := Without(modules, k);
    forall m | m in rest ensures m.entry in loaded - {modules[k].entry} {
      var i :| 0 <= i < |rest| && rest[i] == m;
      assert m in modules && m.entry != modules[k].entry;
    }
    forall e | e in loaded - {modules[k].entry} ensures exists i :: 0 <= i < |rest| && rest[i].entry == e {
      var i :| 0 <= i < |modules| && modules[i].entry == e;
      assert rest[if i < k then i else i - 1].entry == e;
    }
  }

  lemma FirstKeeps(modules: seq<Module>, refs: seq<int>, counts: Counts, loaded: set<int>, mp: Module)
    requires Counted(modules, refs, counts) && Loaded(modules, loaded, mp.entry)
    requires mp.name !in counts && mp !in modules
    ensures Counted(Before(mp, modules), Before(1, refs), Opened(counts, mp.name))
    ensures Loaded(Before(mp, modules), loaded + {mp.entry}, mp.entry + 1) && mp.entry !in loaded
  {
    hide Opened, Before;
    NextIsUnused(modules, loaded, mp.entry);
    hide Loaded, Counted;
    CountFirst(modules, refs, counts, mp);
    LoadFirst(modules, loaded, mp);
  }

  /** A new module in front of a list. */
  lemma NewFirst(mp: Module, modules: seq<Module>, refs: seq<int>)
    requires Listed(mp.next, modules) && Refs(modules) == refs && mp.refCnt == 1
    ensures Listed(mp, Before(mp, modules)) && Refs(Before(mp, modules)) == Before(1, refs)
  {
    var more := Before(mp, modules);
    forall i | 0 <= i < |more| ensures more[i].next == ModuleAt(more, i + 1) {
      if i > 0 {
        assert modules[i - 1].next == ModuleAt(modules, i);
      }
    }
    RefsAre(more, Before(1, refs));
  }

  /** What a position of the list tells. */
  lemma AtPosition(modules: seq<Module>, refs: seq<int>, counts: Counts, loaded: set<int>, nextEntry: int, k: nat)
    requires Counted(modules, refs, counts) && Loaded(modules, loaded, nextEntry) && k < |modules|
    ensures k < |refs| && refs[k] >= 1 && modules[k].name in counts && modules[k].entry in loaded
    ensures forall i, j :: 0 <= i < j < |modules| ==> modules[i] != modules[j]
  {
  }

  lemma NextIsUnused(modules: seq<Module>, loaded: set<int>, nextEntry: int)
    requires Loaded(modules, loaded, nextEntry)
    ensures nextEntry !in loaded
  {
  }

  lemma RefsAre(modules: seq<Module>, refs: seq<int>)
    requires |refs| == |modules| && forall i :: 0 <= i < |refs| ==> refs[i] == modules[i].refCnt
    ensures Refs(modules) == refs
  {
  }

  lemma RefsWith(modules: seq<Module>, refs: seq<int>, k: nat, count: int)
    requires k < |refs| == |modules| && modules[k].refCnt == count
    requires forall i :: 0 <= i < |refs| && i != k ==> refs[i] == modules[i].refCnt
    ensures Refs(modules) == refs[k := count]
  {
    RefsAre(modules, refs[k := count]);
  }

  lemma RefsWithout(modules: seq<Module>, refs: seq<int>, k: nat)
    requires k < |refs| == |modules|
    requires forall i :: 0 <= i < |refs| && i != k ==> refs[i] == modules[i].refCnt
    ensures Refs(Without(modules, k)) == Without(refs, k)
  {
    RefsAre(Without(modules, k), Without(refs, k));
  }

  function Before<T>(x: T, s: seq<T>): (r: seq<T>)
    ensures |r| == |s| + 1 && r[0] == x
    ensures forall i :: 0 < i < |r| ==> r[i] == s[i - 1]
  {
    [x] + s
  }

  lemma FirstUndone(mp: Module, modules: seq<Module>, counts: Counts, path: string)
    requires path !in counts
    ensures Without(Before(mp, modules), 0) == modules
    ensures Closed(Opened(counts, path), path) == counts
  {
  }

  lemma AllBefore(mp: Module, modules: seq<Module>, binds: int -> bool)
    ensures (forall i :: 1 <= i < |Before(mp, modules)| ==> binds(Before(mp, modules)[i].entry))
       <==> (forall m :: m in modules ==> binds(m.entry))
  {
    var more := Before(mp, modules);
    if forall i :: 1 <= i < |more| ==> binds(more[i].entry) {
      forall i | 0 <= i < |modules| ensures binds(modules[i].entry) {
        assert more[i + 1] == modules[i];
      }
    }
  }

  lemma CountFirst(modules: seq<Module>, refs: seq<int>, counts: Counts, mp: Module)
    requires Counted(modules, refs, counts) && mp.name !in counts
    ensures Counted(Before(mp, modules), Before(1, refs), Opened(counts, mp.name))
  {
    var more := Before(mp, modules);
    forall p | p in Opened(counts, mp.name) ensures exists i :: 0 <= i < |more| && more[i].name == p {
      if p == mp.name {
        assert more[0].name == p;
      } else {
        var i :| 0 <= i < |modules| && modules[i].name == p;
        assert more[i + 1].name == p;
      }
    }
  }

  lemma LoadFirst(modules: seq<Module>, loaded: set<int>, mp: Module)
    requires Loaded(modules, loaded, mp.entry) && mp !in modules
    ensures Loaded(Before(mp, modules), loaded + {mp.entry}, mp.entry + 1)
  {
    var more := Before(mp, modules);
    forall m | m in more ensures m.entry in loaded + {mp.entry} {
      var i :| 0 <= i < |more| && more[i] == m;
      assert i == 0 || modules[i - 1] == m;
    }
    forall e | e in loaded + {mp.entry} ensures e < mp.entry + 1 && exists i :: 0 <= i < |more| && more[i].entry == e {
      if e == mp.entry {
        assert more[0].entry == e;
      } else {
        var i :| 0 <= i < |modules| && modules[i].entry == e;
        assert more[i + 1].entry == e;
      }
    }
    forall i, j | 0 <= i < j < |more| ensures more[i] != more[j] && more[i].entry != more[j].entry {
      assert modules[j - 1].entry in loaded;
    }
  }

  class Loader {
    var modList: Module?
    var loaded: set<int>       // what the system's loader has in memory, by entry point
    var mainFound: bool        // mainModule != NULL; the exit handler is registered with it
    ghost var modules: seq<Module>
    ghost var counts: Counts   // the abstract value: how often each path is open
    var nextEntry: int

    /** Exactly the listed modules are loaded, and their counts are the positive reference counts. */
    ghost predicate Valid()
      reads `modList, `modules, `counts, `loaded, `nextEntry, modules`next, modules`refCnt
    {
      && Listed(modList, modules)
      && Loaded(modules, loaded, nextEntry)
      && Counted(modules, Refs(modules), counts)
    }

    constructor ()
      ensures Valid() && modules == [] && loaded == {} && counts == map[]
    {
      modList, loaded, mainFound, modules, counts := null, {}, false, [], map[];
      nextEntry := 0;
    }

    /** The scan at the start of dlopen. */
    method Lookup(path: string) returns (mp: Module?, ghost k: nat)
      requires Valid()
      ensures mp == ModuleAt(modules, k)
      ensures mp != null ==> mp.name == path && path in counts
      ensures mp == null ==> path !in counts
    {
      hide Loaded;
      mp, k := modList, 0;
      while mp != null
        invariant 0 <= k <= |modules| && mp == ModuleAt(modules, k)
        invariant forall j :: 0 <= j < k ==> modules[j].name != path
        decreases |modules| - k
      {
        if mp.name == path {
          return;
        }
        assert modules[k].next == ModuleAt(modules, k + 1);
        mp := mp.next;
        k := k + 1;
      }
    }

    /** Takes mp, which lies at position k, out of the list. */
    method Unlink(mp: Module, ghost k: nat)
      requires Listed(modList, modules) && k < |modules| && modules[k] == mp
      requires forall i, j :: 0 <= i < j < |modules| ==> modules[i] != modules[j]
      modifies `modList, `modules, modules`next
      ensures modules == Without(old(modules), k) && Listed(modList, modules)
    {
      assert modules[k].next == ModuleAt(modules, k + 1);
      ghost var was := modules;
      if mp == modList {
        modList := mp.next;
      } else {
        var mp1 := modList;
        ghost var i := 0;
        while mp1 != null
          invariant 0 <= i < k && mp1 == modules[i]
          invariant forall j :: 0 <= j < |modules| ==> modules[j].next == old(modules[j].next)
          decreases k - i
        {
          assert modules[i].next == modules[i + 1];
          if mp1.next == mp {
            mp1.next := mp.next;
            break;
          }
          mp1 := mp1.next;
          i := i + 1;
        }
        assert modules[k - 1].next == old(modules[k].next);
      }
      modules := Without(was, k);
      forall i | 0 <= i < |modules| ensures modules[i].next == ModuleAt(modules, i + 1) {
        assert modules[i] == if i < k then was[i] else was[i + 1];
      }
    }

    /** dlclose of a module that stays open. */
    method Release(mp: Module, ghost k: nat)
      requires Valid() && k < |modules| && modules[k] == mp && mp.refCnt > 1
      modifies `counts, mp`refCnt
      ensures Valid() && mp.name in old(counts) && counts == Closed(old(counts), mp.name)
      ensures mp.refCnt == old(mp.refCnt) - 1
    {
      hide Loaded, Counted, Refs, Closed, Listed;
      ghost var refs := Refs(modules);
      AtPosition(modules, refs, counts, loaded, nextEntry, k);
      CloseOne(modules, refs, counts, k);
      mp.refCnt := mp.refCnt - 1;
      RefsWith(modules, refs, k, refs[k] - 1);
      counts := Closed(counts, mp.name);
    }

    /** dlclose of a module that is open once: it is unloaded and taken out of the list. */
    method Discard(mp: Module, ghost k: nat, unloads: int) returns (result: int)
      requires Valid() && k < |modules| && modules[k] == mp && mp.refCnt == 1
      modifies `modList, `modules, `counts, `loaded, modules`next, mp`refCnt
      ensures Valid() && mp.name in old(counts) && counts == Closed(old(counts), mp.name)
      ensures modules == Without(old(modules), k) && loaded == old(loaded) - {mp.entry}
      ensures mp.refCnt == 0 && result == unloads
    {
      hide Loaded, Counted, Refs, Closed, Without, Listed;
      ghost var refs, was := Refs(modules), modules;
      AtPosition(modules, refs, counts, loaded, nextEntry, k);
      CloseLast(modules, refs, counts, k);
      Unload(modules, loaded, nextEntry, k);
      mp.refCnt := mp.refCnt - 1;
      result := unloads;   // unload may report an error, but the module is gone all the same
      loaded := loaded - {mp.entry};
      Unlink(mp, k);
      counts := Closed(counts, mp.name);
      RefsWithout(was, refs, k);
    }

    /** dlclose; `unloads` is what unload answers, if it comes to that. */
    method DlClose(mp: Module, ghost k: nat, unloads: int) returns (result: int)
      requires Valid() && k < |modules| && modules[k] == mp
      modifies `modList, `modules, `counts, `loaded, modules
      ensures Valid() && mp.name in old(counts) && counts == Closed(old(counts), mp.name)
      ensures old(mp.refCnt) > 1 ==> result == 0 && modules == old(modules) && loaded == old(loaded)
      ensures old(mp.refCnt) <= 1 ==> modules == Without(old(modules), k) && loaded == old(loaded) - {mp.entry}
      ensures old(mp.refCnt) <= 1 ==> result == unloads
      ensures mp.refCnt == old(mp.refCnt) - 1 >= 0
    {
      CountIsPositive(k);
      hide Valid;
      if mp.refCnt > 1 {
        Release(mp, k);
        return 0;
      }
      result := Discard(mp, k, unloads);
    }

    lemma CountIsPositive(k: nat)
      requires Valid() && k < |modules|
      ensures modules[k].refCnt >= 1 && modules[k].name in counts
    {
      assert Refs(modules)[k] == modules[k].refCnt;
    }

    /** Links a module that load() has just brought into memory, with count 1. */
    method Link(path: string) returns (mp: Module)
      requires Valid() && path !in counts
      modifies `modList, `modules, `counts, `loaded, `nextEntry
      ensures Valid() && fresh(mp) && mp.name == path && mp.refCnt == 1 && modules == Before(mp, old(modules))
      ensures counts == Opened(old(counts), path) && loaded == old(loaded) + {mp.entry} && mp.entry !in old(loaded)
    {
      hide Loaded, Counted, Refs, Opened, Before, Listed;
      mp := new Module(path, nextEntry, modList);
      ghost var refs := Refs(modules);
      FirstKeeps(modules, refs, counts, loaded, mp);
      NewFirst(mp, modules, refs);
      modList := mp;
      modules := Before(mp, modules);
      loaded := loaded + {nextEntry};
      nextEntry := nextEntry + 1;
      counts := Opened(counts, path);
    }

    /** The branch of dlopen for a module that is already listed. */
    method OpenOnceMore(mp: Module, ghost k: nat)
      requires Valid() && k < |modules| && modules[k] == mp
      modifies `counts, mp`refCnt
      ensures Valid() && counts == Opened(old(counts), mp.name)
    {
      hide Loaded, Counted, Refs, Opened, Listed;
      ghost var refs := Refs(modules);
      AtPosition(modules, refs, counts, loaded, nextEntry, k);
      OpenAgain(modules, refs, counts, k);
      mp.refCnt := mp.refCnt + 1;
      RefsWith(modules, refs, k, refs[k] + 1);
      counts := Opened(counts, mp.name);
    }

    /** loadbind against the modules that follow the first; -1 from any of them stops the loop. */
    method BindAll(mp: Module, binds: int -> bool) returns (bound: bool)
      requires Valid() && modules != [] && modules[0] == mp
      ensures bound <==> forall i :: 1 <= i < |modules| ==> binds(modules[i].entry)
    {
      assert modules[0].next == ModuleAt(modules, 1);
      var mp1 := mp.next;
      ghost var i := 1;
      bound := true;
      while mp1 != null
        invariant 1 <= i <= |modules| && mp1 == ModuleAt(modules, i) && bound
        invariant forall j :: 1 <= j < i ==> binds(modules[j].entry)
        decreases |modules| - i
      {
        if !binds(mp1.entry) {
          return false;
        }
        assert modules[i].next == ModuleAt(modules, i + 1);
        mp1 := mp1.next;
        i := i + 1;
      }
    }

    /** Binding the new module and reading its exports, up to the first failure. */
    method Bind(mp: Module, bindGlobally: bool, sys: Answers) returns (bound: bool)
      requires Valid() && modules != [] && modules[0] == mp
      ensures bound <==>
        && sys.bindsMain && sys.readsExports
        && (bindGlobally ==> forall i :: 1 <= i < |modules| ==> sys.binds(modules[i].entry))
    {
      hide Valid;
      bound := sys.bindsMain;
      if bound && bindGlobally {
        bound := BindAll(mp, sys.binds);
      }
      if bound {
        bound := sys.readsExports;
      }
    }

    /** Links the new module, then undoes it with dlclose if binding it or reading its exports fails. */
    method LinkAndBind(path: string, bindGlobally: bool, sys: Answers) returns (handle: Module?)
      requires Valid() && path !in counts
      modifies `modList, `modules, `counts, `loaded, `nextEntry, modules
      ensures Valid()
      ensures handle == null ==> modules == old(modules) && loaded == old(loaded) && counts == old(counts)
      ensures handle != null ==> fresh(handle) && handle.name == path && modules == Before(handle, old(modules))
      ensures handle != null ==> counts == Opened(old(counts), path)
      ensures handle != null <==>
        sys.bindsMain && sys.readsExports && (bindGlobally ==> forall m :: m in old(modules) ==> sys.binds(m.entry))
    {
      hide Valid, Opened, Closed, Before, Without;
      var mp := Link(path);
      FirstUndone(mp, old(modules), old(counts), path);
      AllBefore(mp, old(modules), sys.binds);
      var bound := Bind(mp, bindGlobally, sys);
      if bound {
        return mp;
      }
      var result := DlClose(mp, 0, sys.unloads);
      return null;
    }

    /** dlopen: a handle comes back exactly if every call of the system on the way there succeeds. */
    method DlOpen(path: string, bindGlobally: bool, sys: Answers) returns (handle: Module?)
      requires Valid()
      modifies this, modules
      ensures Valid()
      ensures handle == null ==> modules == old(modules) && loaded == old(loaded) && counts == old(counts)
      ensures handle != null ==> handle in modules && handle.name == path && counts == Opened(old(counts), path)
      ensures handle != null && path in old(counts) ==> modules == old(modules) && loaded == old(loaded)
      ensures handle != null && path !in old(counts) ==> fresh(handle) && modules == Before(handle, old(modules))
      ensures mainFound <==> old(mainFound) || sys.mainFound
      ensures handle != null <==>
        && mainFound
        && (path in old(counts)
            || (&& sys.hasMemory && sys.hasName && sys.loads && sys.bindsMain && sys.readsExports
                && (bindGlobally ==> forall m :: m in old(modules) ==> sys.binds(m.entry))))
    {
      hide Valid;
      if !mainFound {
        if !sys.mainFound {
          return null;
        }
        mainFound := true;
      }
      ghost var k;
      handle, k := Lookup(path);
      if handle != null {
        OpenOnceMore(handle, k);
        return;
      }
      if !sys.hasMemory || !sys.hasName || !sys.loads {
        return null;
      }
      handle := LinkAndBind(path, bindGlobally, sys);
    }

    /** The exit handler: closes the first module until none is left, however often each one is open. */
    method Terminate()
      requires Valid()
      modifies this, modules
      ensures Valid() && modList == null && modules == [] && loaded == {} && counts == map[]
    {
      hide Valid;
      EmptyIff();
      while modList != null
        invariant Valid() && (modList == null <==> modules == [])
        invariant forall i :: 0 <= i < |modules| ==> modules[i] in old(modules)
        invariant modules == [] ==> loaded == {} && counts == map[]
        decreases |modules|, FirstCount()
      {
        EmptyIff();
        ghost var was := modules;
        var unloads: int := *;
        var result := DlClose(modList, 0, unloads);
        EmptyIff();
        assert forall i :: 0 <= i < |modules| ==> modules[i] in was;
      }
    }

    ghost function FirstCount(): int
      reads `modules, modules`refCnt
    {
      if modules == [] then 0 else modules[0].refCnt
    }

    lemma EmptyIff()
      requires Valid()
      ensures modList == ModuleAt(modules, 0)
      ensures modules == [] ==> loaded == {} && counts == map[]
      ensures FirstCount() >= 0
    {
      if modules != [] {
        CountIsPositive(0);
      } else {
        assert forall e :: e in loaded ==> false;
        assert loaded == {};
        assert forall p :: p in counts ==> false;
        assert counts == map[];
      }
    }
  }
}
