/** Walking a dotted path through tables and creating the missing ones. */
module TablePaths {
  import opened LuaValues
  import opened Options
  import opened LuaStates

  // ---- Dotted names -------------------------------------------------------------------------

  /** The offset of the first dot, or the length. */
  function DotIndex(s: string): (e: nat)
    ensures e <= |s|
    ensures e < |s| ==> s[e] == '.'
    ensures forall i :: 0 <= i < e ==> s[i] != '.'
  {
    if s == "" || s[0] == '.' then 0 else 1 + DotIndex(s[1..])
  }

  function Components(s: string): (names: seq<string>)
    ensures names != []
    decreases |s|
  {
    var e := DotIndex(s);
    if e == |s| then [s] else [s[..e]] + Components(s[e + 1..])
  }

  function Dotted(names: seq<string>): string {
    if names == [] then ""
    else if |names| == 1 then names[0]
    else names[0] + ['.'] + Dotted(names[1..])
  }

  /** Splitting loses nothing: equal components come from equal names. */
  lemma {:induction false} DottedComponents(s: string)
    ensures Dotted(Components(s)) == s
    decreases |s|
  {
    var e := DotIndex(s);
    if e < |s| {
      var later := Components(s[e + 1..]);
      DottedComponents(s[e + 1..]);
      assert ([s[..e]] + later)[1..] == later;
      assert s == s[..e] + [s[e]] + s[e + 1..];
    }
  }

  // ---- The walk -----------------------------------------------------------------------------

  /** Every table reachable by a binding exists, nothing is bound to nil, and the next address is unused. */
  ghost predicate WellFormed(h: Heap) {
    && (forall t :: t in h.tables ==> t < h.next)
    && (forall t, k :: t in h.tables && k in h.tables[t] ==> h.tables[t][k] != Nil)
    && (forall t, k :: t in h.tables && k in h.tables[t] && h.tables[t][k].Table? ==> h.tables[t][k].id in h.tables)
  }

  datatype Outcome = Found(heap: Heap, table: nat) | Conflict(heap: Heap, rest: seq<string>)

  /** The heap after a new table has been stored under a missing field. */
  function WithField(h: Heap, t: nat, name: string): Heap
    requires t in h.tables
  {
    h.WithNewTable().Set(t, Str(name), Table(h.next))
  }

  lemma WithFieldWellFormed(h: Heap, t: nat, name: string)
    requires WellFormed(h) && t in h.tables && h.Get(t, Str(name)) == Nil
    ensures WellFormed(WithField(h, t, name)) && WithField(h, t, name).tables[h.next] == map[]
    ensures Extends(h, WithField(h, t, name))
  {
  }

  function Find(h: Heap, t: nat, names: seq<string>): (r: Outcome)
    requires WellFormed(h) && t in h.tables
    decreases |names|
  {
    if names == [] then Found(h, t)
    else
      match h.Get(t, Str(names[0]))
      case Nil =>
        WithFieldWellFormed(h, t, names[0]);
        Find(WithField(h, t, names[0]), h.next, names[1..])
      case Table(id) => Find(h, id, names[1..])
      case _ => Conflict(h, names)
  }

  /** Where a path leads, without creating anything. */
  function Resolve(h: Heap, t: nat, names: seq<string>): Option<nat>
    decreases |names|
  {
    if names == [] then Some(t)
    else
      match h.Get(t, Str(names[0]))
      case Table(id) => Resolve(h, id, names[1..])
      case _ => None
  }

  /** All bindings of h are also bindings of later. */
  ghost predicate Extends(h: Heap, later: Heap) {
    && h.next <= later.next
    && (forall t :: t in h.tables ==> t in later.tables)
    && (forall t, k :: t in h.tables && k in h.tables[t] ==> later.Get(t, k) == h.tables[t][k])
  }

  /** The walk through one component. */
  function Entered(h: Heap, t: nat, name: string): Outcome
    requires t in h.tables
  {
    match h.Get(t, Str(name))
    case Nil => Found(WithField(h, t, name), h.next)
    case Table(id) => Found(h, id)
    case _ => Conflict(h, [name])
  }

  lemma FindStep(h: Heap, t: nat, s: string)
    requires WellFormed(h) && t in h.tables
    ensures var e := DotIndex(s);
      var step := Entered(h, t, s[..e]);
      && (step.Conflict? ==> Find(h, t, Components(s)) == Conflict(h, Components(s)) && Dotted(Components(s)) == s)
      && (step.Found? ==> WellFormed(step.heap) && step.table in step.heap.tables)
      && (step.Found? && e == |s| ==> Find(h, t, Components(s)) == step)
      && (step.Found? && e < |s| ==>
        Find(h, t, Components(s)) == Find(step.heap, step.table, Components(s[e + 1..])))
  {
    var e := DotIndex(s);
    DottedComponents(s);
    if h.Get(t, Str(s[..e])) == Nil {
      WithFieldWellFormed(h, t, s[..e]);
    }
    if e == |s| {
      assert s[..e] == s;
      assert Components(s)[1..] == [];
    } else {
      assert Components(s)[1..] == Components(s[e + 1..]);
    }
  }

  // ---- Laws ---------------------------------------------------------------------------------

  lemma ExtendsIsTransitive(a: Heap, b: Heap, c: Heap)
    requires Extends(a, b) && Extends(b, c)
    requires WellFormed(a) && WellFormed(b)
    ensures Extends(a, c)
  {
    forall t, k | t in a.tables && k in a.tables[t] ensures c.Get(t, k) == a.tables[t][k] {
      assert b.Get(t, k) == a.tables[t][k];
    }
  }

  lemma {:induction false} ResolveSurvives(h: Heap, later: Heap, t: nat, names: seq<string>)
    requires WellFormed(h) && Extends(h, later) && Resolve(h, t, names).Some?
    ensures Resolve(later, t, names) == Resolve(h, t, names)
    decreases |names|
  {
    if names != [] {
      ResolveSurvives(h, later, h.Get(t, Str(names[0])).id, names[1..]);
    }
  }

  /** On success the path leads to the table found, and every earlier binding survives. */
  lemma {:induction false} FoundIsResolved(h: Heap, t: nat, names: seq<string>)
    requires WellFormed(h) && t in h.tables
    ensures var r := Find(h, t, names);
      WellFormed(r.heap) && Extends(h, r.heap) && (r.Found? ==> Resolve(r.heap, t, names) == Some(r.table))
    decreases |names|
  {
    if names != [] {
      match h.Get(t, Str(names[0]))
      case Nil =>
        var created := WithField(h, t, names[0]);
        WithFieldWellFormed(h, t, names[0]);
        FoundIsResolved(created, h.next, names[1..]);
        ExtendsIsTransitive(h, created, Find(h, t, names).heap);
        assert created.Get(t, Str(names[0])) == Table(h.next);
        assert created.tables[t][Str(names[0])] == Table(h.next);
      case Table(id) => FoundIsResolved(h, id, names[1..]);
      case _ =>
    }
  }

  /** Below a table that is still empty every name is free. */
  lemma {:induction false} EmptyTableNeverConflicts(h: Heap, t: nat, names: seq<string>)
    requires WellFormed(h) && t in h.tables && h.tables[t] == map[]
    ensures Find(h, t, names).Found?
    decreases |names|
  {
    if names != [] {
      WithFieldWellFormed(h, t, names[0]);
      EmptyTableNeverConflicts(WithField(h, t, names[0]), h.next, names[1..]);
    }
  }

  /** A conflict cannot follow a creation, so it leaves the heap as it was. */
  lemma {:induction false} ConflictChangesNothing(h: Heap, t: nat, names: seq<string>)
    requires WellFormed(h) && t in h.tables && Find(h, t, names).Conflict?
    ensures Find(h, t, names).heap == h
    decreases |names|
  {
    match h.Get(t, Str(names[0]))
    case Nil =>
      WithFieldWellFormed(h, t, names[0]);
      EmptyTableNeverConflicts(WithField(h, t, names[0]), h.next, names[1..]);
    case Table(id) => ConflictChangesNothing(h, id, names[1..]);
    case _ =>
  }

  /** The path can be followed for k names and then meets a value that is neither nil nor a table. */
  ghost predicate BlockedAt(h: Heap, t: nat, names: seq<string>, k: nat) {
    && k < |names|
    && var at := Resolve(h, t, names[..k]);
      at.Some? && var v := h.Get(at.value, Str(names[k])); v != Nil && !v.Table?
  }

  lemma BlockedBelow(h: Heap, t: nat, names: seq<string>, id: nat, k: nat)
    requires names != [] && h.Get(t, Str(names[0])) == Table(id)
    ensures BlockedAt(h, t, names, k + 1) <==> BlockedAt(h, id, names[1..], k)
  {
    if k + 1 < |names| {
      assert names[..k + 1][1..] == names[1..][..k];
    }
  }

  /** Exactly the blocked paths conflict, and the conflict names the rest of the path from the blocking name on. */
  lemma {:induction false} ConflictIffBlocked(h: Heap, t: nat, names: seq<string>)
    requires WellFormed(h) && t in h.tables
    ensures Find(h, t, names).Conflict? <==> exists k: nat :: BlockedAt(h, t, names, k)
    ensures forall k: nat :: BlockedAt(h, t, names, k) ==> Find(h, t, names) == Conflict(h, names[k..])
    decreases |names|
  {
    if names != [] {
      match h.Get(t, Str(names[0]))
      case Nil =>
        WithFieldWellFormed(h, t, names[0]);
        EmptyTableNeverConflicts(WithField(h, t, names[0]), h.next, names[1..]);
        forall k: nat ensures !BlockedAt(h, t, names, k) {
          if 0 < k < |names| { assert names[..k][0] == names[0]; }
        }
      case Table(id) =>
        ConflictIffBlocked(h, id, names[1..]);
        forall k: nat ensures BlockedAt(h, t, names, k + 1) <==> BlockedAt(h, id, names[1..], k) {
          BlockedBelow(h, t, names, id, k);
        }
        forall k: nat | BlockedAt(h, t, names, k) ensures Find(h, t, names) == Conflict(h, names[k..]) {
          BlockedBelow(h, t, names, id, k - 1);
          assert names[1..][k - 1..] == names[k..];
        }
      case _ =>
        assert names[..0] == [] && names[0..] == names;
        assert BlockedAt(h, t, names, 0);
        forall k | 0 < k < |names| ensures !BlockedAt(h, t, names, k) {
          assert names[..k][0] == names[0];
        }
    }
  }

  /** A path that already leads somewhere is found as it is. */
  lemma {:induction false} ResolvedIsFound(h: Heap, t: nat, names: seq<string>)
    requires WellFormed(h) && t in h.tables && Resolve(h, t, names).Some?
    ensures Find(h, t, names) == Found(h, Resolve(h, t, names).value)
    decreases |names|
  {
    if names != [] {
      ResolvedIsFound(h, h.Get(t, Str(names[0])).id, names[1..]);
    }
  }

  /** A second call returns the same table and creates nothing. */
  lemma FindIsIdempotent(h: Heap, t: nat, names: seq<string>)
    requires WellFormed(h) && t in h.tables && Find(h, t, names).Found?
    ensures var r := Find(h, t, names);
      WellFormed(r.heap) && t in r.heap.tables && Find(r.heap, t, names) == r
  {
    FoundIsResolved(h, t, names);
    ResolvedIsFound(Find(h, t, names).heap, t, names);
  }

  /** The only new bindings of an old table store new tables under names of the path. */
  lemma {:induction false} OnlyThePathIsCreated(h: Heap, t: nat, names: seq<string>, u: nat, key: Value)
    requires WellFormed(h) && t in h.tables && u in h.tables
    requires h.Get(u, key) == Nil && Find(h, t, names).heap.Get(u, key) != Nil
    ensures key.Str? && key.s in names
    ensures Find(h, t, names).heap.Get(u, key).Table? && Find(h, t, names).heap.Get(u, key).id >= h.next
    decreases |names|
  {
    if names != [] {
      match h.Get(t, Str(names[0]))
      case Nil =>
        var created := WithField(h, t, names[0]);
        WithFieldWellFormed(h, t, names[0]);
        if created.Get(u, key) == Nil {
          OnlyThePathIsCreated(created, h.next, names[1..], u, key);
        } else {
          FoundIsResolved(created, h.next, names[1..]);
          assert created.tables[u][key] == Table(h.next);
        }
      case Table(id) => OnlyThePathIsCreated(h, id, names[1..], u, key);
      case _ =>
    }
  }
}

/** luaL_findtable (lauxlib.c) on the Lua stack. */
module FindTables {
  import opened LuaValues
  import opened Options
  import opened StackSpec
  import opened LuaStates
  import opened TablePaths

  /** strchr(s, '.'), or the end of the string. */
  method FindDot(s: string) returns (e: nat)
    ensures e == DotIndex(s)
  {
    e := 0;
    while e < |s| && s[e] != '.'
      invariant e <= |s|
      invariant DotIndex(s) == e + DotIndex(s[e..])
    {
      assert s[e..][1..] == s[e + 1..];
      e := e + 1;
    }
  }

  ghost predicate Ready(L: LuaState)
    reads L, L.g
  {
    L.Valid() && WellFormed(L.g.heap)
  }

  /** Replaces the nil on the top by a new table, stored as the missing field of the table below. */
  method MakeField(L: LuaState, ghost below: seq<Value>, ghost t: nat, name: string)
    requires L.Valid() && L.top + 2 <= L.limit
    requires t in L.g.heap.tables
    requires L.Contents() == below + [Table(t), Nil]
    modifies L`top, L.slots, L.g`heap
    ensures L.Valid() && L.g.heap == WithField(old(L.g.heap), t, name)
    ensures L.Contents() == below + [Table(t), Table(old(L.g.heap.next))]
  {
    ghost var h := L.g.heap;
    L.Pop(1);
    assert L.Contents() == below + [Table(t)];
    L.CreateTable();
    assert L.Contents() == below + [Table(t), Table(h.next)];
    L.Push(Str(name));
    assert L.Contents() == below + [Table(t), Table(h.next), Str(name)];
    L.PushValue(-2);
    assert L.Contents() == below + [Table(t), Table(h.next), Str(name), Table(h.next)];
    L.SetTable(-4);
  }

  /** Pushes the field `name` of the table on the top of the stack, which it makes if there is none. */
  method FieldTable(L: LuaState, ghost below: seq<Value>, ghost t: nat, name: string) returns (isTable: bool)
    requires Ready(L) && L.top + 3 <= L.limit
    requires t in L.g.heap.tables && L.Contents() == below + [Table(t)]
    modifies L`top, L.slots, L.g`heap
    ensures Ready(L)
    ensures var v := old(L.g.heap).Get(t, Str(name));
      if v == Nil then
        && isTable && L.g.heap == WithField(old(L.g.heap), t, name)
        && L.Contents() == below + [Table(t), Table(old(L.g.heap.next))]
      else
        isTable == v.Table? && L.g.heap == old(L.g.heap) && L.Contents() == below + [Table(t), v]
  {
    ghost var h := L.g.heap;
    L.Push(Str(name));
    assert L.Contents() == below + [Table(t), Str(name)];
    L.RawGet(-2);
    assert L.Contents() == below + [Table(t), h.Get(t, Str(name))];
    if L.At(-1) == Nil {
      WithFieldWellFormed(h, t, name);
      MakeField(L, below, t, name);
      return true;
    }
    return L.At(-1).Table?;
  }

  /** One turn of the loop: from the table on the top to its field, or back to `below` on a conflict. */
  method Descend(L: LuaState, ghost below: seq<Value>, ghost t: nat, name: string) returns (isTable: bool)
    requires Ready(L) && L.top + 3 <= L.limit
    requires t in L.g.heap.tables && L.Contents() == below + [Table(t)]
    modifies L`top, L.slots, L.g`heap
    ensures Ready(L)
    ensures isTable == Entered(old(L.g.heap), t, name).Found?
    ensures L.g.heap == Entered(old(L.g.heap), t, name).heap
    ensures L.Contents() == below + if isTable then [Table(Entered(old(L.g.heap), t, name).table)] else []
  {
    isTable := FieldTable(L, below, t, name);
    if isTable {
      L.Remove(-2);
    } else {
      L.Pop(2);
    }
  }

  /**
   * Leaves the table the path leads to on the stack and returns None; on a conflict restores the stack and
   * returns the rest of the name, from the offending component on.
   */
  method FindTable(L: LuaState, idx: int, fname: string) returns (problem: Option<string>)
    requires Ready(L) && L.top + 4 <= L.limit
    requires L.IsReadable(idx) && L.ValueAt(idx).Table? && L.ValueAt(idx).id in L.g.heap.tables
    modifies L`top, L.slots, L.g`heap
    ensures Ready(L)
    ensures var r := old(Find(L.g.heap, L.ValueAt(idx).id, Components(fname)));
      && L.g.heap == r.heap
      && (r.Found? ==> problem == None && L.Contents() == old(L.Contents()) + [Table(r.table)])
      && (r.Conflict? ==> problem == Some(Dotted(r.rest)) && L.Contents() == old(L.Contents()))
  {
    ghost var below := L.Contents();
    ghost var t := L.ValueAt(idx).id;
    ghost var goal := Find(L.g.heap, t, Components(fname));
    L.PushValue(idx);
    var rest := fname;
    while true
      invariant Ready(L) && |below| + 4 <= L.limit
      invariant t in L.g.heap.tables && L.Contents() == below + [Table(t)]
      invariant Find(L.g.heap, t, Components(rest)) == goal
      decreases |rest|
    {
      var e := FindDot(rest);
      FindStep(L.g.heap, t, rest);
      ghost var h := L.g.heap;
      var isTable := Descend(L, below, t, rest[..e]);
      if !isTable {
        return Some(rest);
      }
      t := Entered(h, t, rest[..e]).table;
      if e == |rest| {
        return None;
      }
      rest := rest[e + 1..];
    }
  }
}
