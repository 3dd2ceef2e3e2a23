/** The integer-keyed part of a Lua table and the search for its length (ltable.c). */
module LuaTables {
  import opened LuaValues

  type Slots = map<int, Value>

  const MAX_INT := 0x7fff_fffd

  /** luaH_getnum: an absent slot reads as nil. */
  function GetNum(slots: Slots, n: int): Value {
    if n in slots then slots[n] else Nil
  }

  /** lua_rawseti: storing nil is the same as removing the slot. */
  function SetNum(slots: Slots, n: int, v: Value): (r: Slots)
    ensures forall i :: GetNum(r, i) == if i == n then v else GetNum(slots, i)
  {
    if v == Nil then slots - {n} else slots[n := v]
  }

  /** A length of the table in the sense of section 2.5.5 of the Lua 5.1 Reference Manual. */
  ghost predicate IsBorder(slots: Slots, n: nat) {
    (n == 0 || GetNum(slots, n) != Nil) && GetNum(slots, n + 1) == Nil
  }

  /** Slots 1..n are all taken and every slot after n is nil. */
  ghost predicate Dense(slots: Slots, n: nat) {
    && (forall i :: 1 <= i <= n ==> GetNum(slots, i) != Nil)
    && (forall i :: n < i ==> GetNum(slots, i) == Nil)
  }

  lemma BorderIsUnique(slots: Slots, n: nat, border: nat)
    requires Dense(slots, n)
    ensures IsBorder(slots, border) <==> border == n
  {
    if border < n {
      assert GetNum(slots, border + 1) != Nil;
    }
  }

  /** The binary search shared by luaH_getn and unbound_search. */
  method BinarySearch(slots: Slots, low: nat, high: nat) returns (border: nat)
    requires low < high
    requires low == 0 || GetNum(slots, low) != Nil
    requires GetNum(slots, high) == Nil
    ensures IsBorder(slots, border)
  {
    var i, j := low, high;
    while j - i > 1
      invariant low <= i < j <= high
      invariant i == 0 || GetNum(slots, i) != Nil
      invariant GetNum(slots, j) == Nil
    {
      var m := (i + j) / 2;
      if GetNum(slots, m) == Nil { j := m; } else { i := m; }
    }
    return i;
  }

  /** The part of a finite table that the linear search has still to pass. */
  ghost function KeysFrom(slots: Slots, i: int): set<int> {
    set k | k in slots.Keys && i <= k
  }

  method UnboundSearch(slots: Slots, start: nat) returns (border: nat)
    requires start == 0 || GetNum(slots, start) != Nil
    ensures IsBorder(slots, border)
  {
    var i: int, j: int := start, start + 1;
    while GetNum(slots, j) != Nil
      invariant 0 <= i < j
      invariant i == 0 || GetNum(slots, i) != Nil
      decreases MAX_INT - j
    {
      assert j < 2 * j;
      i := j;
      j := j * 2;
      if j > MAX_INT {
        // the table has an entry far beyond its dense part: search linearly
        i := 1;
        while GetNum(slots, i) != Nil
          invariant 1 <= i
          invariant i == 1 || GetNum(slots, i - 1) != Nil
          decreases KeysFrom(slots, i)
        {
          assert i in KeysFrom(slots, i) && i !in KeysFrom(slots, i + 1);
          i := i + 1;
        }
        return i - 1;
      }
    }
    assert 0 <= i < j;
    border := BinarySearch(slots, i, j);
  }

  /** luaH_getn, for a table whose array part holds slots 1..sizeArray. */
  method GetN(slots: Slots, sizeArray: nat, hashIsEmpty: bool) returns (border: nat)
    requires hashIsEmpty ==> forall i :: sizeArray < i ==> GetNum(slots, i) == Nil
    ensures IsBorder(slots, border)
  {
    if sizeArray > 0 && GetNum(slots, sizeArray) == Nil {
      border := BinarySearch(slots, 0, sizeArray);
    } else if hashIsEmpty {
      return sizeArray;
    } else {
      border := UnboundSearch(slots, sizeArray);
    }
  }
}

/** luaL_ref and luaL_unref (lauxlib.c): an allocator whose free list lives in the table it allocates from. */
module RefTables {
  import opened LuaValues
  import opened LuaTables

  const FREELIST_REF := 0
  const LUA_REFNIL := -1
  const LUA_NOREF := -2

  // ---- The representation -------------------------------------------------------------------

  /** Starting from slot `at`, each slot holds the number of the next free slot; the last holds nil. */
  ghost predicate Linked(slots: Slots, at: int, free: seq<int>)
    decreases free
  {
    if free == [] then GetNum(slots, at) == Nil
    else GetNum(slots, at) == Number(free[0] as real) && Linked(slots, free[0], free[1..])
  }

  ghost predicate NoDuplicates(s: seq<int>) {
    forall i, j :: 0 <= i < j < |s| ==> s[i] != s[j]
  }

  /** Slots 1..n are split between live values and the free list; nothing lies beyond n. */
  ghost predicate Represents(slots: Slots, free: seq<int>, n: nat) {
    && Linked(slots, FREELIST_REF, free)
    && NoDuplicates(free)
    && (forall r :: r in free ==> 1 <= r <= n)
    && (forall i :: 1 <= i <= n && i !in free ==> GetNum(slots, i) != Nil)
    && (forall i :: n < i ==> GetNum(slots, i) == Nil)
  }

  /** The finite map from live references to values that the table stands for. */
  ghost function LiveMap(slots: Slots, free: seq<int>, n: nat): map<int, Value> {
    map i | 1 <= i <= n && i !in free :: GetNum(slots, i)
  }

  // ---- The two operations as relations on the table -----------------------------------------

  /** luaL_ref(v) turns `slots` into `after` and returns `ref`; any border may serve as the length. */
  ghost predicate RefStep(slots: Slots, v: Value, ref: int, after: Slots) {
    if v == Nil then ref == LUA_REFNIL && after == slots
    else
      var head := ToInteger(GetNum(slots, FREELIST_REF));
      if head != 0 then
        ref == head && after == SetNum(SetNum(slots, FREELIST_REF, GetNum(slots, head)), head, v)
      else
        ref >= 1 && IsBorder(slots, ref - 1) && after == SetNum(slots, ref, v)
  }

  /** The table after luaL_unref(ref). */
  function Unreferenced(slots: Slots, ref: int): Slots {
    if ref < 0 then slots
    else
      var linked := SetNum(slots, ref, GetNum(slots, FREELIST_REF));
      SetNum(linked, FREELIST_REF, Number(ref as real))
  }

  // ---- What the operations keep -------------------------------------------------------------

  lemma LinkedFrame(slots: Slots, after: Slots, at: int, free: seq<int>)
    requires Linked(slots, at, free)
    requires GetNum(slots, at) == GetNum(after, at)
    requires forall r :: r in free ==> GetNum(slots, r) == GetNum(after, r)
    ensures Linked(after, at, free)
    decreases free
  {
    if free != [] {
      LinkedFrame(slots, after, free[0], free[1..]);
    }
  }

  lemma {:induction false} RefKeeps(slots: Slots, free: seq<int>, n: nat, v: Value, ref: int, after: Slots)
    requires Represents(slots, free, n)
    requires v != Nil && RefStep(slots, v, ref, after)
    ensures ref >= 1 && ref !in LiveMap(slots, free, n)
    ensures free == [] ==> ref == n + 1 && Represents(after, [], ref)
    ensures free == [] ==> LiveMap(after, [], ref) == LiveMap(slots, free, n)[ref := v]
    ensures free != [] ==> ref == free[0] && Represents(after, free[1..], n)
    ensures free != [] ==> LiveMap(after, free[1..], n) == LiveMap(slots, free, n)[ref := v]
  {
    if free == [] {
      BorderIsUnique(slots, n, ref - 1);
      assert GetNum(after, FREELIST_REF) == Nil;
    } else {
      var rest := free[1..];
      assert forall r :: r in free <==> r == free[0] || r in rest;
      assert free[0] !in rest;
      assert forall i, j :: 0 <= i < j < |rest| ==> rest[i] == free[i + 1] && rest[j] == free[j + 1];
      var popped := SetNum(slots, FREELIST_REF, GetNum(slots, ref));
      assert Linked(slots, free[0], rest);
      assert free[0] in free;
      if rest != [] {
        assert rest[0] in rest;
        assert forall r :: r in rest[1..] ==> r in rest;
        LinkedFrame(slots, after, rest[0], rest[1..]);
      }
    }
  }

  lemma {:induction false} UnrefKeeps(slots: Slots, free: seq<int>, n: nat, ref: int)
    requires Represents(slots, free, n)
    requires ref in LiveMap(slots, free, n)
    ensures Represents(Unreferenced(slots, ref), [ref] + free, n)
    ensures LiveMap(Unreferenced(slots, ref), [ref] + free, n) == LiveMap(slots, free, n) - {ref}
  {
    var after := Unreferenced(slots, ref);
    var more := [ref] + free;
    assert more[1..] == free;
    assert forall r :: r in more <==> r == ref || r in free;
    if free != [] {
      assert free[0] in free;
      assert forall r :: r in free[1..] ==> r in free;
      LinkedFrame(slots, after, free[0], free[1..]);
    }
    assert Linked(after, ref, free);
  }

  // ---- Exactly when luaL_unref is safe ------------------------------------------------------

  /** The table contents determine the free list. */
  lemma LinkedIsUnique(slots: Slots, at: int, f: seq<int>, g: seq<int>)
    requires Linked(slots, at, f) && Linked(slots, at, g)
    ensures f == g
    decreases f
  {
    if f != [] && g != [] {
      LinkedIsUnique(slots, f[0], f[1..], g[1..]);
      assert f == [f[0]] + f[1..] && g == [g[0]] + g[1..];
    }
  }

  /** A chain that starts at one of its own cells never ends. */
  lemma {:induction false} NoLinkedCycle(slots: Slots, at: int, path: seq<int>, f: seq<int>)
    requires Leads(slots, at, path) && path != [] && path[|path| - 1] == at
    ensures !Linked(slots, at, f)
    decreases |f|
  {
    if Linked(slots, at, f) {
      LeadsIsPrefix(slots, at, path, f);
      NoLinkedCycle(slots, at, path, f[|path|..]);
    }
  }

  /** Following the slots from `at` visits the cells of `path` in order. */
  ghost predicate Leads(slots: Slots, at: int, path: seq<int>)
    decreases path
  {
    path == [] || (GetNum(slots, at) == Number(path[0] as real) && Leads(slots, path[0], path[1..]))
  }

  lemma LeadsIsPrefix(slots: Slots, at: int, path: seq<int>, f: seq<int>)
    requires Linked(slots, at, f) && Leads(slots, at, path)
    ensures path <= f
    ensures Linked(slots, if path == [] then at else path[|path| - 1], f[|path|..])
    decreases path
  {
    if path != [] {
      LeadsIsPrefix(slots, path[0], path[1..], f[1..]);
      assert f[1..][|path[1..]|..] == f[|path|..];
      assert path == [path[0]] + path[1..] && f == [f[0]] + f[1..];
    }
  }

  /** The free list up to a chosen cell is a path, unless the changed slots lie on it. */
  lemma LinkedLeads(slots: Slots, after: Slots, at: int, free: seq<int>, k: nat)
    requires Linked(slots, at, free) && k <= |free|
    requires k > 0 ==> GetNum(slots, at) == GetNum(after, at)
    requires forall i :: 0 <= i < k - 1 ==> GetNum(slots, free[i]) == GetNum(after, free[i])
    ensures Leads(after, at, free[..k])
    decreases k
  {
    if k > 0 {
      LinkedLeads(slots, after, free[0], free[1..], k - 1);
      assert free[..k][1..] == free[1..][..k - 1];
    }
  }

  ghost predicate Representable(slots: Slots) {
    exists free: seq<int>, n: nat :: Represents(slots, free, n)
  }

  /**
   * luaL_unref leaves a usable table exactly for a negative reference, a live one, or the slot just past
   * the end. Freeing 0, freeing twice, or freeing farther out breaks the table.
   */
  lemma UnrefIsSafeIff(slots: Slots, free: seq<int>, n: nat, ref: int)
    requires Represents(slots, free, n)
    ensures Representable(Unreferenced(slots, ref))
      <==> ref < 0 || ref in LiveMap(slots, free, n) || ref == n + 1
  {
    var after := Unreferenced(slots, ref);
    if ref < 0 {
      assert Represents(after, free, n);
    } else if ref in LiveMap(slots, free, n) {
      UnrefKeeps(slots, free, n, ref);
      assert Represents(after, [ref] + free, n);
    } else if ref == n + 1 {
      FreePastEnd(slots, free, n);
    } else {
      forall f: seq<int>, m: nat ensures !Represents(after, f, m) {
        UnrefBreaks(slots, free, n, ref, f, m);
      }
    }
  }

  lemma FreePastEnd(slots: Slots, free: seq<int>, n: nat)
    requires Represents(slots, free, n)
    ensures Represents(Unreferenced(slots, n + 1), [n + 1] + free, n + 1)
  {
    var after := Unreferenced(slots, n + 1);
    var more := [n + 1] + free;
    assert more[1..] == free;
    assert forall r :: r in more <==> r == n + 1 || r in free;
    if free != [] {
      assert free[0] in free;
      assert forall r :: r in free[1..] ==> r in free;
      LinkedFrame(slots, after, free[0], free[1..]);
    }
    assert Linked(after, n + 1, free);
  }

  lemma UnrefBreaks(slots: Slots, free: seq<int>, n: nat, ref: int, f: seq<int>, m: nat)
    requires Represents(slots, free, n)
    requires ref == 0 || ref in free || ref > n + 1
    ensures !Represents(Unreferenced(slots, ref), f, m)
  {
    var after := Unreferenced(slots, ref);
    if Represents(after, f, m) {
      assert f != [] && f[0] == ref && f[0] in f;
      assert Linked(after, ref, f[1..]);
      if ref in free {
        // ref -> free[0] -> ... -> free[k] == ref
        var k :| 0 <= k < |free| && free[k] == ref;
        var path := free[..k + 1];
        assert forall i :: 0 <= i < k ==> free[i] in free && free[i] != ref;
        LinkedLeads(slots, after, free[0], free[1..], k);
        assert path[1..] == free[1..][..k];
        NoLinkedCycle(after, ref, path, f[1..]);
      } else {
        // slot n + 1 is nil and inside 1..m, but it is not on the free list
        assert GetNum(after, n + 1) == Nil;
        if free != [] {
          assert free[0] in free;
          assert forall r :: r in free[1..] ==> r in free;
          LinkedFrame(slots, after, free[0], free[1..]);
        }
        LinkedIsUnique(after, ref, f[1..], free);
        assert forall r :: r in f ==> r == ref || r in f[1..];
      }
    }
  }

  // ---- Every run ----------------------------------------------------------------------------

  datatype Event = Took(v: Value, ref: int) | Gave(ref: int)

  ghost predicate Step(slots: Slots, e: Event, after: Slots) {
    match e
    case Took(v, ref) => RefStep(slots, v, ref, after)
    case Gave(ref) => after == Unreferenced(slots, ref)
  }

  function AfterEvent(live: map<int, Value>, e: Event): map<int, Value> {
    match e
    case Took(v, ref) => if v == Nil then live else live[ref := v]
    case Gave(ref) => live - {ref}
  }

  /** What a client believes the live references to be. */
  function Believed(events: seq<Event>): map<int, Value> {
    if events == [] then map[]
    else AfterEvent(Believed(events[..|events| - 1]), events[|events| - 1])
  }

  /** The client gives back only sentinels and references it believes live. */
  ghost predicate Disciplined(events: seq<Event>) {
    forall i :: 0 <= i < |events| && events[i].Gave? ==>
      events[i].ref < 0 || events[i].ref in Believed(events[..i])
  }

  ghost predicate IsRun(states: seq<Slots>, events: seq<Event>) {
    && |states| == |events| + 1
    && states[0] == map[]
    && forall i :: 0 <= i < |events| ==> Step(states[i], events[i], states[i + 1])
  }

  /** One event of a disciplined run, on any representation of the table before it. */
  lemma StepRefines(slots: Slots, e: Event, after: Slots, free: seq<int>, n: nat)
    returns (free': seq<int>, n': nat)
    requires Represents(slots, free, n) && Step(slots, e, after)
    requires e.Gave? ==> e.ref < 0 || e.ref in LiveMap(slots, free, n)
    ensures Represents(after, free', n')
    ensures LiveMap(after, free', n') == AfterEvent(LiveMap(slots, free, n), e)
    ensures e.Took? && e.v != Nil ==> e.ref >= 1 && e.ref !in LiveMap(slots, free, n)
  {
    free', n' := free, n;
    match e
    case Took(v, ref) =>
      if v != Nil {
        RefKeeps(slots, free, n, v, ref, after);
        if free == [] { n' := n + 1; } else { free' := free[1..]; }
      }
    case Gave(ref) =>
      if ref >= 0 {
        UnrefKeeps(slots, free, n, ref);
        free' := [ref] + free;
      }
  }

  /** After every disciplined run the table represents exactly the client's map. */
  lemma {:induction false} EveryRunRefines(states: seq<Slots>, events: seq<Event>) returns (free: seq<int>, n: nat)
    requires IsRun(states, events) && Disciplined(events)
    ensures Represents(states[|events|], free, n)
    ensures LiveMap(states[|events|], free, n) == Believed(events)
    ensures forall i :: 0 <= i < |events| && events[i].Took? && events[i].v != Nil ==>
      events[i].ref >= 1 && events[i].ref !in Believed(events[..i])
    decreases |events|
  {
    if events == [] {
      free, n := [], 0;
    } else {
      var k := |events| - 1;
      var earlier := events[..k];
      assert forall i :: 0 <= i <= k ==> earlier[..i] == events[..i];
      free, n := EveryRunRefines(states[..k + 1], earlier);
      free, n := StepRefines(states[k], events[k], states[k + 1], free, n);
    }
  }

  // ---- The imperative form ------------------------------------------------------------------

  class RefTable {
    var slots: Slots
    ghost var free: seq<int>
    ghost var size: nat

    ghost predicate Valid()
      reads this
    {
      Represents(slots, free, size)
    }

    ghost function Live(): (live: map<int, Value>)
      reads this
      ensures forall r :: r in live ==> r >= 1
    {
      LiveMap(slots, free, size)
    }

    constructor ()
      ensures Valid() && slots == map[] && Live() == map[]
    {
      slots, free, size := map[], [], 0;
    }

    /** The array part the table happens to have is not observable, so its size is any number. */
    method Ref(v: Value, sizeArray: nat) returns (ref: int)
      requires Valid()
      modifies this
      ensures Valid()
      ensures RefStep(old(slots), v, ref, slots)
      ensures v == Nil ==> ref == LUA_REFNIL && Live() == old(Live())
      ensures v != Nil ==> ref >= 1 && ref !in old(Live()) && Live() == old(Live())[ref := v]
    {
      if v == Nil {
        return LUA_REFNIL;
      }
      ref := ToInteger(GetNum(slots, FREELIST_REF));
      if ref != 0 {
        slots := SetNum(slots, FREELIST_REF, GetNum(slots, ref));
      } else {
        ref := GetN(slots, sizeArray, false);
        ref := ref + 1;
      }
      slots := SetNum(slots, ref, v);
      RefKeeps(old(slots), free, size, v, ref, slots);
      if free == [] { size := size + 1; } else { free := free[1..]; }
    }

    /** luaL_unref accepts any number; the table stays usable exactly if it is negative, live, or next past the end. */
    method Unref(ref: int)
      requires Valid()
      modifies this
      ensures slots == Unreferenced(old(slots), ref)
      ensures Representable(slots) <==> ref < 0 || ref in old(Live()) || ref == old(size) + 1
      ensures Representable(slots) ==> Valid() && Live() == old(Live()) - {ref}
    {
      UnrefIsSafeIff(slots, free, size, ref);
      if ref >= 0 {
        slots := SetNum(slots, ref, GetNum(slots, FREELIST_REF));
        slots := SetNum(slots, FREELIST_REF, Number(ref as real));
        if ref in old(Live()) {
          UnrefKeeps(old(slots), free, size, ref);
          free := [ref] + free;
        } else if ref == size + 1 {
          FreePastEnd(old(slots), free, size);
          free, size := [ref] + free, size + 1;
          assert LiveMap(slots, free, size) == old(Live());
        }
      }
    }
  }
}
