/** What the stack operations of lapi.c mean on the sequence of values above L->base. */
module StackSpec {
  import opened LuaValues

  const LUA_REGISTRYINDEX := -10000
  const LUA_GLOBALSINDEX := -10002

  /** An index that names a slot of a stack of the given height. */
  predicate IsSlotIndex(height: nat, idx: int) {
    1 <= idx <= height || (-(height as int) <= idx <= -1 && LUA_REGISTRYINDEX < idx)
  }

  /** index2adr: the slot, counted from L->base, that an index names. */
  function Position(height: nat, idx: int): (p: nat)
    requires IsSlotIndex(height, idx)
    ensures p < height
  {
    if idx > 0 then idx - 1 else height + idx
  }

  /** The macro abs_index of lauxlib.c. */
  function AbsIndex(height: nat, idx: int): int {
    if idx > 0 || idx <= LUA_REGISTRYINDEX then idx else height + idx + 1
  }

  /** lua_insert: the top value moves down to slot p, the values from p on move up. */
  function Inserted<T>(s: seq<T>, p: nat): seq<T>
    requires p < |s|
  {
    s[..p] + [s[|s| - 1]] + s[p..|s| - 1]
  }

  function Removed<T>(s: seq<T>, p: nat): seq<T>
    requires p < |s|
  {
    s[..p] + s[p + 1..]
  }

  function Resized(s: seq<Value>, n: nat): (r: seq<Value>)
    ensures |r| == n && forall i :: 0 <= i < n ==> r[i] == if i < |s| then s[i] else Nil
  {
    if n <= |s| then s[..n] else s + seq(n - |s|, _ => Nil)
  }

  /** The height lua_settop leaves behind. */
  function NewHeight(height: nat, idx: int): int {
    if idx >= 0 then idx else height + idx + 1
  }

  /** The values lua_tolstring turns into text. */
  predicate IsText(v: Value) {
    v.Str? || v.Number?
  }

  predicate AllText(vs: seq<Value>) {
    forall i :: 0 <= i < |vs| ==> IsText(vs[i])
  }

  function TextOf(numberText: real -> string, v: Value): string {
    match v
    case Str(s) => s
    case Number(n) => numberText(n)
    case _ => ""
  }

  /** The texts of a run of values, bottom to top. */
  function JoinTexts(numberText: real -> string, vs: seq<Value>): string {
    if vs == [] then "" else TextOf(numberText, vs[0]) + JoinTexts(numberText, vs[1..])
  }

  lemma Unfolded(numberText: real -> string, v: Value, vs: seq<Value>)
    ensures JoinTexts(numberText, [v] + vs) == TextOf(numberText, v) + JoinTexts(numberText, vs)
  {
    assert ([v] + vs)[1..] == vs;
  }

  lemma {:induction false} JoinTextsAppend(numberText: real -> string, a: seq<Value>, b: seq<Value>)
    ensures JoinTexts(numberText, a + b) == JoinTexts(numberText, a) + JoinTexts(numberText, b)
    decreases |a|, 1
  {
    if a == [] {
      assert a + b == b;
    } else {
      JoinTextsAppendStep(numberText, a[0], a[1..], b);
      assert a == [a[0]] + a[1..];
    }
  }

  lemma {:induction false} JoinTextsAppendStep(numberText: real -> string, v: Value, a: seq<Value>, b: seq<Value>)
    ensures JoinTexts(numberText, ([v] + a) + b) == JoinTexts(numberText, [v] + a) + JoinTexts(numberText, b)
    decreases |a| + 1, 0
  {
    hide JoinTexts, TextOf;
    JoinTextsAppend(numberText, a, b);
    Unfolded(numberText, v, a);
    Unfolded(numberText, v, a + b);
    assert ([v] + a) + b == [v] + (a + b);
    var first, rest, more := TextOf(numberText, v), JoinTexts(numberText, a), JoinTexts(numberText, b);
    assert first + (rest + more) == (first + rest) + more;
  }

  lemma DropSecond(numberText: real -> string, v: Value, w: Value)
    requires TextOf(numberText, w) == ""
    ensures JoinTexts(numberText, [v, w]) == JoinTexts(numberText, [Str(TextOf(numberText, v))])
  {
    assert [v, w][1..] == [w] && [w][1..] == [];
    assert JoinTexts(numberText, [w]) == "";
  }

  /** Making the second value from the top a string and dropping an empty top value changes no text. */
  lemma {:induction false} DropEmptyText(numberText: real -> string, vs: seq<Value>)
    requires |vs| >= 2 && TextOf(numberText, vs[|vs| - 1]) == ""
    ensures var k := |vs| - 2;
      JoinTexts(numberText, vs[..k] + [Str(TextOf(numberText, vs[k]))]) == JoinTexts(numberText, vs)
  {
    var k := |vs| - 2;
    var kept := [Str(TextOf(numberText, vs[k]))];
    JoinTextsAppend(numberText, vs[..k], vs[k..]);
    JoinTextsAppend(numberText, vs[..k], kept);
    assert vs == vs[..k] + vs[k..];
    assert vs[k..] == [vs[k], vs[k + 1]];
    DropSecond(numberText, vs[k], vs[k + 1]);
  }

  /** Making one string of the values from k on changes no text. */
  lemma {:induction false} JoinTail(numberText: real -> string, vs: seq<Value>, k: nat)
    requires k <= |vs|
    ensures JoinTexts(numberText, vs[..k] + [Str(JoinTexts(numberText, vs[k..]))]) == JoinTexts(numberText, vs)
  {
    hide JoinTexts;
    var tail := JoinTexts(numberText, vs[k..]);
    JoinTextsAppend(numberText, vs[..k], [Str(tail)]);
    JoinTextsAppend(numberText, vs[..k], vs[k..]);
    assert vs == vs[..k] + vs[k..];
    JoinTextsOne(numberText, tail);
  }

  lemma JoinTextsOne(numberText: real -> string, s: string)
    ensures JoinTexts(numberText, [Str(s)]) == s
  {
    assert JoinTexts(numberText, [Str(s)]) == s + JoinTexts(numberText, []);
  }

  /** The cells while luaV_concat works: those from `height` on have been joined into the one below it. */
  ghost predicate JoinedDown(numberText: real -> string, cells: seq<Value>, now: seq<Value>, height: nat)
    requires 1 <= height <= |cells| == |now|
  {
    && now[..height - 1] == cells[..height - 1]
    && JoinTexts(numberText, now[..height]) == JoinTexts(numberText, cells)
    && if height == |cells| then now == cells else now[height - 1].Str? && AllText(cells[height - 1..])
  }

  lemma NothingJoined(numberText: real -> string, cells: seq<Value>)
    requires cells != []
    ensures JoinedDown(numberText, cells, cells, |cells|)
  {
    assert cells[..|cells|] == cells;
  }

  /** A pass that cannot begin has met a cell that is no text. */
  lemma OperandsAreText(numberText: real -> string, cells: seq<Value>, now: seq<Value>, height: nat)
    requires 2 <= height <= |cells| == |now| && JoinedDown(numberText, cells, now, height)
    ensures AllText(cells) ==> IsText(now[height - 1]) && IsText(now[height - 2])
  {
    assert now[height - 2] == now[..height - 1][height - 2] == cells[..height - 1][height - 2];
  }

  /** A pass joins on: its texts are those of the original cells. */
  lemma PassJoins(numberText: real -> string, cells: seq<Value>, now: seq<Value>, height: nat, at: nat)
    requires at + 2 <= height <= |cells| == |now| && JoinedDown(numberText, cells, now, height)
    requires AllText(now[at..height])
    ensures JoinedDown(numberText, cells, now[at := Str(JoinTexts(numberText, now[at..height]))], at + 1)
  {
    hide JoinTexts;
    var after := now[at := Str(JoinTexts(numberText, now[at..height]))];
    assert after[..at] == now[..height - 1][..at] == cells[..height - 1][..at] == cells[..at];
    JoinTail(numberText, now[..height], at);
    assert now[..height][at..] == now[at..height] && now[..height][..at] == now[..at];
    assert after[..at + 1] == now[..at] + [after[at]];
    TextsAbove(numberText, cells, now, height, at);
  }

  lemma TextsAbove(numberText: real -> string, cells: seq<Value>, now: seq<Value>, height: nat, at: nat)
    requires at + 2 <= height <= |cells| == |now| && JoinedDown(numberText, cells, now, height)
    requires AllText(now[at..height])
    ensures AllText(cells[at..])
  {
    hide JoinTexts;
    var above := cells[at..];
    forall i | 0 <= i < |above| ensures IsText(above[i]) {
      var k := at + i;
      if k < height - 1 {
        assert above[i] == cells[..height - 1][k] == now[..height - 1][k] == now[at..height][i];
      } else if height < |cells| {
        assert above[i] == cells[height - 1..][k - (height - 1)];
      } else {
        assert above[i] == now[at..height][i];
      }
    }
  }

  lemma SliceOfSlice<T>(s: seq<T>, lo: nat, hi: nat, i: nat, j: nat)
    requires lo <= i <= j <= hi <= |s|
    ensures s[lo..hi][i - lo..j - lo] == s[i..j]
  {
    forall k | 0 <= k < j - i ensures s[lo..hi][i - lo..j - lo][k] == s[i..j][k] {
      assert s[lo..hi][i - lo + k] == s[i + k];
    }
  }

  /** The same in the array: the cells lie at base..base + total. */
  lemma TurnJoins(numberText: real -> string, all: seq<Value>, now: seq<Value>, base: nat, total: nat,
                  height: nat, at: nat)
    requires base + total <= |all| == |now| && base <= at && at + 2 <= height <= base + total
    requires now[..base] == all[..base] && AllText(now[at..height])
    requires JoinedDown(numberText, all[base..base + total], now[base..base + total], height - base)
    ensures var after := now[at := Str(JoinTexts(numberText, now[at..height]))];
      && after[..base] == all[..base]
      && JoinedDown(numberText, all[base..base + total], after[base..base + total], at + 1 - base)
  {
    hide JoinTexts, JoinedDown, AllText;
    var cells, part := all[base..base + total], now[base..base + total];
    SliceOfSlice(now, base, base + total, at, height);
    PassJoins(numberText, cells, part, height - base, at - base);
    var v := Str(JoinTexts(numberText, now[at..height]));
    assert now[at := v][base..base + total] == part[at - base := v];
    assert now[at := v][..base] == now[..base];
  }

  /** All cells have been joined into the first. */
  lemma AllJoined(numberText: real -> string, cells: seq<Value>, now: seq<Value>)
    requires |cells| == |now| >= 2 && JoinedDown(numberText, cells, now, 1)
    ensures AllText(cells) && now[0] == Str(JoinTexts(numberText, cells))
  {
    assert cells[0..] == cells && now[..1] == [now[0]];
    JoinTextsOne(numberText, now[0].s);
  }

  /** lua_concat(n): no values make the empty string, one value stays as it is, more become one string. */
  function Concatenated(numberText: real -> string, s: seq<Value>, n: nat): seq<Value>
    requires n <= |s|
  {
    if n == 1 then s else s[..|s| - n] + [Str(JoinTexts(numberText, s[|s| - n..]))]
  }

  // ---- Laws ---------------------------------------------------------------------------------

  /** A negative index and its absolute form name the same slot, also after values have been pushed. */
  lemma AbsIndexNamesTheSameSlot(height: nat, idx: int, pushed: nat)
    requires IsSlotIndex(height, idx)
    ensures IsSlotIndex(height + pushed, AbsIndex(height, idx))
    ensures Position(height + pushed, AbsIndex(height, idx)) == Position(height, idx)
  {
  }

  /** Each slot has two names: its place counted from 1 at the bottom, and from -1 at the top. */
  lemma SlotHasTwoNames(height: nat, p: nat, idx: int)
    requires IsSlotIndex(height, idx) && p < height
    ensures Position(height, idx) == p <==> idx == p + 1 || idx == p - height
  {
  }

  /** lua_pop(L, n) is lua_settop with -n - 1. */
  lemma PopIsSetTop(s: seq<Value>, n: nat)
    requires n <= |s|
    ensures NewHeight(|s|, -(n as int) - 1) == |s| - n && Resized(s, |s| - n) == s[..|s| - n]
  {
  }

  /** A string and a number become one string, the number by its text. */
  lemma NumbersJoinAsText(numberText: real -> string, below: seq<Value>, a: string, n: real)
    ensures Concatenated(numberText, below + [Str(a), Number(n)], 2) == below + [Str(a + numberText(n))]
    ensures Concatenated(numberText, below + [Number(n), Str(a)], 2) == below + [Str(numberText(n) + a)]
    ensures Concatenated(numberText, below, 0) == below + [Str("")]
  {
    forall v: Value, w: Value
      ensures JoinTexts(numberText, [v, w]) == TextOf(numberText, v) + TextOf(numberText, w)
    {
      Unfolded(numberText, v, [w]);
      Unfolded(numberText, w, []);
      assert [v] + [w] == [v, w] && [w] + [] == [w];
    }
    hide JoinTexts;
    forall v: Value, w: Value ensures (below + [v, w])[|below|..] == [v, w] && (below + [v, w])[..|below|] == below {
    }
    JoinTextsNone(numberText);
    assert below[|below|..] == [] && below[..|below|] == below;
  }

  lemma JoinTextsNone(numberText: real -> string)
    ensures JoinTexts(numberText, []) == ""
  {
  }

  /** An insertion, a push and a removal at one index, each with the slot it names at its own height. */
  function InsertPushRemove<T>(s: seq<T>, idx: int): seq<T>
    requires IsSlotIndex(|s|, idx)
  {
    var inserted := Inserted(s, Position(|s|, idx));
    var pushed := inserted + [inserted[Position(|s|, idx)]];
    Removed(pushed, Position(|pushed|, idx))
  }

  /**
   * The three calls leave the stack as it was for every positive index. A negative one names the next slot
   * after the push, so the slot named at first ends up with the top value.
   */
  lemma InsertPushRemoveIff<T>(s: seq<T>, idx: int)
    requires IsSlotIndex(|s|, idx)
    ensures InsertPushRemove(s, idx) == if idx > 0 then s else s[Position(|s|, idx) := s[|s| - 1]]
    ensures InsertPushRemove(s, idx) == s <==> idx > 0 || s[Position(|s|, idx)] == s[|s| - 1]
  {
    var last, p := |s| - 1, Position(|s|, idx);
    var pushed := Inserted(s, p) + [s[last]];
    if idx > 0 {
      assert pushed[..p] == s[..p] && pushed[p + 1..] == s[p..last] + [s[last]];
    } else {
      var replaced := s[p := s[last]];
      assert pushed[..p + 1] == replaced[..p + 1] && pushed[p + 2..] == replaced[p + 1..];
      assert replaced[p] == s[last];
    }
  }

  lemma NegativeIndexMoves()
    ensures InsertPushRemove([1, 2, 3], -2) == [1, 3, 3]
  {
  }

  /** lua_insert loses and doubles no value. */
  lemma {:induction false} InsertKeepsValues<T>(s: seq<T>, p: nat)
    requires p < |s|
    ensures multiset(Inserted(s, p)) == multiset(s)
  {
    var last := |s| - 1;
    assert s == s[..p] + s[p..last] + [s[last]];
  }

  ghost function InsertedTimes<T>(s: seq<T>, p: nat, k: nat): (r: seq<T>)
    requires p < |s|
    ensures |r| == |s|
  {
    if k == 0 then s else Inserted(InsertedTimes(s, p, k - 1), p)
  }

  /** The last k values come first. */
  function Rotated<T>(s: seq<T>, k: nat): (r: seq<T>)
    requires k <= |s|
    ensures |r| == |s|
    ensures forall i :: 0 <= i < |s| ==> r[i] == if i < k then s[|s| - k + i] else s[i - k]
  {
    s[|s| - k..] + s[..|s| - k]
  }

  lemma InsertRotatesOnce<T>(a: seq<T>, t: seq<T>, k: nat)
    requires 1 <= k <= |t|
    ensures Inserted(a + Rotated(t, k - 1), |a|) == a + Rotated(t, k)
  {
    var before, last := Rotated(t, k - 1), |t| - 1;
    assert (a + before)[|a| + last] == t[|t| - k];
    assert Inserted(a + before, |a|) == a + ([t[|t| - k]] + before[..last]);
    assert [t[|t| - k]] + before[..last] == Rotated(t, k);
  }

  lemma {:induction false} InsertIsRotation<T>(s: seq<T>, p: nat, k: nat)
    requires p < |s| && k <= |s| - p
    ensures InsertedTimes(s, p, k) == s[..p] + Rotated(s[p..], k)
  {
    if k > 0 {
      InsertIsRotation(s, p, k - 1);
      InsertRotatesOnce(s[..p], s[p..], k);
    }
  }

  lemma FullRotationIsIdentity<T>(s: seq<T>, p: nat)
    requires p < |s|
    ensures InsertedTimes(s, p, |s| - p) == s
  {
    InsertIsRotation(s, p, |s| - p);
  }
}

/** The value stack of one Lua thread and the shared tables (lapi.c, lstate.h). */
module LuaStates {
  import opened LuaValues
  import opened StackSpec

  const EXTRA_STACK := 5
  const LUAI_MAXCSTACK := 8000
  const LUA_MINSTACK := 20

  /** A set of tables and the next unused table address. */
  datatype Heap = Heap(tables: map<nat, map<Value, Value>>, next: nat) {
    /** A raw read: an absent key reads as nil. */
    function Get(t: nat, key: Value): Value {
      if t in tables && key in tables[t] then tables[t][key] else Nil
    }

    /** A raw write of a value other than nil. */
    function Set(t: nat, key: Value, v: Value): Heap
      requires t in tables
    {
      this.(tables := tables[t := tables[t][key := v]])
    }

    function WithNewTable(): Heap {
      Heap(tables[next := map[]], next + 1)
    }
  }

  class GlobalState {
    var heap: Heap
    const registry: nat
    const globals: nat

    constructor ()
      ensures heap == Heap(map[registry := map[], globals := map[]], 2)
      ensures registry == 0 && globals == 1
    {
      registry, globals := 0, 1;
      heap := Heap(map[0 := map[], 1 := map[]], 2);
    }
  }

  class LuaState {
    const slots: array<Value>   // from L->base; its last EXTRA_STACK cells are scratch
    var top: nat                // L->top
    var limit: nat              // L->ci->top: pushing beyond it is an API error
    const g: GlobalState
    const numberText: real -> string   // lua_number2str

    ghost predicate Valid()
      reads this
    {
      slots.Length == LUAI_MAXCSTACK + EXTRA_STACK && top <= LUAI_MAXCSTACK && limit <= LUAI_MAXCSTACK
    }

    ghost function Contents(): seq<Value>
      reads this, slots
      requires Valid()
    {
      slots[..top]
    }

    /** The value of a slot. */
    function At(idx: int): (v: Value)
      reads this, slots
      requires Valid() && IsSlotIndex(top, idx)
      ensures v == Contents()[Position(top, idx)]
    {
      slots[Position(top, idx)]
    }

    constructor (g: GlobalState, numberText: real -> string)
      ensures Valid() && Contents() == [] && limit == LUA_MINSTACK && this.g == g
      ensures this.numberText == numberText && fresh(slots)
    {
      slots := new Value[LUAI_MAXCSTACK + EXTRA_STACK](_ => Nil);
      top, limit := 0, LUA_MINSTACK;
      this.g := g;
      this.numberText := numberText;
    }

    method CheckStack(size: int) returns (ok: bool)
      requires Valid()
      modifies this`limit
      ensures Valid()
      ensures ok <==> size <= LUAI_MAXCSTACK && top + size <= LUAI_MAXCSTACK
      ensures ok && size > 0 ==> top + size <= limit
      ensures old(limit) <= limit
      ensures !ok || size <= 0 ==> limit == old(limit)
    {
      ok := true;
      if size > LUAI_MAXCSTACK || top + size > LUAI_MAXCSTACK {
        ok := false;
      } else if size > 0 {
        if limit < top + size {
          limit := top + size;
        }
      }
    }

    method SetTop(idx: int)
      requires Valid()
      requires if idx >= 0 then idx <= LUAI_MAXCSTACK else -(idx + 1) <= top
      modifies this`top, slots
      ensures Valid()
      ensures Contents() == Resized(old(Contents()), NewHeight(old(top), idx))
    {
      if idx >= 0 {
        while top < idx
          invariant old(top) <= top && (top <= idx || top == old(top)) && top <= LUAI_MAXCSTACK
          invariant slots[..top] == Resized(old(Contents()), top)
        {
          slots[top] := Nil;
          top := top + 1;
        }
        top := idx;
      } else {
        top := top + idx + 1;
      }
    }

    method Push(v: Value)
      requires Valid() && top < limit
      modifies this`top, slots
      ensures Valid()
      ensures Contents() == old(Contents()) + [v]
    {
      slots[top] := v;
      top := top + 1;
    }

    method Pop(n: nat)
      requires Valid() && n <= top
      modifies this`top
      ensures Valid()
      ensures Contents() == old(Contents()[..top - n])
    {
      top := top - n;
    }

    method Remove(idx: int)
      requires Valid() && IsSlotIndex(top, idx)
      modifies this`top, slots
      ensures Valid()
      ensures Contents() == Removed(old(Contents()), Position(old(top), idx))
    {
      ghost var was := Contents();
      var p := Position(top, idx);
      var q := p + 1;
      while q < top
        invariant p < q <= top == old(top)
        invariant forall i :: 0 <= i < q - 1 ==> slots[i] == Removed(was, p)[i]
        invariant forall i :: q <= i < top ==> slots[i] == was[i]
      {
        assert slots[q] == Removed(was, p)[q - 1];
        slots[q - 1] := slots[q];
        q := q + 1;
      }
      top := top - 1;
    }

    /** The cell just above the top serves as scratch space. */
    method Insert(idx: int)
      requires Valid() && IsSlotIndex(top, idx)
      modifies slots
      ensures Valid()
      ensures Contents() == Inserted(old(Contents()), Position(top, idx))
    {
      ghost var was := Contents();
      var p := Position(top, idx);
      var q := top;
      while q > p
        invariant p <= q <= top
        invariant forall i :: 0 <= i < q ==> slots[i] == was[i]
        invariant forall i :: q < i < top ==> slots[i] == Inserted(was, p)[i]
        invariant q < top ==> slots[top] == was[top - 1]
      {
        assert q < top ==> Inserted(was, p)[q] == was[q - 1];
        slots[q] := slots[q - 1];
        q := q - 1;
      }
      slots[p] := slots[top];
    }

    method Replace(idx: int)
      requires Valid() && IsSlotIndex(top, idx)
      modifies this`top, slots
      ensures Valid()
      ensures var was := old(Contents());
        Contents() == was[Position(old(top), idx) := was[|was| - 1]][..|was| - 1]
    {
      slots[Position(top, idx)] := slots[top - 1];
      top := top - 1;
    }

    /** index2adr, for stack slots and the two table pseudo-indices that need no C closure. */
    ghost predicate IsReadable(idx: int)
      reads this
    {
      IsSlotIndex(top, idx) || idx == LUA_REGISTRYINDEX || idx == LUA_GLOBALSINDEX
    }

    function ValueAt(idx: int): Value
      reads this, slots
      requires Valid() && IsReadable(idx)
    {
      if idx == LUA_REGISTRYINDEX then Table(g.registry)
      else if idx == LUA_GLOBALSINDEX then Table(g.globals)
      else slots[Position(top, idx)]
    }

    method PushValue(idx: int)
      requires Valid() && IsReadable(idx) && top < limit
      modifies this`top, slots
      ensures Valid()
      ensures Contents() == old(Contents() + [ValueAt(idx)])
    {
      slots[top] := ValueAt(idx);
      top := top + 1;
    }

    /** lua_tolstring on a text value: a number in the slot is replaced by its text. */
    method ToLString(idx: int) returns (s: string)
      requires Valid() && IsSlotIndex(top, idx) && IsText(Contents()[Position(top, idx)])
      modifies slots
      ensures s == TextOf(numberText, old(Contents()[Position(top, idx)]))
      ensures var v := old(Contents()[Position(top, idx)]); s == if v.Number? then numberText(v.n) else v.s
      ensures Contents() == old(Contents())[Position(top, idx) := Str(s)]
    {
      var p := Position(top, idx);
      s := TextOf(numberText, slots[p]);
      slots[p] := Str(s);
    }

    /** The buffer filled by luaV_concat from the cells base..height. */
    method CollectText(base: nat, height: nat) returns (buffer: string)
      requires Valid() && base <= height <= top
      ensures buffer == JoinTexts(numberText, slots[base..height])
    {
      var i := base;
      buffer := "";
      while i < height
        invariant base <= i <= height
        invariant buffer == JoinTexts(numberText, slots[base..i])
      {
        JoinTextsAppend(numberText, slots[base..i], [slots[i]]);
        assert slots[base..i + 1] == slots[base..i] + [slots[i]];
        buffer := buffer + TextOf(numberText, slots[i]);
        i := i + 1;
      }
    }

    /** One pass of luaV_concat: the two top cells, and as many texts below them as there are, become one. */
    method JoinPass(base: nat, height: nat) returns (at: nat)
      requires Valid() && base + 2 <= height <= top && IsText(slots[height - 1]) && IsText(slots[height - 2])
      modifies slots
      ensures base <= at <= height - 2 && AllText(old(slots[at..height]))
      ensures slots[..] == old(slots[..])[at := Str(JoinTexts(numberText, old(slots[at..height])))]
    {
      hide JoinTexts;
      at := height - 2;
      if TextOf(numberText, slots[height - 1]) == "" {
        // the upper operand is empty: the lower one, as a string, is the result
        assert slots[at..height] == [slots[at], slots[at + 1]];
        DropSecond(numberText, slots[at], slots[at + 1]);
        JoinTextsOne(numberText, TextOf(numberText, slots[at]));
        slots[at] := Str(TextOf(numberText, slots[at]));
      } else {
        while at > base && IsText(slots[at - 1])
          invariant base <= at <= height - 2 && forall i :: at <= i < height ==> IsText(slots[i])
        {
          at := at - 1;
        }
        var buffer := CollectText(at, height);
        slots[at] := Str(buffer);
      }
    }

    /** luaV_concat without metamethods: joins the cells into the one at base; a cell without text raises an error. */
    method JoinCells(base: nat, total: nat) returns (raised: bool)
      requires Valid() && 2 <= total && base + total <= top
      modifies slots
      ensures raised <==> !AllText(old(slots[base..base + total]))
      ensures slots[..base] == old(slots[..base])
      ensures !raised ==> slots[base] == Str(JoinTexts(numberText, old(slots[base..base + total])))
    {
      hide JoinTexts, AllText, JoinedDown;
      ghost var all := slots[..];
      ghost var cells := all[base..base + total];
      assert slots[base..base + total] == cells;
      NothingJoined(numberText, cells);
      var height := base + total;
      while height - base > 1
        invariant base + 1 <= height <= base + total
        invariant slots[..][..base] == all[..base]
        invariant JoinedDown(numberText, cells, slots[..][base..base + total], height - base)
      {
        ghost var now := slots[..];
        OperandsAreText(numberText, cells, now[base..base + total], height - base);
        if !IsText(slots[height - 2]) || !IsText(slots[height - 1]) {
          assert slots[..base] == now[..base];
          return true;
        }
        assert slots[base..height] == now[base..height];
        var at := JoinPass(base, height);
        TurnJoins(numberText, all, now, base, total, height, at);
        height := at + 1;
      }
      assert slots[..base] == slots[..][..base] && old(slots[..base]) == all[..base];
      AllJoined(numberText, cells, slots[..][base..base + total]);
      return false;
    }

    /** lua_concat; on an error the values stay where the frame is about to be dropped. */
    method Concat(n: nat) returns (raised: bool)
      requires Valid() && n <= top && (n == 0 ==> top < limit)
      modifies this`top, slots
      ensures Valid()
      ensures raised <==> n >= 2 && !AllText(old(Contents())[old(top) - n..])
      ensures !raised ==> Contents() == Concatenated(numberText, old(Contents()), n)
      ensures n == 1 ==> Contents() == old(Contents())
    {
      raised := false;
      if n >= 2 {
        assert slots[top - n..top] == Contents()[top - n..];
        raised := JoinCells(top - n, n);
        if !raised {
          top := top - (n - 1);
        }
      } else if n == 0 {
        Push(Str(""));
      }
    }

    // ---- Tables, by raw access ----------------------------------------------------------------

    /** lua_rawget: the key on the top becomes the value the table at idx has for it. */
    method RawGet(idx: int)
      requires Valid() && IsSlotIndex(top, idx) && Contents()[Position(top, idx)].Table?
      modifies slots
      ensures var s := old(Contents());
        Contents() == s[..|s| - 1] + [g.heap.Get(s[Position(top, idx)].id, s[|s| - 1])]
    {
      slots[top - 1] := g.heap.Get(slots[Position(top, idx)].id, slots[top - 1]);
    }

    /** lua_createtable; the size hints are not observable. */
    method CreateTable()
      requires Valid() && top < limit
      modifies this`top, slots, g`heap
      ensures Valid() && Contents() == old(Contents()) + [Table(old(g.heap.next))]
      ensures g.heap == old(g.heap).WithNewTable()
    {
      Push(Table(g.heap.next));
      g.heap := g.heap.WithNewTable();
    }

    /** lua_settable on a table without metamethods: pops a value and, below it, its key. */
    method SetTable(idx: int)
      requires Valid() && IsSlotIndex(top, idx) && top >= 2
      requires Contents()[Position(top, idx)].Table? && Contents()[Position(top, idx)].id in g.heap.tables
      requires Contents()[top - 1] != Nil && Contents()[top - 2] != Nil
      modifies this`top, g`heap
      ensures Valid() && Contents() == old(Contents())[..old(top) - 2]
      ensures var s := old(Contents());
        g.heap == old(g.heap).Set(s[Position(old(top), idx)].id, s[|s| - 2], s[|s| - 1])
    {
      g.heap := g.heap.Set(slots[Position(top, idx)].id, slots[top - 2], slots[top - 1]);
      top := top - 2;
    }

    /** lua_xmove. */
    static method XMove(from: LuaState, to: LuaState, n: nat)
      requires from.Valid() && to.Valid()
      requires n <= from.top && (from != to ==> to.top + n <= to.limit)
      requires from.g == to.g
      requires from != to ==> from.slots != to.slots
      modifies from`top, to`top, to.slots
      ensures from.Valid() && to.Valid()
      ensures from == to ==> to.Contents() == old(to.Contents())
      ensures from != to ==> from.Contents() == old(from.Contents()[..from.top - n])
      ensures from != to ==> to.Contents() == old(to.Contents() + from.Contents()[from.top - n..])
    {
      if from == to {
        return;
      }
      from.top := from.top - n;
      var i := 0;
      while i < n
        invariant 0 <= i <= n
        invariant from.top == old(from.top) - n
        invariant to.top == old(to.top) + i
        invariant from.slots[..] == old(from.slots[..])
        invariant to.slots[..to.top] == old(to.slots[..to.top]) + from.slots[from.top..from.top + i]
      {
        to.slots[to.top] := from.slots[from.top + i];
        to.top := to.top + 1;
        i := i + 1;
      }
    }
  }
}
