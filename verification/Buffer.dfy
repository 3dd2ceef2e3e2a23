/** The string builder luaL_Buffer as a pure machine: pieces on the Lua stack, then characters in an array. */
module BufferSpec {
  import opened LuaStates

  const LIMIT := LUA_MINSTACK / 2

  datatype BufferState = BufferState(pieces: seq<string>, chars: string) {
    function Text(): string {
      Join(pieces) + chars
    }
  }

  const EMPTY := BufferState([], "")

  function Join(pieces: seq<string>): string {
    if pieces == [] then "" else pieces[0] + Join(pieces[1..])
  }

  /** adjuststack: the top piece absorbs the one below it while there are too many or the top is longer. */
  function Collapse(pieces: seq<string>): seq<string>
    decreases |pieces|
  {
    var n := |pieces|;
    if n <= 1 then pieces
    else if n >= LIMIT || |pieces[n - 1]| > |pieces[n - 2]| then
      Collapse(pieces[..n - 2] + [pieces[n - 2] + pieces[n - 1]])
    else pieces
  }

  /** emptybuffer. */
  function Emptied(b: BufferState): BufferState {
    if b.chars == "" then b else BufferState(b.pieces + [b.chars], "")
  }

  /** luaL_prepbuffer. */
  function Prepared(b: BufferState): BufferState {
    if b.chars == "" then b else BufferState(Collapse(b.pieces + [b.chars]), "")
  }

  /** luaL_addchar, for a char array of the given size. */
  function WithChar(size: nat, b: BufferState, c: char): BufferState {
    var ready := if |b.chars| < size then b else Prepared(b);
    ready.(chars := ready.chars + [c])
  }

  /** luaL_addlstring. */
  function WithString(size: nat, b: BufferState, s: string): BufferState
    decreases |s|
  {
    if s == "" then b else WithString(size, WithChar(size, b, s[0]), s[1..])
  }

  /** Whether luaL_addvalue copies the value into the array. */
  predicate Fits(size: nat, b: BufferState, v: string) {
    |v| <= size - |b.chars|
  }

  /** luaL_addvalue. */
  function WithValue(size: nat, b: BufferState, v: string): BufferState {
    if Fits(size, b, v) then b.(chars := b.chars + v)
    else BufferState(Collapse(Emptied(b).pieces + [v]), "")
  }

  datatype Op = AddChar(c: char) | AddString(s: string) | AddValue(v: string) | Prep

  function Apply(size: nat, b: BufferState, op: Op): BufferState {
    match op
    case AddChar(c) => WithChar(size, b, c)
    case AddString(s) => WithString(size, b, s)
    case AddValue(v) => WithValue(size, b, v)
    case Prep => Prepared(b)
  }

  function Run(size: nat, ops: seq<Op>): BufferState {
    if ops == [] then EMPTY else Apply(size, Run(size, ops[..|ops| - 1]), ops[|ops| - 1])
  }

  /** The text an operation contributes, and the text of a whole run. */
  function Contribution(op: Op): string {
    match op
    case AddChar(c) => [c]
    case AddString(s) => s
    case AddValue(v) => v
    case Prep => ""
  }

  function Added(ops: seq<Op>): string {
    if ops == [] then "" else Added(ops[..|ops| - 1]) + Contribution(ops[|ops| - 1])
  }

  // ---- Laws ---------------------------------------------------------------------------------

  lemma JoinAppend(a: seq<string>, b: seq<string>)
    ensures Join(a + b) == Join(a) + Join(b)
  {
    if a == [] {
      assert a + b == b;
    } else {
      JoinAppend(a[1..], b);
      assert (a + b)[1..] == a[1..] + b;
    }
  }

  lemma JoinSnoc(a: seq<string>, s: string)
    ensures Join(a + [s]) == Join(a) + s
  {
    JoinAppend(a, [s]);
  }

  /** Merging loses no text, and always leaves fewer than LIMIT pieces. */
  lemma {:induction false} CollapseKeepsText(pieces: seq<string>)
    ensures Join(Collapse(pieces)) == Join(pieces)
    ensures |Collapse(pieces)| < LIMIT
    ensures pieces != [] ==> Collapse(pieces) != []
    decreases |pieces|
  {
    var n := |pieces|;
    if n > 1 && (n >= LIMIT || |pieces[n - 1]| > |pieces[n - 2]|) {
      var merged := pieces[..n - 2] + [pieces[n - 2] + pieces[n - 1]];
      CollapseKeepsText(merged);
      JoinSnoc(pieces[..n - 2], pieces[n - 2] + pieces[n - 1]);
      JoinSnoc(pieces[..n - 2], pieces[n - 2]);
      JoinSnoc(pieces[..n - 1], pieces[n - 1]);
      assert pieces == pieces[..n - 1] + [pieces[n - 1]];
      assert pieces[..n - 1] == pieces[..n - 2] + [pieces[n - 2]];
    }
  }

  lemma PreparedKeepsText(b: BufferState)
    ensures Prepared(b).Text() == b.Text()
    ensures b.chars != "" ==> |Prepared(b).pieces| < LIMIT
    ensures Prepared(b).chars == ""
  {
    CollapseKeepsText(b.pieces + [b.chars]);
    JoinSnoc(b.pieces, b.chars);
  }

  lemma WithCharText(size: nat, b: BufferState, c: char)
    requires 0 < size && |b.chars| <= size && |b.pieces| < LIMIT
    ensures WithChar(size, b, c).Text() == b.Text() + [c]
    ensures |WithChar(size, b, c).chars| <= size && |WithChar(size, b, c).pieces| < LIMIT
  {
    PreparedKeepsText(b);
  }

  lemma {:induction false} WithStringText(size: nat, b: BufferState, s: string)
    requires 0 < size && |b.chars| <= size && |b.pieces| < LIMIT
    ensures WithString(size, b, s).Text() == b.Text() + s
    ensures |WithString(size, b, s).chars| <= size && |WithString(size, b, s).pieces| < LIMIT
    decreases |s|
  {
    if s != "" {
      WithCharText(size, b, s[0]);
      WithStringText(size, WithChar(size, b, s[0]), s[1..]);
      assert b.Text() + [s[0]] + s[1..] == b.Text() + s;
    }
  }

  lemma WithValueText(size: nat, b: BufferState, v: string)
    requires |b.chars| <= size && |b.pieces| < LIMIT
    ensures WithValue(size, b, v).Text() == b.Text() + v
    ensures |WithValue(size, b, v).chars| <= size && |WithValue(size, b, v).pieces| < LIMIT
  {
    CollapseKeepsText(Emptied(b).pieces + [v]);
    JoinSnoc(Emptied(b).pieces, v);
    JoinSnoc(b.pieces, b.chars);
  }

  /** Whatever is added in whatever way, the buffer holds exactly the concatenation, in fewer than LIMIT pieces. */
  lemma {:induction false} RunHoldsEverythingAdded(size: nat, ops: seq<Op>)
    requires 0 < size
    ensures Run(size, ops).Text() == Added(ops)
    ensures |Run(size, ops).chars| <= size && |Run(size, ops).pieces| < LIMIT
    decreases |ops|
  {
    if ops != [] {
      var b := Run(size, ops[..|ops| - 1]);
      RunHoldsEverythingAdded(size, ops[..|ops| - 1]);
      match ops[|ops| - 1]
      case AddChar(c) => WithCharText(size, b, c);
      case AddString(s) => WithStringText(size, b, s);
      case AddValue(v) => WithValueText(size, b, v);
      case Prep => PreparedKeepsText(b);
    }
  }

  /** The array is filled before anything is pushed: what fits into it changes no piece. */
  lemma WhatFitsIsCopied(size: nat, b: BufferState, op: Op)
    requires op != Prep && |b.chars| + |Contribution(op)| <= size
    ensures Apply(size, b, op) == b.(chars := b.chars + Contribution(op))
  {
    if op.AddString? {
      WithStringThatFits(size, b, op.s);
    }
  }

  /** What does not fit goes to the pieces: a value as one of them, a character into the emptied array. */
  lemma WhatDoesNotFitIsPushed(size: nat, b: BufferState, c: char, v: string)
    requires |b.chars| == size > 0
    ensures WithChar(size, b, c).chars == [c]
    ensures v != "" ==> WithValue(size, b, v).chars == "" && WithValue(size, b, v).pieces != []
  {
    CollapseKeepsText(Emptied(b).pieces + [v]);
  }

  // ---- The order of the pieces --------------------------------------------------------------

  /** Piece lengths do not increase from bottom to top. */
  ghost predicate Descending(pieces: seq<string>) {
    forall i :: 0 <= i < |pieces| - 1 ==> |pieces[i]| >= |pieces[i + 1]|
  }

  lemma {:induction false} CollapseDescends(pieces: seq<string>)
    requires pieces != [] && Descending(pieces[..|pieces| - 1])
    ensures Descending(Collapse(pieces))
    decreases |pieces|
  {
    var n := |pieces|;
    if n > 1 {
      var lower := pieces[..n - 1];
      assert forall i :: 0 <= i < n - 1 ==> lower[i] == pieces[i];
      if n >= LIMIT || |pieces[n - 1]| > |pieces[n - 2]| {
        var merged := pieces[..n - 2] + [pieces[n - 2] + pieces[n - 1]];
        assert merged[..n - 2] == pieces[..n - 2];
        CollapseDescends(merged);
      }
    }
  }

  /** The only path that puts two new pieces on the stack before merging. */
  predicate PushesTwo(size: nat, b: BufferState, op: Op) {
    op.AddValue? && !Fits(size, b, op.v) && b.chars != ""
  }

  lemma {:induction false} WithStringDescends(size: nat, b: BufferState, s: string)
    requires Descending(b.pieces)
    ensures Descending(WithString(size, b, s).pieces)
    decreases |s|
  {
    if s != "" {
      WithCharDescends(size, b, s[0]);
      WithStringDescends(size, WithChar(size, b, s[0]), s[1..]);
    }
  }

  lemma WithCharDescends(size: nat, b: BufferState, c: char)
    requires Descending(b.pieces)
    ensures Descending(WithChar(size, b, c).pieces) && Descending(Prepared(b).pieces)
  {
    assert (b.pieces + [b.chars])[..|b.pieces|] == b.pieces;
    CollapseDescends(b.pieces + [b.chars]);
  }

  /**
   * One operation keeps the order, except that luaL_addvalue flushing the array breaks it exactly when the
   * flushed text is longer than the piece below it and the new value does not outgrow it.
   */
  lemma StaysDescendingIff(size: nat, b: BufferState, op: Op)
    requires Descending(b.pieces)
    ensures !PushesTwo(size, b, op) ==> Descending(Apply(size, b, op).pieces)
    ensures PushesTwo(size, b, op) ==>
      (Descending(Apply(size, b, op).pieces) <==>
        || b.pieces == []
        || |b.chars| <= |b.pieces[|b.pieces| - 1]|
        || |op.v| > |b.chars|
        || |b.pieces| + 2 >= LIMIT)
  {
    match op
    case AddChar(c) => WithCharDescends(size, b, c);
    case AddString(s) => WithStringDescends(size, b, s);
    case Prep => WithCharDescends(size, b, ' ');
    case AddValue(v) =>
      if !Fits(size, b, v) {
        if b.chars == "" {
          assert (b.pieces + [v])[..|b.pieces|] == b.pieces;
          CollapseDescends(b.pieces + [v]);
        } else {
          TwoPiecesDescendIff(b, v);
        }
      }
  }

  lemma TwoPiecesDescendIff(b: BufferState, v: string)
    requires Descending(b.pieces) && b.chars != ""
    ensures Descending(Collapse(b.pieces + [b.chars] + [v])) <==>
      || b.pieces == []
      || |b.chars| <= |b.pieces[|b.pieces| - 1]|
      || |v| > |b.chars|
      || |b.pieces| + 2 >= LIMIT
  {
    var k := |b.pieces|;
    var both := b.pieces + [b.chars] + [v];
    if k + 2 >= LIMIT || |v| > |b.chars| {
      var merged := b.pieces + [b.chars + v];
      assert both[..k] + [both[k] + both[k + 1]] == merged;
      assert merged[..k] == b.pieces;
      CollapseDescends(merged);
    } else {
      assert Collapse(both) == both;
      assert both[k] == b.chars && both[k + 1] == v;
      if k > 0 {
        assert both[k - 1] == b.pieces[k - 1];
      }
    }
  }

  lemma {:induction false} WithStringThatFits(size: nat, b: BufferState, s: string)
    requires |b.chars| + |s| <= size
    ensures WithString(size, b, s) == b.(chars := b.chars + s)
    decreases |s|
  {
    if s == "" {
      assert b.chars + s == b.chars;
    } else {
      WithStringThatFits(size, WithChar(size, b, s[0]), s[1..]);
      assert b.chars + [s[0]] + s[1..] == b.chars + s;
    }
  }

  /** A short piece, a full array and a value that fits nowhere: the order is lost for every array size above 1. */
  lemma OrderCanBeLost(size: nat, full: string)
    requires 1 < size == |full|
    ensures Run(size, [AddChar('a'), Prep, AddString(full), AddValue("c")]).pieces == ["a", full, "c"]
    ensures !Descending(["a", full, "c"])
  {
    var ops := [AddChar('a'), Prep, AddString(full), AddValue("c")];
    assert ops[..3][..2] == [AddChar('a'), Prep] && ops[..3][..2][..1] == [AddChar('a')];
    assert ops[..3][..2][..1][..0] == [];
    assert Run(size, [AddChar('a')]) == BufferState([], "a");
    assert Run(size, ops[..3][..2]) == BufferState(["a"], "");
    WithStringThatFits(size, BufferState(["a"], ""), full);
    assert Run(size, ops[..3]) == BufferState(["a"], full);
    assert ["a"] + [full] + ["c"] == ["a", full, "c"];
    assert |["a", full, "c"][0]| < |["a", full, "c"][0 + 1]|;
  }

  /** On runs that never push two pieces at once the order holds throughout. */
  lemma {:induction false} RunDescends(size: nat, ops: seq<Op>)
    requires forall i :: 0 <= i < |ops| ==> !PushesTwo(size, Run(size, ops[..i]), ops[i])
    ensures Descending(Run(size, ops).pieces)
    decreases |ops|
  {
    if ops != [] {
      var earlier := ops[..|ops| - 1];
      assert forall i :: 0 <= i < |earlier| ==> earlier[..i] == ops[..i];
      RunDescends(size, earlier);
      StaysDescendingIff(size, Run(size, earlier), ops[|ops| - 1]);
    }
  }
}

/** How the pieces of a buffer lie on the stack, and the loop that merges them. */
module PieceStacks {
  import opened LuaValues
  import opened StackSpec
  import opened BufferSpec

  /** The stack values that hold the pieces. */
  function Strs(pieces: seq<string>): (r: seq<Value>)
    ensures |r| == |pieces|
    ensures forall i :: 0 <= i < |r| ==> r[i] == Str(pieces[i])
  {
    seq(|pieces|, i requires 0 <= i < |pieces| => Str(pieces[i]))
  }

  /** The stack with the pieces on top of what lay below the buffer. */
  ghost function Laid(below: seq<Value>, pieces: seq<string>): (r: seq<Value>)
    ensures |r| == |below| + |pieces|
    ensures forall i :: |below| <= i < |r| ==> r[i] == Str(pieces[i - |below|])
  {
    below + Strs(pieces)
  }

  lemma LaidSnoc(below: seq<Value>, pieces: seq<string>, s: string)
    ensures Laid(below, pieces) + [Str(s)] == Laid(below, pieces + [s])
  {
    assert Strs(pieces + [s]) == Strs(pieces) + [Str(s)];
  }

  lemma JoinOne(s: string)
    ensures Join([s]) == s
  {
    JoinSnoc([], s);
  }

  lemma {:induction false} JoinTextsOfStrs(numberText: real -> string, pieces: seq<string>)
    ensures JoinTexts(numberText, Strs(pieces)) == Join(pieces)
    decreases |pieces|
  {
    if pieces != [] {
      JoinTextsOfStrs(numberText, pieces[1..]);
      assert Strs(pieces)[1..] == Strs(pieces[1..]);
    }
  }

  /** The text of the top `toget` pieces. */
  ghost function TopText(pieces: seq<string>, toget: nat): string
    requires toget <= |pieces|
  {
    Join(pieces[|pieces| - toget..])
  }

  /** The pieces after the top `toget` of them have been joined. */
  ghost function Merged(pieces: seq<string>, toget: nat): (r: seq<string>)
    requires toget <= |pieces|
    ensures |r| == |pieces| - toget + 1
  {
    pieces[..|pieces| - toget] + [TopText(pieces, toget)]
  }

  lemma MergedOne(pieces: seq<string>)
    requires pieces != []
    ensures TopText(pieces, 1) == pieces[|pieces| - 1] && Merged(pieces, 1) == pieces
  {
    assert pieces[|pieces| - 1..] == [pieces[|pieces| - 1]];
    JoinOne(pieces[|pieces| - 1]);
  }

  /** lua_concat on pieces. */
  lemma ConcatenatedPieces(numberText: real -> string, below: seq<Value>, pieces: seq<string>, toget: nat)
    requires toget <= |pieces|
    ensures Concatenated(numberText, Laid(below, pieces), toget) == Laid(below, Merged(pieces, toget))
  {
    hide Join, JoinTexts;
    if toget == 1 {
      MergedOne(pieces);
    } else {
      var all, n := Laid(below, pieces), |pieces| - toget;
      assert all[|all| - toget..] == Strs(pieces[n..]);
      assert all[..|all| - toget] == Laid(below, pieces[..n]);
      JoinTextsOfStrs(numberText, pieces[n..]);
      LaidSnoc(below, pieces[..n], TopText(pieces, toget));
    }
  }

  /** Concatenating the pieces the loop asks for collapses them. */
  lemma LevelConcatenated(numberText: real -> string, below: seq<Value>, pieces: seq<string>, toget: nat)
    requires IsLevel(pieces, toget)
    ensures 1 <= toget <= |pieces| && |Collapse(pieces)| == |pieces| - toget + 1
    ensures Concatenated(numberText, Laid(below, pieces), toget) == Laid(below, Collapse(pieces))
  {
    LoopIsCollapse(pieces, toget);
    ConcatenatedPieces(numberText, below, pieces, toget);
  }

  /** Merging every piece, the flushed characters included, leaves the whole text. */
  lemma AllMerged(b: BufferState, flushed: seq<string>)
    requires flushed == Emptied(b).pieces
    ensures Merged(flushed, |flushed|) == [b.Text()]
  {
    JoinSnoc(b.pieces, b.chars);
    assert flushed[0..] == flushed;
    assert Join(flushed) == b.Text();
  }

  /** What luaL_pushresult concatenates. */
  lemma ResultConcatenated(numberText: real -> string, below: seq<Value>, b: BufferState)
    ensures var flushed := Emptied(b).pieces;
      Concatenated(numberText, Laid(below, flushed), |flushed|) == Laid(below, [b.Text()]) == below + [Str(b.Text())]
  {
    var flushed := Emptied(b).pieces;
    AllMerged(b, flushed);
    ConcatenatedPieces(numberText, below, flushed, |flushed|);
    LaidSnoc(below, [], b.Text());
    assert Laid(below, []) == below && [] + [b.Text()] == [b.Text()];
  }

  lemma TopTextLength(pieces: seq<string>, toget: nat)
    requires toget < |pieces|
    ensures TopText(pieces, toget + 1) == pieces[|pieces| - toget - 1] + TopText(pieces, toget)
  {
    assert pieces[|pieces| - toget - 1..][1..] == pieces[|pieces| - toget..];
  }

  /** The test of the loop in adjuststack: too many pieces, or the top text is longer than the piece below it. */
  ghost predicate Joins(pieces: seq<string>, toget: nat)
    requires toget < |pieces|
  {
    |pieces| - toget + 1 >= LIMIT || |TopText(pieces, toget)| > |pieces[|pieces| - toget - 1]|
  }

  /** One turn of the loop is one unfolding of Collapse. */
  lemma CollapseTurn(pieces: seq<string>, toget: nat)
    requires 1 <= toget < |pieces|
    ensures Collapse(Merged(pieces, toget)) ==
      if Joins(pieces, toget) then Collapse(Merged(pieces, toget + 1)) else Merged(pieces, toget)
  {
    var n := |pieces| - toget;
    var view := Merged(pieces, toget);
    TopTextLength(pieces, toget);
    assert view[..n - 1] == pieces[..n - 1];
    assert view[..n - 1] + [view[n - 1] + view[n]] == Merged(pieces, toget + 1);
  }

  /** The loop stops before a test that fails, or with one piece left. */
  lemma {:induction false} CollapseTurns(pieces: seq<string>, k: nat, toget: nat)
    requires 1 <= k <= toget <= |pieces|
    requires forall i :: k <= i < toget ==> Joins(pieces, i)
    requires toget < |pieces| ==> !Joins(pieces, toget)
    ensures Collapse(Merged(pieces, k)) == Merged(pieces, toget)
    decreases toget - k
  {
    if k < |pieces| {
      CollapseTurn(pieces, k);
      if k < toget {
        CollapseTurns(pieces, k + 1, toget);
      }
    }
  }

  /** The number of pieces at which the loop of adjuststack stops. */
  ghost predicate IsLevel(pieces: seq<string>, toget: nat) {
    && 1 <= toget <= |pieces|
    && (forall i :: 1 <= i < toget ==> Joins(pieces, i))
    && (toget < |pieces| ==> !Joins(pieces, toget))
  }

  lemma LoopIsCollapse(pieces: seq<string>, toget: nat)
    requires IsLevel(pieces, toget)
    ensures Collapse(pieces) == Merged(pieces, toget)
  {
    MergedOne(pieces);
    CollapseTurns(pieces, 1, toget);
  }
}

/** luaL_Buffer over a Lua stack (lauxlib.c, lauxlib.h). */
module Buffers {
  import opened LuaValues
  import opened StackSpec
  import opened LuaStates
  import opened BufferSpec
  import opened PieceStacks

  /** LUAL_BUFFERSIZE, from the BUFSIZ of the C library. */
  function BufferSize(bufsiz: nat): (size: nat)
    ensures size <= 16384 && (bufsiz <= 16384 ==> size == bufsiz)
  {
    if bufsiz > 16384 then 8192 else bufsiz
  }

  class Buffer {
    const L: LuaState
    const buffer: array<char>
    var p: nat
    var lvl: nat
    ghost const below: seq<Value>   // the stack under the pieces
    ghost var pieces: seq<string>

    /** LIMIT + 1 stack slots suffice for every operation. */
    ghost predicate Sound()
      reads this, L
    {
      && L.Valid() && 0 < buffer.Length && p <= buffer.Length
      && |below| + LIMIT + 1 <= L.limit
      && lvl == |pieces|
    }

    /** The pieces lie on the top of the stack. */
    ghost predicate Stacked()
      reads this, L, L.slots
    {
      Sound() && L.Contents() == Laid(below, pieces)
    }

    /** One more value lies above the pieces. */
    ghost predicate StackedUnder(v: Value)
      reads this, L, L.slots
    {
      Sound() && L.Contents() == Laid(below, pieces) + [v]
    }

    ghost predicate Valid()
      reads this, L, L.slots
    {
      Stacked() && lvl < LIMIT
    }

    ghost function State(): BufferState
      reads this, buffer
      requires p <= buffer.Length
    {
      BufferState(pieces, buffer[..p])
    }

    /** luaL_buffinit. */
    constructor (L: LuaState, bufsiz: nat)
      requires L.Valid() && L.top + LIMIT + 1 <= L.limit && 0 < bufsiz
      ensures Valid() && State() == EMPTY && below == L.Contents()
      ensures this.L == L && buffer.Length == BufferSize(bufsiz) && fresh(buffer)
    {
      this.L := L;
      buffer := new char[BufferSize(bufsiz)];
      below, pieces := L.Contents(), [];
      p, lvl := 0, 0;
    }

    method EmptyBuffer() returns (pushed: bool)
      requires Sound() && L.top < L.limit
      modifies `p, `lvl, L`top, L.slots
      ensures L.Valid() && p == 0
      ensures pushed <==> old(p) > 0
      ensures lvl == old(lvl) + if pushed then 1 else 0
      ensures !pushed ==> L.Contents() == old(L.Contents())
      ensures pushed ==> L.Contents() == old(L.Contents()) + [Str(old(buffer[..p]))]
    {
      if p == 0 {
        return false;
      }
      L.Push(Str(buffer[..p]));
      p := 0;
      lvl := lvl + 1;
      return true;
    }

    /** lua_strlen(L, -k). */
    function PieceLength(k: nat): (l: nat)
      reads this, L, L.slots
      requires Stacked() && 1 <= k <= lvl
      ensures l == |pieces[lvl - k]|
    {
      assert L.Contents()[L.top - k] == Str(pieces[lvl - k]);
      |L.At(-(k as int)).s|
    }

    /** The loop of adjuststack: how many pieces to concatenate. */
    method LevelsToGet() returns (toget: nat)
      requires Stacked() && lvl > 1
      ensures IsLevel(pieces, toget)
    {
      hide TopText, Laid;
      ghost var ps := pieces;
      toget := 1;
      var toplen := PieceLength(1);
      MergedOne(ps);
      while toget < lvl
        invariant 1 <= toget <= lvl == |ps|
        invariant toplen == |TopText(ps, toget)|
        invariant forall i :: 1 <= i < toget ==> Joins(ps, i)
      {
        var l := PieceLength(toget + 1);
        if !(lvl - toget + 1 >= LIMIT || toplen > l) {
          assert !Joins(ps, toget);
          break;
        }
        assert Joins(ps, toget);
        TopTextLength(ps, toget);
        toplen := toplen + l;
        toget := toget + 1;
      }
    }

    method AdjustStack()
      requires Stacked()
      modifies `lvl, `pieces, L`top, L.slots
      ensures Stacked() && pieces == Collapse(old(pieces))
    {
      hide IsLevel, Laid, Concatenated;
      if lvl > 1 {
        var toget := LevelsToGet();
        LevelConcatenated(L.numberText, below, pieces, toget);
        var raised := L.Concat(toget);
        lvl := lvl - toget + 1;
        pieces := Collapse(pieces);
      }
    }

    /** luaL_prepbuffer. */
    method PrepBuffer()
      requires Valid()
      modifies `p, `lvl, `pieces, L`top, L.slots
      ensures Valid() && p == 0
      ensures State() == Prepared(old(State()))
    {
      ghost var chars := buffer[..p];
      var pushed := EmptyBuffer();
      if pushed {
        CollapseKeepsText(pieces + [chars]);
        LaidSnoc(below, pieces, chars);
        pieces := pieces + [chars];
        AdjustStack();
      }
    }

    /** luaL_addchar. */
    method AddChar(c: char)
      requires Valid()
      modifies `p, `lvl, `pieces, L`top, L.slots, buffer
      ensures Valid()
      ensures State() == WithChar(buffer.Length, old(State()), c)
    {
      if p >= buffer.Length {
        PrepBuffer();
      }
      buffer[p] := c;
      p := p + 1;
    }

    /** luaL_addlstring and luaL_addstring. */
    method AddString(s: string)
      requires Valid()
      modifies `p, `lvl, `pieces, L`top, L.slots, buffer
      ensures Valid()
      ensures State() == WithString(buffer.Length, old(State()), s)
    {
      var i := 0;
      while i < |s|
        invariant 0 <= i <= |s| && Valid()
        invariant WithString(buffer.Length, State(), s[i..]) == WithString(buffer.Length, old(State()), s)
      {
        AddChar(s[i]);
        assert s[i..][1..] == s[i + 1..];
        i := i + 1;
      }
    }

    /** luaL_addvalue: takes the text value that lies on the stack above the pieces. */
    method AddValue(ghost v: Value)
      requires StackedUnder(v) && lvl < LIMIT && IsText(v)
      modifies `p, `lvl, `pieces, L`top, L.slots, buffer
      ensures Valid()
      ensures State() == WithValue(buffer.Length, old(State()), TextOf(L.numberText, v))
      ensures State().Text() == old(State().Text()) + if v.Number? then L.numberText(v.n) else v.s
    {
      WithValueText(buffer.Length, State(), TextOf(L.numberText, v));
      assert L.Contents()[L.top - 1] == v;
      ghost var chars := buffer[..p];
      var s := L.ToLString(-1);
      assert L.Contents() == Laid(below, pieces) + [Str(s)];
      if |s| <= buffer.Length - p {
        forall i | 0 <= i < |s| { buffer[p + i] := s[i]; }
        p := p + |s|;
        L.Pop(1);
        assert L.Contents() == Laid(below, pieces);
        assert buffer[..p] == chars + s;
      } else {
        FlushBelow(s);
        PieceOnTop(s);
      }
    }

    /** The value on the top of the stack becomes a piece, and the pieces are merged. */
    method PieceOnTop(ghost s: string)
      requires StackedUnder(Str(s))
      modifies `lvl, `pieces, L`top, L.slots
      ensures Valid() && pieces == Collapse(old(pieces) + [s])
    {
      CollapseKeepsText(pieces + [s]);
      LaidSnoc(below, pieces, s);
      lvl := lvl + 1;
      pieces := pieces + [s];
      AdjustStack();
    }

    /** Puts the buffered characters on the stack, before the value on its top. */
    method FlushBelow(ghost s: string)
      requires StackedUnder(Str(s)) && lvl < LIMIT
      modifies `p, `lvl, `pieces, L`top, L.slots
      ensures StackedUnder(Str(s)) && p == 0
      ensures pieces == Emptied(old(State())).pieces
    {
      ghost var chars, under := buffer[..p], Laid(below, pieces);
      var pushed := EmptyBuffer();
      if pushed {
        L.Insert(-2);
        assert L.Contents() == under + [Str(chars)] + [Str(s)];
        LaidSnoc(below, pieces, chars);
        pieces := pieces + [chars];
      }
    }

    /** luaL_pushresult: everything added becomes one string on the stack. */
    method PushResult()
      requires Valid()
      modifies `p, `lvl, `pieces, L`top, L.slots
      ensures Valid() && State() == BufferState([old(State()).Text()], "")
      ensures L.Contents() == below + [Str(old(State()).Text())]
    {
      hide Join, Collapse, Laid, Concatenated;
      ghost var was := State();
      var pushed := EmptyBuffer();
      if pushed {
        LaidSnoc(below, pieces, was.chars);
        pieces := pieces + [was.chars];
      }
      ResultConcatenated(L.numberText, below, was);
      var raised := L.Concat(lvl);
      lvl := 1;
      pieces := [was.Text()];
    }
  }
}
