/** Which levels a traceback lists. */
module TracebackSpec {
  const LEVELS1 := 12
  const LEVELS2 := 10

  datatype What = LuaFunction | MainChunk | CFunction | LostTailCall

  /** What lua_getinfo reports about one level. */
  datatype Info = Info(shortSrc: string, currentLine: int, nameWhat: string, name: string, what: What, lineDefined: int)

  const TAIL_CALL := Info("(tail call)", -1, "", "", LostTailCall, -1)

  /** A CallInfo above L->base_ci; only Lua functions count the tail calls they replaced. */
  datatype Call = Call(isLua: bool, tailCalls: nat, info: Info)

  function Lost(c: Call): nat {
    if c.isLua then c.tailCalls else 0
  }

  /** All levels, innermost first: each call followed by the tail calls lost beneath it. */
  function Trace(calls: seq<Call>): seq<Info> {
    if calls == [] then []
    else
      var last := calls[|calls| - 1];
      [last.info] + seq(Lost(last), _ => TAIL_CALL) + Trace(calls[..|calls| - 1])
  }

  /** One call gives its own level and, if it is a Lua function, one for each tail call it replaced. */
  lemma TraceOfOne(c: Call)
    ensures |Trace([c])| == 1 + (if c.isLua then c.tailCalls else 0) && Trace([c])[0] == c.info
    ensures forall i :: 1 <= i < |Trace([c])| ==> Trace([c])[i] == TAIL_CALL
  {
    assert Trace([c][..0]) == [];
  }

  /** Later calls come first. */
  lemma {:induction false} TraceAppend(a: seq<Call>, b: seq<Call>)
    ensures Trace(a + b) == Trace(b) + Trace(a)
    decreases |b|
  {
    if b == [] {
      assert a + b == a;
    } else {
      var n := |b| - 1;
      assert (a + b)[..|a + b| - 1] == a + b[..n];
      TraceAppend(a, b[..n]);
    }
  }

  /** A call stands right after the levels of the calls above it, and its lost tail calls right after it. */
  lemma CallStandsAt(calls: seq<Call>, k: nat)
    requires k < |calls|
    ensures var at, c := |Trace(calls[k + 1..])|, calls[k];
      var lost := if c.isLua then c.tailCalls else 0;
      && at + lost < |Trace(calls)| && Trace(calls)[at] == c.info
      && (forall i :: at < i <= at + lost ==> Trace(calls)[i] == TAIL_CALL)
      && |Trace(calls)| == at + 1 + lost + |Trace(calls[..k])|
  {
    assert calls == calls[..k] + ([calls[k]] + calls[k + 1..]);
    TraceAppend(calls[..k], [calls[k]] + calls[k + 1..]);
    TraceAppend([calls[k]], calls[k + 1..]);
    TraceOfOne(calls[k]);
    hide Trace;
    var above, own, below := Trace(calls[k + 1..]), Trace([calls[k]]), Trace(calls[..k]);
    assert Trace(calls) == above + own + below;
    forall i | 0 <= i < |own| ensures Trace(calls)[|above| + i] == own[i] {
    }
    forall i | |above| < i < |above| + |own| ensures Trace(calls)[i] == TAIL_CALL {
      assert Trace(calls)[|above| + (i - |above|)] == own[i - |above|];
    }
  }

  /** What a level stands for; the source takes a negative one for a lost tail call. */
  function InfoOf(calls: seq<Call>, level: int): Info
    requires level < |Trace(calls)|
  {
    if level < 0 then TAIL_CALL else Trace(calls)[level]
  }

  datatype Entry = Level(n: int) | Ellipsis

  function Range(lo: int, hi: int): (r: seq<Entry>)
    ensures |r| == if lo <= hi then hi - lo else 0
    ensures forall i :: 0 <= i < |r| ==> r[i] == Level(lo + i)
  {
    seq(if lo <= hi then hi - lo else 0, i => Level(lo + i))
  }

  /** The level at which the loop decides whether to leave out the middle. */
  function Cut(start: int): int {
    if start < LEVELS1 then LEVELS1 else start
  }

  predicate Elides(start: int, depth: nat) {
    depth >= Cut(start) + LEVELS2 + 2
  }

  function Shown(start: int, depth: nat): seq<Entry> {
    if Elides(start, depth) then Range(start, Cut(start)) + [Ellipsis] + Range(depth - LEVELS2, depth)
    else Range(start, depth)
  }

  /** No level is listed twice, and the listed ones are all levels unless at least two in the middle are left out. */
  lemma ShownLevels(start: int, depth: nat, k: int)
    ensures var c := Cut(start);
      Level(k) in Shown(start, depth)
      <==> start <= k < depth && (Elides(start, depth) ==> k < c || depth - LEVELS2 <= k)
    ensures Ellipsis in Shown(start, depth) <==> depth - LEVELS2 - Cut(start) >= 2
  {
    var c := Cut(start);
    if Elides(start, depth) {
      var front, back := Range(start, c), Range(depth - LEVELS2, depth);
      assert Shown(start, depth)[|front|] == Ellipsis;
      if start <= k < c {
        assert Shown(start, depth)[k - start] == Level(k);
      } else if depth - LEVELS2 <= k < depth {
        assert Shown(start, depth)[|front| + 1 + k - (depth - LEVELS2)] == Level(k);
      }
    } else if start <= k < depth {
      assert Shown(start, depth)[k - start] == Level(k);
    }
  }

  /** Levels are listed in increasing order, so none twice; the ellipsis appears once. */
  lemma ShownInOrder(start: int, depth: nat, i: nat, j: nat)
    requires i < j < |Shown(start, depth)|
    ensures var s := Shown(start, depth);
      s[i] != s[j] && (s[i].Level? && s[j].Level? ==> s[i].n < s[j].n)
  {
  }
}

/** db_errorfb of ldblib.c and lua_getstack of ldebug.c. */
module Tracebacks {
  import opened LuaValues
  import opened Options
  import opened StackSpec
  import opened TracebackSpec

  function InfoAt(calls: seq<Call>, ci: nat): Info
    requires ci <= |calls|
  {
    if ci == 0 then TAIL_CALL else calls[ci - 1].info
  }

  /** Levels seen from the innermost call first are reached by walking down the calls. */
  lemma TraceStep(calls: seq<Call>, level: int)
    requires calls != []
    ensures var last, rest := calls[|calls| - 1], calls[..|calls| - 1];
      && (level < |Trace(calls)| <==> level - 1 - Lost(last) < |Trace(rest)|)
      && (level == 0 ==> InfoOf(calls, 0) == last.info)
      && (0 < level < |Trace(calls)| ==> InfoOf(calls, level) == InfoOf(rest, level - 1 - Lost(last)))
  {
  }

  method GetStack(calls: seq<Call>, level: int) returns (found: bool, ci: nat)
    ensures found <==> level < |Trace(calls)|
    ensures found ==> ci <= |calls| && InfoAt(calls, ci) == InfoOf(calls, level)
    ensures level < 0 ==> found && ci == 0
  {
    ci := |calls|;
    var left := level;
    assert calls[..ci] == calls;
    while left > 0 && ci > 0
      invariant ci <= |calls|
      invariant level < |Trace(calls)| <==> left < |Trace(calls[..ci])|
      invariant level < |Trace(calls)| ==> InfoOf(calls, level) == InfoOf(calls[..ci], left)
    {
      ghost var here := calls[..ci];
      TraceStep(here, left);
      assert here[..ci - 1] == calls[..ci - 1];
      left := left - 1;
      if calls[ci - 1].isLua {
        left := left - calls[ci - 1].tailCalls;
      }
      ci := ci - 1;
    }
    if left == 0 && ci > 0 {
      TraceStep(calls[..ci], 0);
      found := true;
    } else if left < 0 {
      found, ci := true, 0;
    } else {
      found, ci := false, 0;
    }
  }

  // ---- The text of a traceback ----------------------------------------------------------------

  function Place(decimal: int -> string, ar: Info): string {
    if ar.nameWhat != "" then " in function '" + ar.name + "'"
    else if ar.what == MainChunk then " in main chunk"
    else if ar.what == CFunction || ar.what == LostTailCall then " ?"
    else " in function <" + ar.shortSrc + ":" + decimal(ar.lineDefined) + ">"
  }

  function LineText(decimal: int -> string, ar: Info): string {
    "\n\t" + ar.shortSrc + ":" + (if ar.currentLine > 0 then decimal(ar.currentLine) + ":" else "") + Place(decimal, ar)
  }

  /** Which of the four texts names the place of a call. */
  lemma PlaceIs(decimal: int -> string, ar: Info)
    ensures var place := Place(decimal, ar);
      && (ar.nameWhat != "" ==> place == " in function '" + ar.name + "'")
      && (place == " in main chunk" <==> ar.nameWhat == "" && ar.what == MainChunk)
      && (place == " ?" <==> ar.nameWhat == "" && (ar.what == CFunction || ar.what == LostTailCall))
      && (ar.nameWhat == "" && ar.what == LuaFunction ==>
        place == " in function <" + ar.shortSrc + ":" + decimal(ar.lineDefined) + ">")
  {
    var place := Place(decimal, ar);
    if ar.nameWhat != "" {
      assert place[13] == '\'' && |place| >= 14;
    } else if ar.what == LuaFunction {
      assert place[13] == '<' && |place| >= 14;
    }
    assert " in main chunk"[4] == 'm' && |" in main chunk"| == 14 && |" ?"| == 2;
    assert |place| >= 14 && ar.what != MainChunk ==> place[4] == 'f';
  }

  /** A line names the source, the current line if there is one, and the place. */
  lemma LineIs(decimal: int -> string, ar: Info)
    ensures ar.currentLine > 0 ==>
      LineText(decimal, ar) == "\n\t" + ar.shortSrc + ":" + decimal(ar.currentLine) + ":" + Place(decimal, ar)
    ensures ar.currentLine <= 0 ==> LineText(decimal, ar) == "\n\t" + ar.shortSrc + ":" + Place(decimal, ar)
    ensures LineText(decimal, TAIL_CALL) == "\n\t(tail call): ?" && EntryText(decimal, [], Ellipsis) == "\n\t..."
  {
  }

  predicate InTrace(calls: seq<Call>, entries: seq<Entry>) {
    forall i :: 0 <= i < |entries| && entries[i].Level? ==> entries[i].n < |Trace(calls)|
  }

  function EntryText(decimal: int -> string, calls: seq<Call>, e: Entry): string
    requires e.Level? ==> e.n < |Trace(calls)|
  {
    match e
    case Ellipsis => "\n\t..."
    case Level(n) => LineText(decimal, InfoOf(calls, n))
  }

  /** The lines of a list of entries. */
  function Lines(decimal: int -> string, calls: seq<Call>, entries: seq<Entry>): string
    requires InTrace(calls, entries)
  {
    if entries == [] then ""
    else
      var rest, last := entries[..|entries| - 1], entries[|entries| - 1];
      Lines(decimal, calls, rest) + EntryText(decimal, calls, last)
  }

  /** The arguments left after the level has been taken off, and the level to start from. */
  predicate IsNumber(readNumber: string -> Option<real>, v: Value) {
    v.Number? || (v.Str? && readNumber(v.s).Some?)
  }

  function NumberOf(readNumber: string -> Option<real>, v: Value): Value
    requires IsNumber(readNumber, v)
  {
    if v.Str? then Number(readNumber(v.s).value) else v
  }

  function StartLevel(readNumber: string -> Option<real>, args: seq<Value>, ownThread: bool): int {
    if |args| >= 2 && IsNumber(readNumber, args[1]) then ToInteger(NumberOf(readNumber, args[1]))
    else if ownThread then 1 else 0
  }

  function Message(readNumber: string -> Option<real>, args: seq<Value>): seq<Value> {
    if |args| >= 2 && IsNumber(readNumber, args[1]) then args[..|args| - 1] else args
  }

  /** What db_errorfb writes before the first line. */
  function Heading(message: seq<Value>): seq<Value> {
    message + [Str(if message == [] then "" else "\n"), Str("stack traceback:")]
  }

  /**
   * A second argument that is a number, or reads as one, is the level to start from, truncated, and the last
   * argument is dropped; without one all arguments are the message and the start is the caller, or level 0 of
   * another thread.
   */
  lemma ArgumentsSplit(readNumber: string -> Option<real>, args: seq<Value>, ownThread: bool)
    ensures |args| >= 2 && args[1].Number? ==>
      Message(readNumber, args) == args[..|args| - 1] && StartLevel(readNumber, args, ownThread) == ToInteger(args[1])
    ensures |args| >= 2 && args[1].Str? && readNumber(args[1].s).Some? ==>
      && Message(readNumber, args) == args[..|args| - 1]
      && StartLevel(readNumber, args, ownThread) == ToInteger(Number(readNumber(args[1].s).value))
    ensures |args| < 2 || !(args[1].Number? || (args[1].Str? && readNumber(args[1].s).Some?)) ==>
      Message(readNumber, args) == args && StartLevel(readNumber, args, ownThread) == if ownThread then 1 else 0
  {
  }

  /** Without a message the heading stands alone, a message stands on the line before it. */
  lemma HeadingReads(numberText: real -> string, message: seq<Value>)
    ensures JoinTexts(numberText, Heading([])) == "stack traceback:"
    ensures message != [] ==>
      JoinTexts(numberText, Heading(message)) == JoinTexts(numberText, message) + ("\n" + "stack traceback:")
  {
    hide JoinTexts;
    var title := "stack traceback:";
    assert Heading([]) == [Str(""), Str(title)];
    PairReads(numberText, "", title);
    if message != [] {
      assert Heading(message) == message + [Str("\n"), Str(title)];
      JoinTextsAppend(numberText, message, [Str("\n"), Str(title)]);
      PairReads(numberText, "\n", title);
    }
  }

  lemma PairReads(numberText: real -> string, a: string, b: string)
    ensures JoinTexts(numberText, [Str(a), Str(b)]) == a + b
  {
    JoinTextsOne(numberText, b);
    Unfolded(numberText, Str(a), [Str(b)]);
    assert [Str(a)] + [Str(b)] == [Str(a), Str(b)];
  }

  datatype Outcome = Returned(v: Value) | Raised

  /** The values above the thread argument, and the text they make together. */
  ghost predicate Reads(numberText: real -> string, values: seq<Value>, text: string) {
    values != [] && (|values| == 1 ==> values[0].Str?) && JoinTexts(numberText, values) == text
  }

  lemma ReadsPush(numberText: real -> string, values: seq<Value>, text: string, s: string)
    requires Reads(numberText, values, text)
    ensures Reads(numberText, values + [Str(s)], text + s)
  {
    JoinTextsAppend(numberText, values, [Str(s)]);
    assert JoinTexts(numberText, [Str(s)]) == s + JoinTexts(numberText, []);
  }

  lemma ReadsConcat(numberText: real -> string, values: seq<Value>, text: string)
    requires Reads(numberText, values, text)
    ensures Concatenated(numberText, values, |values|) == [Str(text)]
    ensures Reads(numberText, [Str(text)], text)
  {
    assert values[|values| - |values|..] == values;
    assert JoinTexts(numberText, [Str(text)]) == text + JoinTexts(numberText, []);
    if |values| == 1 {
      assert values[0].s == JoinTexts(numberText, values);
    }
  }

  lemma PiecesMakeTheLine(decimal: int -> string, ar: Info, text: string)
    ensures var front := text + "\n\t" + (ar.shortSrc + ":");
      var middle := if ar.currentLine > 0 then front + (decimal(ar.currentLine) + ":") else front;
      middle + Place(decimal, ar) == text + LineText(decimal, ar)
  {
    hide Place;
  }

  /** Pushes the pieces of one line and lets lua_concat join everything above the thread argument. */
  method AddLine(numberText: real -> string, decimal: int -> string, values: seq<Value>, ar: Info, ghost text: string)
    returns (joined: seq<Value>)
    requires Reads(numberText, values, text)
    ensures joined == [Str(text + LineText(decimal, ar))] && Reads(numberText, joined, text + LineText(decimal, ar))
  {
    hide Reads, LineText, Concatenated;
    ReadsPush(numberText, values, text, "\n\t");
    var pushed := values + [Str("\n\t")];
    ghost var now := text + "\n\t";
    ReadsPush(numberText, pushed, now, ar.shortSrc + ":");
    pushed, now := pushed + [Str(ar.shortSrc + ":")], now + (ar.shortSrc + ":");
    if ar.currentLine > 0 {
      ReadsPush(numberText, pushed, now, decimal(ar.currentLine) + ":");
      pushed, now := pushed + [Str(decimal(ar.currentLine) + ":")], now + (decimal(ar.currentLine) + ":");
    }
    var place: string;
    if ar.nameWhat != "" {
      place := " in function '" + ar.name + "'";
    } else if ar.what == MainChunk {
      place := " in main chunk";
    } else if ar.what == CFunction || ar.what == LostTailCall {
      place := " ?";
    } else {
      place := " in function <" + ar.shortSrc + ":" + decimal(ar.lineDefined) + ">";
    }
    ReadsPush(numberText, pushed, now, place);
    pushed, now := pushed + [Str(place)], now + place;
    PiecesMakeTheLine(decimal, ar, text);
    ReadsConcat(numberText, pushed, now);
    joined := Concatenated(numberText, pushed, |pushed|);
  }

  lemma LinesSnoc(decimal: int -> string, calls: seq<Call>, entries: seq<Entry>, e: Entry, heading: string)
    requires InTrace(calls, entries) && (e.Level? ==> e.n < |Trace(calls)|)
    ensures InTrace(calls, entries + [e])
    ensures heading + Lines(decimal, calls, entries + [e])
         == heading + Lines(decimal, calls, entries) + EntryText(decimal, calls, e)
  {
    assert (entries + [e])[..|entries|] == entries;
  }

  /** What the loop has listed when it is about to look at `level`. */
  ghost predicate Listed(start: int, depth: nat, level: int, firstPart: bool, entries: seq<Entry>) {
    var c := Cut(start);
    if firstPart then start <= level <= c && (level <= depth || level == start) && entries == Range(start, level)
    else if Elides(start, depth) then
      && depth - LEVELS2 <= level <= depth
      && entries == Range(start, c) + [Ellipsis] + Range(depth - LEVELS2, level)
    else c <= level <= depth && entries == Range(start, level)
  }

  lemma NothingListed(decimal: int -> string, calls: seq<Call>, start: int, depth: nat)
    ensures Listed(start, depth, start, true, []) && InTrace(calls, []) && Lines(decimal, calls, []) == ""
  {
  }

  lemma HeadingIsText(message: seq<Value>)
    ensures AllText(Heading(message)) <==> AllText(message)
  {
    var heading := Heading(message);
    assert forall i :: 0 <= i < |message| ==> heading[i] == message[i];
  }

  lemma ListedToTheEnd(start: int, depth: nat, level: int, firstPart: bool, entries: seq<Entry>)
    requires Listed(start, depth, level, firstPart, entries) && level >= depth
    ensures entries == Shown(start, depth)
  {
  }

  lemma ListedNext(start: int, depth: nat, level: int, firstPart: bool, entries: seq<Entry>)
    requires Listed(start, depth, level, firstPart, entries) && level < depth
    requires !(level + 1 > LEVELS1 && firstPart)
    ensures Listed(start, depth, level + 1, firstPart, entries + [Level(level)])
  {
  }

  lemma ListedDecides(start: int, depth: nat, level: int, entries: seq<Entry>)
    requires Listed(start, depth, level, true, entries) && level < depth && level + 1 > LEVELS1
    ensures level == Cut(start) && (Elides(start, depth) <==> level + 1 + LEVELS2 < depth)
    ensures !Elides(start, depth) ==> Listed(start, depth, level, false, entries)
    ensures Elides(start, depth) ==> Listed(start, depth, depth - LEVELS2, false, entries + [Ellipsis])
  {
    assert Range(depth - LEVELS2, depth - LEVELS2) == [];
  }

  /** The loop of db_errorfb, from the heading on. */
  method ListLevels(numberText: real -> string, decimal: int -> string, calls: seq<Call>, start: int,
                    heading: seq<Value>, ghost headingText: string) returns (values: seq<Value>)
    requires Reads(numberText, heading, headingText)
    ensures var shown := Shown(start, |Trace(calls)|);
      InTrace(calls, shown) && Reads(numberText, values, headingText + Lines(decimal, calls, shown))
  {
    hide Reads, LineText, Lines, Listed, Elides, Shown, Concatenated, Trace, InfoOf, InTrace, InfoAt;
    values := heading;
    ghost var depth := |Trace(calls)|;
    ghost var entries: seq<Entry> := [];
    NothingListed(decimal, calls, start, depth);
    assert headingText + "" == headingText;
    var firstPart := true;
    var level := start;
    var found: bool, ar: nat;
    found, ar := GetStack(calls, level);
    level := level + 1;
    while found
      invariant found <==> level - 1 < depth
      invariant found ==> ar <= |calls| && InfoAt(calls, ar) == InfoOf(calls, level - 1)
      invariant Listed(start, depth, level - 1, firstPart, entries)
      invariant InTrace(calls, entries)
      invariant Reads(numberText, values, headingText + Lines(decimal, calls, entries))
      decreases firstPart, depth - level, found
    {
      if level > LEVELS1 && firstPart {
        ListedDecides(start, depth, level - 1, entries);
        var more, tail := GetStack(calls, level + LEVELS2);
        if !more {
          level := level - 1;
        } else {
          ReadsPush(numberText, values, headingText + Lines(decimal, calls, entries), "\n\t...");
          LinesSnoc(decimal, calls, entries, Ellipsis, headingText);
          values := values + [Str("\n\t...")];
          entries := entries + [Ellipsis];
          while more
            invariant level + LEVELS2 <= depth && (more <==> level + LEVELS2 < depth)
            decreases depth - level
          {
            level := level + 1;
            more, tail := GetStack(calls, level + LEVELS2);
          }
        }
        firstPart := false;
      } else {
        LinesSnoc(decimal, calls, entries, Level(level - 1), headingText);
        ListedNext(start, depth, level - 1, firstPart, entries);
        values := AddLine(numberText, decimal, values, InfoAt(calls, ar), headingText + Lines(decimal, calls, entries));
        entries := entries + [Level(level - 1)];
      }
      found, ar := GetStack(calls, level);
      level := level + 1;
    }
    ListedToTheEnd(start, depth, level - 1, firstPart, entries);
  }

  method DbErrorFb(numberText: real -> string, readNumber: string -> Option<real>, decimal: int -> string,
                   calls: seq<Call>, args: seq<Value>, ownThread: bool) returns (outcome: Outcome)
    ensures var message, start := Message(readNumber, args), StartLevel(readNumber, args, ownThread);
      var shown := Shown(start, |Trace(calls)|);
      if message != [] && !IsText(message[0]) then outcome == Returned(message[|message| - 1])
      else if !AllText(message) then outcome == Raised
      else InTrace(calls, shown)
           && outcome == Returned(Str(JoinTexts(numberText, Heading(message)) + Lines(decimal, calls, shown)))
  {
    hide InTrace, Lines, JoinTexts, Shown, Concatenated, Trace;
    var level: int;
    var values := args;
    if |args| >= 2 && IsNumber(readNumber, args[1]) {
      level := ToInteger(NumberOf(readNumber, args[1]));
      values := values[..|values| - 1];
    } else {
      level := if ownThread then 1 else 0;
    }
    ghost var message := values;
    if values == [] {
      values := values + [Str("")];
    } else if !IsText(values[0]) {
      return Returned(values[|values| - 1]);
    } else {
      values := values + [Str("\n")];
    }
    values := values + [Str("stack traceback:")];
    assert values == Heading(message);
    HeadingIsText(message);
    // lua_concat raises an error on a value that is not text
    if !AllText(values) {
      return Raised;
    }
    ghost var headingText := JoinTexts(numberText, values);
    values := ListLevels(numberText, decimal, calls, level, values, headingText);
    ReadsConcat(numberText, values, headingText + Lines(decimal, calls, Shown(level, |Trace(calls)|)));
    values := Concatenated(numberText, values, |values|);
    outcome := Returned(values[0]);
  }
}
