/** The conversation with SQLite behind one step of a statement: which call follows which answer. */
module SqliteAnswers {
  import opened SqliteEngine

  /** An error is followed by a reset, a changed schema by a new prepare, a successful one by the old one's end. */
  predicate Follows(a: Call, b: Call) {
    match a
    case StepCall(_, code) => if code == SQLITE_ERROR then b.ResetCall? else code == SQLITE_SCHEMA && b.PrepareCall?
    case ResetCall(_, code) => code == SQLITE_SCHEMA && b.PrepareCall?
    case PrepareCall(_, _, code, _) => code == SQLITE_OK && b.FinalizeCall?
    case FinalizeCall(_, _) => b.StepCall?
    case _ => false
  }

  /** The statement held after some calls: the one prepared last, once the old one is finalized. */
  function Current(calls: seq<Call>, h: int): int {
    var n := |calls|;
    if n == 0 then h
    else if n >= 2 && calls[n - 1].FinalizeCall? && calls[n - 2].PrepareCall? then calls[n - 2].stmt
    else Current(calls[..n - 1], h)
  }

  /** How often the statement was replaced, and how often it was stepped. */
  function Replaced(calls: seq<Call>): nat {
    if calls == [] then 0
    else Replaced(calls[..|calls| - 1]) + if calls[|calls| - 1].FinalizeCall? then 1 else 0
  }

  function Tries(calls: seq<Call>): nat {
    if calls == [] then 0
    else Tries(calls[..|calls| - 1]) + if calls[|calls| - 1].StepCall? then 1 else 0
  }

  /** The last code that SQLite gave; what a finalization says is not looked at. */
  function Answer(calls: seq<Call>): int {
    if calls == [] then SQLITE_OK
    else
      var last := calls[|calls| - 1];
      if last.StepCall? || last.ResetCall? || last.PrepareCall? then last.code else Answer(calls[..|calls| - 1])
  }

  /** Calls in an allowed order, each on the statement held at the time, or preparing its text on its connection. */
  ghost predicate Chain(calls: seq<Call>, h: int, conn: int, sql: string) {
    && (calls != [] ==> calls[0].StepCall?)
    && (forall i :: 0 <= i < |calls| - 1 ==> Follows(calls[i], calls[i + 1]))
    && (forall i :: 0 <= i < |calls| && (calls[i].StepCall? || calls[i].ResetCall? || calls[i].FinalizeCall?) ==>
      calls[i].stmt == Current(calls[..i], h))
    && (forall i :: 0 <= i < |calls| && calls[i].PrepareCall? ==> calls[i].conn == conn && calls[i].sql == sql)
  }

  /** Nothing is asked after such an answer. */
  predicate IsFinal(c: Call) {
    match c
    case StepCall(_, code) => code != SQLITE_ERROR && code != SQLITE_SCHEMA
    case ResetCall(_, code) => code != SQLITE_SCHEMA
    case PrepareCall(_, _, code, _) => code != SQLITE_OK
    case _ => false
  }

  /** A whole conversation: it goes on to a final answer, or until three tries have each met a changed schema. */
  ghost predicate Stepping(calls: seq<Call>, h: int, conn: int, sql: string) {
    && Chain(calls, h, conn, sql) && calls != [] && Tries(calls) <= 3
    && (IsFinal(calls[|calls| - 1]) || (calls[|calls| - 1].FinalizeCall? && Tries(calls) == 3))
  }

  lemma AskedInOrder(calls: seq<Call>, c: Call, h: int, conn: int, sql: string)
    requires Chain(calls, h, conn, sql)
    requires if calls == [] then c.StepCall? else Follows(calls[|calls| - 1], c)
    requires if c.PrepareCall? then c.conn == conn && c.sql == sql else c.stmt == Current(calls, h)
    ensures Chain(calls + [c], h, conn, sql)
  {
    hide Follows, Current;
    var more := calls + [c];
    assert more[..|calls|] == calls;
    assert forall i :: 0 <= i < |calls| ==> more[..i] == calls[..i];
    assert forall i :: 0 <= i < |calls| ==> more[i] == calls[i];
  }

  /** One call more. */
  lemma Asked(calls: seq<Call>, c: Call, h: int, conn: int, sql: string)
    requires Chain(calls, h, conn, sql)
    requires if calls == [] then c.StepCall? else Follows(calls[|calls| - 1], c)
    requires if c.PrepareCall? then c.conn == conn && c.sql == sql else c.stmt == Current(calls, h)
    ensures var more := calls + [c];
      && Chain(more, h, conn, sql)
      && Tries(more) == Tries(calls) + (if c.StepCall? then 1 else 0)
      && Replaced(more) == Replaced(calls) + (if c.FinalizeCall? then 1 else 0)
      && Answer(more) == (if c.FinalizeCall? then Answer(calls) else c.code)
      && (!c.FinalizeCall? ==> Current(more, h) == Current(calls, h))
      && (c.FinalizeCall? ==> Current(more, h) == calls[|calls| - 1].stmt)
  {
    AskedInOrder(calls, c, h, conn, sql);
    hide Chain;
    assert (calls + [c])[..|calls|] == calls;
  }

  /** The calls made since some moment, in two parts. */
  lemma SinceThen(before: seq<Call>, calls: seq<Call>, rest: seq<Call>)
    ensures var after := before + calls + rest;
      && before <= after && after[|before|..] == calls + rest
      && (calls + rest)[..|calls|] == calls && (calls + rest)[|calls|..] == rest
  {
  }

  // ---- Laws -----------------------------------------------------------------------------------

  /** A first answer that is neither an error nor a changed schema is the result, and nothing else is asked. */
  lemma FirstAnswerDecides(calls: seq<Call>, h: int, conn: int, sql: string)
    requires Stepping(calls, h, conn, sql)
    ensures calls[0].StepCall? && calls[0].stmt == h
    ensures calls[0].code != SQLITE_ERROR && calls[0].code != SQLITE_SCHEMA ==>
      calls == [StepCall(h, calls[0].code)] && Answer(calls) == calls[0].code && Replaced(calls) == 0
  {
    assert calls[..0] == [];
    if calls[0].code != SQLITE_ERROR && calls[0].code != SQLITE_SCHEMA {
      assert |calls| > 1 ==> Follows(calls[0], calls[0 + 1]);
    }
  }

  /** An error is looked into by one reset, whose answer then takes the place of the error. */
  lemma ErrorIsReset(calls: seq<Call>, h: int, conn: int, sql: string)
    requires Stepping(calls, h, conn, sql) && calls[0].code == SQLITE_ERROR
    ensures |calls| >= 2 && calls[1].ResetCall? && calls[1].stmt == h
    ensures calls[1].code != SQLITE_SCHEMA ==> |calls| == 2 && Answer(calls) == calls[1].code && Replaced(calls) == 0
  {
    assert calls[0].StepCall?;
    assert Follows(calls[0], calls[0 + 1]);
    assert calls[..1] == [calls[0]] && calls[..1][..0] == [];
    assert |calls| > 2 ==> Follows(calls[1], calls[1 + 1]);
    if calls[1].code != SQLITE_SCHEMA {
      assert |calls| == 2 && Replaced(calls[..1]) == Replaced(calls[..1][..0]) == 0;
    }
  }

  /** A step or reset that answers with a changed schema. */
  predicate SchemaChanged(c: Call) {
    (c.StepCall? || c.ResetCall?) && c.code == SQLITE_SCHEMA
  }

  /** How often a changed schema was met by a successful prepare. */
  function Renewals(calls: seq<Call>): nat {
    var n := |calls|;
    if n < 2 then 0
    else
      Renewals(calls[..n - 1])
      + if SchemaChanged(calls[n - 2]) && calls[n - 1].PrepareCall? && calls[n - 1].code == SQLITE_OK then 1 else 0
  }

  /** A prepare comes exactly after a changed schema, so the statement is replaced once for each renewal. */
  lemma ReplacedOncePerRenewal(calls: seq<Call>, h: int, conn: int, sql: string)
    requires Stepping(calls, h, conn, sql)
    ensures forall i :: 0 <= i < |calls| - 1 ==> (SchemaChanged(calls[i]) <==> calls[i + 1].PrepareCall?)
    ensures !SchemaChanged(calls[|calls| - 1])
    ensures Replaced(calls) == Renewals(calls)
  {
    ChainRenewals(calls, h, conn, sql);
  }

  lemma {:induction false} ChainRenewals(calls: seq<Call>, h: int, conn: int, sql: string)
    requires Chain(calls, h, conn, sql) && calls != []
    ensures Renewals(calls)
         == Replaced(calls) + if calls[|calls| - 1].PrepareCall? && calls[|calls| - 1].code == SQLITE_OK then 1 else 0
    decreases |calls|
  {
    var n := |calls| - 1;
    if n > 0 {
      ChainFront(calls, h, conn, sql);
      ChainRenewals(calls[..n], h, conn, sql);
      assert Follows(calls[n - 1], calls[n - 1 + 1]);
    } else {
      assert calls[..0] == [];
    }
  }

  lemma ChainFront(calls: seq<Call>, h: int, conn: int, sql: string)
    requires Chain(calls, h, conn, sql) && calls != []
    ensures Chain(calls[..|calls| - 1], h, conn, sql)
  {
    var front := calls[..|calls| - 1];
    assert forall i :: 0 <= i < |front| ==> front[..i] == calls[..i];
    assert forall i :: 0 <= i < |front| - 1 ==> Follows(calls[i], calls[i + 1]);
  }

  lemma NeverCounts(calls: seq<Call>, h: int, conn: int, sql: string)
    requires Chain(calls, h, conn, sql)
    ensures forall i :: 0 <= i < |calls| ==> !calls[i].CountCall?
  {
    forall i | 0 < i < |calls| ensures !calls[i].CountCall? {
      assert Follows(calls[i - 1], calls[i - 1 + 1]);
    }
  }

  /** The result is the code of the last call, or SQLITE_OK if that finalized a statement after a third change. */
  lemma AnswerIsLast(calls: seq<Call>, h: int, conn: int, sql: string)
    requires Stepping(calls, h, conn, sql)
    ensures var last := calls[|calls| - 1];
      if last.FinalizeCall? then Answer(calls) == SQLITE_OK && Tries(calls) == 3
      else (last.StepCall? || last.ResetCall? || last.PrepareCall?) && Answer(calls) == last.code
  {
    var n := |calls| - 1;
    if calls[n].FinalizeCall? {
      assert n > 0 && Follows(calls[n - 1], calls[n - 1 + 1]);
    }
  }

  /** A schema that has changed before each of three tries uses them up: the answer is then SQLITE_OK. */
  lemma ThreeChanges(h: int, a: int, b: int, c: int, conn: int, sql: string) returns (calls: seq<Call>)
    ensures Stepping(calls, h, conn, sql) && Answer(calls) == SQLITE_OK && Current(calls, h) == c && calls != []
    ensures Replaced(calls) == 3
    ensures forall i :: 0 <= i < |calls| && calls[i].StepCall? ==> calls[i].code == SQLITE_SCHEMA
  {
    calls := Change([], h, h, a, conn, sql);
    calls := Change(calls, h, a, b, conn, sql);
    calls := Change(calls, h, b, c, conn, sql);
  }

  lemma Change(calls: seq<Call>, h: int, now: int, s: int, conn: int, sql: string) returns (more: seq<Call>)
    requires Chain(calls, h, conn, sql) && (calls != [] ==> calls[|calls| - 1].FinalizeCall?)
    requires now == Current(calls, h)
    requires forall i :: 0 <= i < |calls| && calls[i].StepCall? ==> calls[i].code == SQLITE_SCHEMA
    ensures Chain(more, h, conn, sql) && more != [] && more[|more| - 1].FinalizeCall? && Current(more, h) == s
    ensures Tries(more) == Tries(calls) + 1 && Replaced(more) == Replaced(calls) + 1 && Answer(more) == SQLITE_OK
    ensures forall i :: 0 <= i < |more| && more[i].StepCall? ==> more[i].code == SQLITE_SCHEMA
  {
    hide Chain, Current, Tries, Replaced, Answer;
    Asked(calls, StepCall(now, SQLITE_SCHEMA), h, conn, sql);
    more := calls + [StepCall(now, SQLITE_SCHEMA)];
    Asked(more, PrepareCall(conn, sql, SQLITE_OK, s), h, conn, sql);
    more := more + [PrepareCall(conn, sql, SQLITE_OK, s)];
    Asked(more, FinalizeCall(now, SQLITE_OK), h, conn, sql);
    more := more + [FinalizeCall(now, SQLITE_OK)];
  }
}
