/** Named message queues shared by Lua threads, and the steps their users take (LuaThread.cpp). */
module ChannelSpec {
  import opened Options

  type Queues<M> = map<string, seq<M>>

  /** The contents of a channel; one that was never touched is empty. */
  function Queue<M>(qs: Queues<M>, ch: string): seq<M> {
    if ch in qs then qs[ch] else []
  }

  /** getChannel: a channel comes into being when it is first named. */
  function Touched<M>(qs: Queues<M>, ch: string): Queues<M> {
    qs[ch := Queue(qs, ch)]
  }

  datatype Op<M> =
    | Send(ch: string, m: M) | Get(ch: string) | GetAll(ch: string)
    | Peek(ch: string) | PeekAll(ch: string) | Demand(ch: string) | AllChannels

  /** What an operation hands back: messages, the set of channel names, or an error. */
  datatype Reply<M> = Messages(ms: seq<M>) | Names(names: set<string>) | Raised

  /** Whether the operation has to wait for a message. */
  predicate MustWait<M>(qs: Queues<M>, op: Op<M>) {
    op.Demand? && Queue(qs, op.ch) == []
  }

  /** How many messages precede the first one that cannot be turned back into a Lua value. */
  function Readable<M>(bad: M -> bool, ms: seq<M>): (n: nat)
    ensures n <= |ms|
    ensures forall i :: 0 <= i < n ==> !bad(ms[i])
    ensures n < |ms| ==> bad(ms[n])
  {
    if ms == [] || bad(ms[0]) then 0 else 1 + Readable(bad, ms[1..])
  }

  /** The messages an operation adds to a channel, and those it takes out: a bad one is never taken out. */
  function SentBy<M>(op: Op<M>, ch: string): seq<M> {
    if op.Send? && op.ch == ch then [op.m] else []
  }

  function Taken<M>(bad: M -> bool, qs: Queues<M>, op: Op<M>): (n: nat)
    ensures !op.AllChannels? ==> n <= |Queue(qs, op.ch)|
  {
    match op
    case Get(ch) => if Readable(bad, Queue(qs, ch)) > 0 then 1 else 0
    case Demand(ch) => if Readable(bad, Queue(qs, ch)) > 0 then 1 else 0
    case GetAll(ch) => Readable(bad, Queue(qs, ch))
    case _ => 0
  }

  function TakenBy<M>(bad: M -> bool, qs: Queues<M>, op: Op<M>, ch: string): seq<M> {
    if !op.AllChannels? && op.ch == ch then Queue(qs, ch)[..Taken(bad, qs, op)] else []
  }

  /** The queues after the body of an operation has run under the lock. */
  function After<M>(bad: M -> bool, qs: Queues<M>, op: Op<M>): Queues<M> {
    match op
    case AllChannels => qs
    case Send(ch, m) => qs[ch := Queue(qs, ch) + [m]]
    case _ => qs[op.ch := Queue(qs, op.ch)[Taken(bad, qs, op)..]]
  }

  /** The first message, if there is one. */
  function First<M>(ms: seq<M>): seq<M> {
    if |ms| <= 1 then ms else ms[..1]
  }

  /** Turning messages into Lua values raises an error at the first bad one. */
  function Shown<M>(bad: M -> bool, ms: seq<M>): Reply<M> {
    if Readable(bad, ms) < |ms| then Raised else Messages(ms)
  }

  function ReplyOf<M>(bad: M -> bool, qs: Queues<M>, op: Op<M>): Reply<M> {
    match op
    case Send(ch, m) => Messages([])
    case Get(ch) => Shown(bad, First(Queue(qs, ch)))
    case GetAll(ch) => Shown(bad, Queue(qs, ch))
    case Peek(ch) => Shown(bad, First(Queue(qs, ch)))
    case PeekAll(ch) => Shown(bad, Queue(qs, ch))
    case Demand(ch) => Shown(bad, First(Queue(qs, ch)))
    case AllChannels => Names(qs.Keys)
  }

  // ---- One operation ------------------------------------------------------------------------

  /** Every operation conserves every channel: what it takes out and leaves is what there was and what it adds. */
  lemma OperationConserves<M>(bad: M -> bool, qs: Queues<M>, op: Op<M>, ch: string)
    ensures TakenBy(bad, qs, op, ch) + Queue(After(bad, qs, op), ch) == Queue(qs, ch) + SentBy(op, ch)
  {
  }

  /**
   * Peeking changes no channel, and what it shows is what the same get returns right after it; a get that
   * returns without an error has taken out exactly what it returns.
   */
  lemma PeekShowsGet<M>(bad: M -> bool, qs: Queues<M>, ch: string, other: string, all: bool)
    ensures var peek, get := if all then PeekAll(ch) else Peek(ch), if all then GetAll(ch) else Get(ch);
      var peeked := After(bad, qs, peek);
      && Queue(peeked, other) == Queue(qs, other) && peeked.Keys == qs.Keys + {ch}
      && ReplyOf(bad, peeked, get) == ReplyOf(bad, qs, peek)
      && (ReplyOf(bad, qs, peek).Messages? ==> TakenBy(bad, peeked, get, ch) == ReplyOf(bad, qs, peek).ms)
  {
    var q := Queue(qs, ch);
    assert q[0..] == q && q[..|q|] == q;
    assert After(bad, qs, if all then PeekAll(ch) else Peek(ch)) == Touched(qs, ch);
    assert Queue(Touched(qs, ch), ch) == q;
    if !all && |q| > 1 {
      ReadablePrefix(bad, q);
    }
  }

  lemma ReadablePrefix<M>(bad: M -> bool, ms: seq<M>)
    requires |ms| > 1
    ensures Readable(bad, ms[..1]) == 1 <==> Readable(bad, ms) > 0
  {
    assert ms[..1][1..] == [];
  }

  /** A send puts its message at the end of its channel. */
  lemma SendIs<M>(bad: M -> bool, qs: Queues<M>, ch: string, m: M, other: string)
    ensures ReplyOf(bad, qs, Send(ch, m)) == Messages([])
    ensures Queue(After(bad, qs, Send(ch, m)), other) == Queue(qs, other) + if other == ch then [m] else []
  {
    assert Queue(qs, other) + [] == Queue(qs, other);
  }

  /**
   * A get hands over the first message and takes it out, and nothing else; a bad one raises an error and stays. A
   * demand does the same, once there is a message; only without one does it wait.
   */
  lemma GetIs<M>(bad: M -> bool, qs: Queues<M>, ch: string, other: string, demands: bool)
    ensures var op, q := if demands then Demand(ch) else Get(ch), Queue(qs, ch);
      && (MustWait(qs, op) <==> demands && q == [])
      && (q == [] ==> ReplyOf(bad, qs, op) == Messages([]) && Queue(After(bad, qs, op), ch) == [])
      && (q != [] && !bad(q[0]) ==> ReplyOf(bad, qs, op) == Messages([q[0]]) && Queue(After(bad, qs, op), ch) == q[1..])
      && (q != [] && bad(q[0]) ==> ReplyOf(bad, qs, op) == Raised && Queue(After(bad, qs, op), ch) == q)
      && (other != ch ==> Queue(After(bad, qs, op), other) == Queue(qs, other))
  {
    var q := Queue(qs, ch);
    if q != [] {
      assert First(q) == [q[0]] && First(q)[1..] == [] && q[0..] == q;
    }
  }

  /** A get-all hands over and takes out everything, unless a message is bad: then those before it are gone. */
  lemma GetAllIs<M>(bad: M -> bool, qs: Queues<M>, ch: string, other: string, n: nat)
    requires n <= |Queue(qs, ch)| && forall i :: 0 <= i < n ==> !bad(Queue(qs, ch)[i])
    requires n < |Queue(qs, ch)| ==> bad(Queue(qs, ch)[n])
    ensures ReplyOf(bad, qs, GetAll(ch)) == if n < |Queue(qs, ch)| then Raised else Messages(Queue(qs, ch))
    ensures Queue(After(bad, qs, GetAll(ch)), ch) == Queue(qs, ch)[n..]
    ensures other != ch ==> Queue(After(bad, qs, GetAll(ch)), other) == Queue(qs, other)
  {
    ReadableIsFirstBad(bad, Queue(qs, ch), n);
  }

  lemma ReadableIsFirstBad<M>(bad: M -> bool, ms: seq<M>, n: nat)
    requires n <= |ms| && (forall i :: 0 <= i < n ==> !bad(ms[i])) && (n < |ms| ==> bad(ms[n]))
    ensures Readable(bad, ms) == n
  {
    var r := Readable(bad, ms);
    assert r < |ms| ==> bad(ms[r]);
  }

  /**
   * The messages an operation takes out are those it hands back, unless it is a get-all that meets a bad message
   * behind good ones: those are gone from the channel and reach nobody.
   */
  predicate LosesMessages<M>(bad: M -> bool, qs: Queues<M>, op: Op<M>) {
    op.GetAll? && 0 < Readable(bad, Queue(qs, op.ch)) < |Queue(qs, op.ch)|
  }

  function HandedOver<M>(bad: M -> bool, qs: Queues<M>, op: Op<M>, ch: string): seq<M> {
    var reply := ReplyOf(bad, qs, op);
    if (op.Get? || op.GetAll? || op.Demand?) && op.ch == ch && reply.Messages? then reply.ms else []
  }

  lemma NothingIsLostIff<M>(bad: M -> bool, qs: Queues<M>, op: Op<M>)
    ensures (forall ch :: HandedOver(bad, qs, op, ch) == TakenBy(bad, qs, op, ch)) <==> !LosesMessages(bad, qs, op)
  {
    if !op.AllChannels? {
      var q := Queue(qs, op.ch);
      assert q[..|q|] == q;
      assert LosesMessages(bad, qs, op) ==>
        |HandedOver(bad, qs, op, op.ch)| == 0 < |TakenBy(bad, qs, op, op.ch)|;
    }
  }

  // ---- Threads ------------------------------------------------------------------------------

  /** Where a thread is with respect to the lock m_locker and the condition variable m_newMessage. */
  datatype Pc<M> =
    | Outside
    | Ready(op: Op<M>)        // about to lock
    | Inside(op: Op<M>)       // holds the lock
    | Asleep(ch: string)      // in wait() on an empty channel, without the lock
    | Woken(ch: string)       // notified or woken spuriously, about to lock again

  /** One finished operation: who, what, the queues it met, and what it answered. */
  datatype Event<M> = Event(thread: nat, op: Op<M>, met: Queues<M>, reply: Reply<M>)

  /** `holder` is the mutex itself; `log` remembers the operations in the order in which they ran. */
  datatype System<!M> = System(queues: Queues<M>, holder: Option<nat>, pcs: map<nat, Pc<M>>, log: seq<Event<M>>,
                              bad: M -> bool)

  function Notified<M>(pc: Pc<M>): Pc<M> {
    if pc.Asleep? then Woken(pc.ch) else pc
  }

  /** A thread calls an operation. */
  ghost predicate Call<M>(s: System<M>, t: nat, op: Op<M>, s': System<M>) {
    && t in s.pcs && s.pcs[t].Outside?
    && s' == s.(pcs := s.pcs[t := Ready(op)])
  }

  /** lock(), by a new caller or by a waiter that has been woken. */
  ghost predicate Acquire<M>(s: System<M>, t: nat, s': System<M>) {
    && t in s.pcs && s.holder == None && (s.pcs[t].Ready? || s.pcs[t].Woken?)
    && var op := if s.pcs[t].Ready? then s.pcs[t].op else Demand(s.pcs[t].ch);
       s' == s.(holder := Some(t), pcs := s.pcs[t := Inside(op)])
  }

  /** wait(): the channel is empty, so the thread gives the lock up and falls asleep in one step. */
  ghost predicate FallAsleep<M>(s: System<M>, t: nat, s': System<M>) {
    && t in s.pcs && s.holder == Some(t) && s.pcs[t].Inside? && MustWait(s.queues, s.pcs[t].op)
    && s' == s.(queues := After(s.bad, s.queues, s.pcs[t].op), holder := None,
                pcs := s.pcs[t := Asleep(s.pcs[t].op.ch)])
  }

  /** The operation runs and the lock is released; a send first notifies every waiter. */
  ghost predicate Finish<M>(s: System<M>, t: nat, s': System<M>) {
    && t in s.pcs && s.holder == Some(t) && s.pcs[t].Inside? && !MustWait(s.queues, s.pcs[t].op)
    && var op := s.pcs[t].op;
       var woken := if op.Send? then map u | u in s.pcs :: Notified(s.pcs[u]) else s.pcs;
       s' == System(After(s.bad, s.queues, op), None, woken[t := Outside],
                    s.log + [Event(t, op, s.queues, ReplyOf(s.bad, s.queues, op))], s.bad)
  }

  /** A sleeper may wake up for no reason. */
  ghost predicate WakeSpuriously<M>(s: System<M>, t: nat, s': System<M>) {
    t in s.pcs && s.pcs[t].Asleep? && s' == s.(pcs := s.pcs[t := Woken(s.pcs[t].ch)])
  }

  /** A thread joins the system. */
  ghost predicate Join<M>(s: System<M>, t: nat, s': System<M>) {
    t !in s.pcs && s' == s.(pcs := s.pcs[t := Outside])
  }

  ghost predicate Calls<M(!new)>(s: System<M>, t: nat, s': System<M>) {
    exists op :: Call(s, t, op, s')
  }

  /** One step of thread t. */
  ghost predicate StepOf<M(!new)>(s: System<M>, t: nat, s': System<M>) {
    || Join(s, t, s') || Calls(s, t, s') || Acquire(s, t, s')
    || FallAsleep(s, t, s') || WakeSpuriously(s, t, s') || Finish(s, t, s')
  }

  ghost predicate Next<M(!new)>(s: System<M>, s': System<M>) {
    exists t: nat :: StepOf(s, t, s')
  }

  ghost predicate Initial<M>(s: System<M>) {
    s == System(map[], None, map[], [], s.bad)
  }

  ghost predicate IsRun<M(!new)>(run: seq<System<M>>) {
    && |run| > 0 && Initial(run[0])
    && forall i :: 0 <= i < |run| - 1 ==> Next(run[i], run[i + 1])
  }

  // ---- What holds in every reachable state --------------------------------------------------

  /** All messages sent to a channel, and all messages removed from it, in order. */
  function Sent<M>(log: seq<Event<M>>, ch: string): seq<M> {
    if log == [] then [] else Sent(log[..|log| - 1], ch) + SentBy(log[|log| - 1].op, ch)
  }

  function Removed<M>(bad: M -> bool, log: seq<Event<M>>, ch: string): seq<M> {
    if log == [] then []
    else
      var e := log[|log| - 1];
      Removed(bad, log[..|log| - 1], ch) + TakenBy(bad, e.met, e.op, ch)
  }

  /** All messages handed over by gets, in order. */
  function Received<M>(bad: M -> bool, log: seq<Event<M>>, ch: string): seq<M> {
    if log == [] then []
    else
      var e := log[|log| - 1];
      Received(bad, log[..|log| - 1], ch) + HandedOver(bad, e.met, e.op, ch)
  }

  /** Only the holder of the lock is inside an operation. */
  ghost predicate Exclusive<M>(s: System<M>) {
    && (forall t :: t in s.pcs && s.pcs[t].Inside? ==> s.holder == Some(t))
    && (s.holder.Some? ==> s.holder.value in s.pcs && s.pcs[s.holder.value].Inside?)
  }

  /** Nobody sleeps on a channel that has a message. */
  ghost predicate NoLostWakeup<M>(s: System<M>) {
    forall t :: t in s.pcs && s.pcs[t].Asleep? ==> Queue(s.queues, s.pcs[t].ch) == []
  }

  /** Each channel: removed so far, then still queued, is what was sent, in order. */
  ghost predicate Fifo<M>(s: System<M>) {
    forall ch :: Removed(s.bad, s.log, ch) + Queue(s.queues, ch) == Sent(s.log, ch)
  }

  ghost predicate Inv<M>(s: System<M>) {
    Exclusive(s) && NoLostWakeup(s) && Fifo(s)
  }

  lemma FinishKeepsFifo<M>(s: System<M>, t: nat, s': System<M>)
    requires Fifo(s) && Finish(s, t, s')
    ensures Fifo(s')
  {
    var op := s.pcs[t].op;
    assert s'.log[..|s'.log| - 1] == s.log;
    forall ch ensures Removed(s'.bad, s'.log, ch) + Queue(s'.queues, ch) == Sent(s'.log, ch) {
      OperationConserves(s.bad, s.queues, op, ch);
      assert Removed(s'.bad, s'.log, ch) == Removed(s.bad, s.log, ch) + TakenBy(s.bad, s.queues, op, ch);
      assert Sent(s'.log, ch) == Sent(s.log, ch) + SentBy(op, ch);
      assert Removed(s.bad, s.log, ch) + Queue(s.queues, ch) == Sent(s.log, ch);
      Regroup(Removed(s.bad, s.log, ch), TakenBy(s.bad, s.queues, op, ch), Queue(s'.queues, ch), Queue(s.queues, ch),
              SentBy(op, ch));
    }
  }

  lemma Regroup<M>(removed: seq<M>, taken: seq<M>, left: seq<M>, before: seq<M>, added: seq<M>)
    requires taken + left == before + added
    ensures removed + taken + left == removed + before + added
  {
    assert removed + taken + left == removed + (taken + left);
    assert removed + before + added == removed + (before + added);
  }

  lemma FinishKeepsInv<M>(s: System<M>, t: nat, s': System<M>)
    requires Inv(s) && Finish(s, t, s')
    ensures Inv(s')
  {
    FinishKeepsFifo(s, t, s');
    hide Fifo;
    var op := s.pcs[t].op;
    forall u | u in s'.pcs && s'.pcs[u].Asleep? ensures Queue(s'.queues, s'.pcs[u].ch) == [] {
      assert s'.pcs[u] == s.pcs[u] && !op.Send?;
      OperationConserves(s.bad, s.queues, op, s.pcs[u].ch);
    }
    assert Exclusive(s');
  }

  /** Falling asleep changes no channel either: the one waited for is empty. */
  lemma WaitingKeepsQueues<M>(bad: M -> bool, qs: Queues<M>, op: Op<M>, ch: string)
    requires MustWait(qs, op)
    ensures Queue(After(bad, qs, op), ch) == Queue(qs, ch)
  {
  }

  /** The steps that only move threads change no channel. */
  lemma OtherStepsKeepFifo<M(!new)>(s: System<M>, t: nat, s': System<M>)
    requires Fifo(s) && StepOf(s, t, s') && !Finish(s, t, s')
    ensures Fifo(s') && forall ch :: Queue(s'.queues, ch) == Queue(s.queues, ch)
  {
    hide Finish, Queue, After, Sent, Removed, MustWait;
    assert s'.log == s.log && s'.bad == s.bad;
    forall ch ensures Queue(s'.queues, ch) == Queue(s.queues, ch) {
      if FallAsleep(s, t, s') {
        WaitingKeepsQueues(s.bad, s.queues, s.pcs[t].op, ch);
      }
    }
    forall ch ensures Removed(s'.bad, s'.log, ch) + Queue(s'.queues, ch) == Sent(s'.log, ch) {
      assert Removed(s.bad, s.log, ch) + Queue(s.queues, ch) == Sent(s.log, ch);
    }
  }

  lemma SleepersWait<M>(s: System<M>, t: nat, s': System<M>)
    requires FallAsleep(s, t, s')
    ensures s'.pcs[t].Asleep? && Queue(s.queues, s'.pcs[t].ch) == []
  {
  }

  lemma OtherStepsExclude<M(!new)>(s: System<M>, t: nat, s': System<M>)
    requires Exclusive(s) && StepOf(s, t, s') && !Finish(s, t, s')
    ensures Exclusive(s')
  {
    hide Queue, After, MustWait, Finish;
  }

  lemma OtherStepsWake<M(!new)>(s: System<M>, t: nat, s': System<M>)
    requires NoLostWakeup(s) && StepOf(s, t, s') && !Finish(s, t, s')
    requires forall ch :: Queue(s'.queues, ch) == Queue(s.queues, ch)
    ensures NoLostWakeup(s')
  {
    hide Queue, After, MustWait, Finish;
    forall u | u in s'.pcs && s'.pcs[u].Asleep? ensures Queue(s'.queues, s'.pcs[u].ch) == [] {
      if FallAsleep(s, t, s') && u == t {
        SleepersWait(s, t, s');
      }
    }
  }

  lemma OtherStepsKeepInv<M(!new)>(s: System<M>, t: nat, s': System<M>)
    requires Inv(s) && StepOf(s, t, s') && !Finish(s, t, s')
    ensures Inv(s')
  {
    hide Fifo, Exclusive, NoLostWakeup, StepOf, Finish;
    OtherStepsKeepFifo(s, t, s');
    OtherStepsExclude(s, t, s');
    OtherStepsWake(s, t, s');
  }

  lemma StepKeepsInv<M(!new)>(s: System<M>, s': System<M>)
    requires Inv(s) && Next(s, s')
    ensures Inv(s')
  {
    hide Inv;
    var t: nat :| StepOf(s, t, s');
    if Finish(s, t, s') {
      FinishKeepsInv(s, t, s');
    } else {
      OtherStepsKeepInv(s, t, s');
    }
  }

  /** Conservation in order, mutual exclusion and no lost wakeup, in every state of every interleaving. */
  lemma {:induction false} EveryInterleavingIsSafe<M(!new)>(run: seq<System<M>>, i: nat)
    requires IsRun(run) && i < |run|
    ensures Inv(run[i])
  {
    if i > 0 {
      EveryInterleavingIsSafe(run, i - 1);
      assert Next(run[i - 1], run[i - 1 + 1]);
      StepKeepsInv(run[i - 1], run[i]);
    }
  }

  /** A bad message at the head of a channel stays there, whatever anybody does, and every later get fails on it. */
  lemma {:induction false} BadHeadBlocks<M(!new)>(run: seq<System<M>>, i: nat, j: nat, ch: string)
    requires IsRun(run) && i <= j < |run|
    requires Queue(run[i].queues, ch) != [] && run[i].bad(Queue(run[i].queues, ch)[0])
    ensures Queue(run[i].queues, ch) <= Queue(run[j].queues, ch) && run[j].bad == run[i].bad
    ensures ReplyOf(run[j].bad, run[j].queues, Get(ch)) == ReplyOf(run[j].bad, run[j].queues, GetAll(ch)) == Raised
    decreases j - i
  {
    if i < j {
      BadHeadBlocks(run, i, j - 1, ch);
      assert Next(run[j - 1], run[j - 1 + 1]);
      BadHeadStays(run[j - 1], run[j], ch);
    }
  }

  lemma BadHeadStays<M(!new)>(s: System<M>, s': System<M>, ch: string)
    requires Next(s, s') && Queue(s.queues, ch) != [] && s.bad(Queue(s.queues, ch)[0])
    ensures Queue(s.queues, ch) <= Queue(s'.queues, ch) && s'.bad == s.bad
  {
    var t: nat :| StepOf(s, t, s');
    if Finish(s, t, s') {
      assert Queue(s.queues, ch)[0..] == Queue(s.queues, ch);
    } else if FallAsleep(s, t, s') {
      WaitingKeepsQueues(s.bad, s.queues, s.pcs[t].op, ch);
    }
  }

  /** An answer, and the queues an operation that ran has met: a demand has met a message. */
  ghost predicate Answered<M>(bad: M -> bool, e: Event<M>) {
    e.reply == ReplyOf(bad, e.met, e.op) && !MustWait(e.met, e.op)
  }

  /** In every run each event holds the answer of its operation. */
  lemma {:induction false} EveryEventIsAnswered<M(!new)>(run: seq<System<M>>, i: nat)
    requires IsRun(run) && i < |run|
    ensures forall x :: 0 <= x < |run[i].log| ==> Answered(run[i].bad, run[i].log[x])
  {
    hide ReplyOf, After, MustWait, Queue;
    if i > 0 {
      EveryEventIsAnswered(run, i - 1);
      assert Next(run[i - 1], run[i - 1 + 1]);
      var t: nat :| StepOf(run[i - 1], t, run[i]);
    }
  }

  /** In every run each demand hands over one message, the first of its channel, or fails on it. */
  lemma DemandsHandOverOne<M(!new)>(run: seq<System<M>>, i: nat, x: nat)
    requires IsRun(run) && i < |run| && x < |run[i].log| && run[i].log[x].op.Demand?
    ensures var e := run[i].log[x];
      var q := Queue(e.met, e.op.ch);
      q != [] && e.reply == if run[i].bad(q[0]) then Raised else Messages([q[0]])
  {
    EveryEventIsAnswered(run, i);
    var e := run[i].log[x];
    assert Answered(run[i].bad, e);
    GetIs(run[i].bad, e.met, e.op.ch, e.op.ch, true);
  }

  /** What has been received up to an event, and with it, is the beginning of what has been received in the end. */
  lemma {:induction false} ReceivedGrows<M>(bad: M -> bool, log: seq<Event<M>>, ch: string, x: nat)
    requires x < |log|
    ensures Received(bad, log[..x], ch) + HandedOver(bad, log[x].met, log[x].op, ch) <= Received(bad, log, ch)
    decreases |log|
  {
    hide HandedOver;
    var n := |log| - 1;
    assert log[..n + 1] == log;
    if x < n {
      ReceivedGrows(bad, log[..n], ch, x);
      assert log[..n][..x] == log[..x];
    }
  }

  lemma LastEvent<M>(bad: M -> bool, log: seq<Event<M>>, ch: string)
    requires log != []
    ensures var n := |log| - 1;
      && Received(bad, log, ch) == Received(bad, log[..n], ch) + HandedOver(bad, log[n].met, log[n].op, ch)
      && Removed(bad, log, ch) == Removed(bad, log[..n], ch) + TakenBy(bad, log[n].met, log[n].op, ch)
  {
  }

  ghost predicate LossyFor<M>(bad: M -> bool, e: Event<M>, ch: string) {
    LosesMessages(bad, e.met, e.op) && e.op.ch == ch
  }

  ghost predicate NeverLossy<M>(bad: M -> bool, log: seq<Event<M>>, ch: string) {
    forall i :: 0 <= i < |log| ==> !LossyFor(bad, log[i], ch)
  }

  lemma NeverLossyStep<M>(bad: M -> bool, log: seq<Event<M>>, ch: string)
    requires log != []
    ensures NeverLossy(bad, log, ch)
       <==> NeverLossy(bad, log[..|log| - 1], ch) && !LossyFor(bad, log[|log| - 1], ch)
  {
    hide LossyFor;
    assert forall i :: 0 <= i < |log| - 1 ==> log[..|log| - 1][i] == log[i];
  }

  /** Over a run, what the gets of a channel received is what was removed, exactly if no get-all lost messages. */
  lemma {:induction false} ReceivedIsRemovedIff<M>(bad: M -> bool, log: seq<Event<M>>, ch: string)
    ensures |Received(bad, log, ch)| <= |Removed(bad, log, ch)|
    ensures Received(bad, log, ch) == Removed(bad, log, ch) <==> NeverLossy(bad, log, ch)
    decreases |log|
  {
    if log == [] {
    } else {
      hide HandedOver, TakenBy, LossyFor, NeverLossy, Received, Removed;
      var n := |log| - 1;
      ReceivedIsRemovedIff(bad, log[..n], ch);
      LastEvent(bad, log, ch);
      EventIsRemovedIff(bad, log[n], ch);
      NeverLossyStep(bad, log, ch);
      SuffixIff(Received(bad, log[..n], ch), Removed(bad, log[..n], ch),
                HandedOver(bad, log[n].met, log[n].op, ch), TakenBy(bad, log[n].met, log[n].op, ch));
    }
  }

  lemma SuffixIff<M>(a: seq<M>, b: seq<M>, x: seq<M>, y: seq<M>)
    requires |a| <= |b| && |x| <= |y|
    ensures a + x == b + y <==> a == b && x == y
  {
    if a + x == b + y {
      assert |a| == |b| && (a + x)[..|a|] == (b + y)[..|b|] && (a + x)[|a|..] == (b + y)[|b|..];
    }
  }

  lemma EventIsRemovedIff<M>(bad: M -> bool, e: Event<M>, ch: string)
    ensures |HandedOver(bad, e.met, e.op, ch)| <= |TakenBy(bad, e.met, e.op, ch)|
    ensures HandedOver(bad, e.met, e.op, ch) == TakenBy(bad, e.met, e.op, ch) <==> !LossyFor(bad, e, ch)
  {
    NothingIsLostIff(bad, e.met, e.op);
    if !e.op.AllChannels? {
      var q := Queue(e.met, e.op.ch);
      assert q[..|q|] == q;
    }
  }

  /** Nothing bad is ever handed over. */
  lemma {:induction false} ReceivedIsGood<M>(bad: M -> bool, log: seq<Event<M>>, ch: string, j: nat)
    requires j < |Received(bad, log, ch)|
    ensures !bad(Received(bad, log, ch)[j])
    decreases |log|
  {
    var n := |log| - 1;
    var front := Received(bad, log[..n], ch);
    if j < |front| {
      ReceivedIsGood(bad, log[..n], ch, j);
    } else {
      HandedOverIsGood(bad, log[n].met, log[n].op, ch, j - |front|);
    }
  }

  lemma HandedOverIsGood<M>(bad: M -> bool, qs: Queues<M>, op: Op<M>, ch: string, j: nat)
    requires j < |HandedOver(bad, qs, op, ch)|
    ensures !bad(HandedOver(bad, qs, op, ch)[j])
  {
  }

  /** Without a lossy get-all, what has been received on a channel is a prefix of what has been sent on it. */
  lemma ReceivedIsPrefixOfSent<M(!new)>(run: seq<System<M>>, i: nat, ch: string)
    requires IsRun(run) && i < |run| && NeverLossy(run[i].bad, run[i].log, ch)
    ensures Received(run[i].bad, run[i].log, ch) <= Sent(run[i].log, ch)
  {
    hide IsRun, Received, Removed, Sent, NeverLossy, Queue;
    EveryInterleavingIsSafe(run, i);
    var s := run[i];
    assert Removed(s.bad, s.log, ch) + Queue(s.queues, ch) == Sent(s.log, ch);
    ReceivedIsRemovedIff(s.bad, s.log, ch);
  }

  /** A successful send leaves nobody asleep: each waiter can take the lock again. */
  lemma SendWakesEveryWaiter<M>(s: System<M>, t: nat, s': System<M>)
    requires Finish(s, t, s') && s.pcs[t].op.Send?
    ensures forall u :: u in s'.pcs ==> !s'.pcs[u].Asleep?
    ensures forall u :: u in s.pcs && s.pcs[u].Asleep? ==> u in s'.pcs && s'.pcs[u] == Woken(s.pcs[u].ch)
  {
  }

  /** A send lets each waiter of its channel take the lock in the very next step, and a message is there for it. */
  lemma SendUnblocks<M(!new)>(s: System<M>, t: nat, s': System<M>, u: nat) returns (s'': System<M>)
    requires Inv(s) && Finish(s, t, s') && s.pcs[t].op.Send?
    requires u in s.pcs && s.pcs[u] == Asleep(s.pcs[t].op.ch)
    ensures Acquire(s', u, s'') && s''.pcs[u] == Inside(Demand(s.pcs[t].op.ch))
    ensures !MustWait(s''.queues, Demand(s.pcs[t].op.ch))
  {
    SendWakesEveryWaiter(s, t, s');
    s'' := s'.(holder := Some(u), pcs := s'.pcs[u := Inside(Demand(s.pcs[t].op.ch))]);
  }

  /** A thread that waits on a channel with a message is not stuck: it can lock now, or the holder can move on. */
  lemma WaiterIsNeverStuck<M(!new)>(s: System<M>, t: nat, ch: string) returns (s': System<M>)
    requires Inv(s) && t in s.pcs && (s.pcs[t] == Asleep(ch) || s.pcs[t] == Woken(ch)) && Queue(s.queues, ch) != []
    ensures s.pcs[t].Woken?
    ensures s.holder == None ==>
      Acquire(s, t, s') && s'.pcs[t] == Inside(Demand(ch)) && !MustWait(s'.queues, Demand(ch))
    ensures s.holder.Some? ==> FallAsleep(s, s.holder.value, s') || Finish(s, s.holder.value, s')
    ensures s.holder.Some? ==> s'.holder == None && t in s'.pcs && s'.pcs[t] == Woken(ch)
  {
    if s.holder == None {
      s' := s.(holder := Some(t), pcs := s.pcs[t := Inside(Demand(ch))]);
    } else {
      var h := s.holder.value;
      var op := s.pcs[h].op;
      if MustWait(s.queues, op) {
        s' := s.(queues := After(s.bad, s.queues, op), holder := None, pcs := s.pcs[h := Asleep(op.ch)]);
      } else {
        var woken := if op.Send? then map u | u in s.pcs :: Notified(s.pcs[u]) else s.pcs;
        s' := System(After(s.bad, s.queues, op), None, woken[h := Outside],
                     s.log + [Event(h, op, s.queues, ReplyOf(s.bad, s.queues, op))], s.bad);
      }
    }
  }
}

/** The channel operations of LuaThread.cpp, as they run under the lock, on the stack of the calling worker. */
module Channels {
  import opened Options
  import opened MessageSpec
  import opened Messages
  import opened ChannelSpec

  /** A message that cannot be turned back into a Lua value. */
  predicate Unstorable(m: Message) {
    !Storable(m)
  }

  /** The Lua list with the given values at 1, 2, ... */
  function ListOf(ms: seq<Message>): map<Key, LuaData>
    requires AllStorable(ms)
  {
    if ms == [] then map[]
    else ListOf(ms[..|ms| - 1])[ScalarKey(SNumber(Finite(|ms| as real))) := Returned(ms[|ms| - 1])]
  }

  ghost predicate HoldsAt(t: LuaData, i: int, v: LuaData)
    requires t.LTable?
  {
    var k := ScalarKey(SNumber(Finite(i as real)));
    k in t.fields && t.fields[k] == v
  }

  /** A list: the fields 1, 2, ... hold the messages in their order, and there is no other field. */
  ghost predicate IsListOf(t: LuaData, ms: seq<Message>) {
    && t.LTable? && AllStorable(ms)
    && (forall i :: 0 <= i < |ms| ==> HoldsAt(t, i + 1, Returned(ms[i])))
    && (forall k :: k in t.fields ==>
      && k.ScalarKey? && k.s.SNumber? && k.s.n.Finite?
      && 1 <= k.s.n.r.Floor <= |ms| && k.s.n.r == k.s.n.r.Floor as real)
  }

  lemma {:induction false} ListHoldsMessages(ms: seq<Message>)
    requires AllStorable(ms)
    ensures IsListOf(LTable(ListOf(ms)), ms)
    decreases |ms|
  {
    if ms != [] {
      hide Storable, Returned;
      var n := |ms| - 1;
      ListHoldsMessages(ms[..n]);
      var t, before := LTable(ListOf(ms)), LTable(ListOf(ms[..n]));
      assert t.fields == before.fields[ScalarKey(SNumber(Finite(|ms| as real))) := Returned(ms[n])];
      assert (|ms| as real).Floor == |ms|;
      hide ListOf;
      forall i | 0 <= i < |ms| ensures HoldsAt(t, i + 1, Returned(ms[i])) {
        if i < n {
          assert ms[..n][i] == ms[i] && HoldsAt(before, i + 1, Returned(ms[..n][i]));
          assert (i + 1) as real != |ms| as real;
        }
      }
      forall k | k in t.fields
        ensures k.ScalarKey? && k.s.SNumber? && k.s.n.Finite?
        ensures 1 <= k.s.n.r.Floor <= |ms| && k.s.n.r == k.s.n.r.Floor as real
      {
        assert k in before.fields || k == ScalarKey(SNumber(Finite(|ms| as real)));
      }
    }
  }

  predicate AllStorable(ms: seq<Message>) {
    forall i :: 0 <= i < |ms| ==> Storable(ms[i])
  }

  predicate AllScalarKeyed(ms: seq<Message>) {
    forall m :: m in ms ==> ScalarKeyed(m)
  }

  lemma {:induction false} ReadableIs(ms: seq<Message>, n: nat)
    requires n <= |ms| && AllStorable(ms[..n]) && (n < |ms| ==> !Storable(ms[n]))
    ensures Readable(Unstorable, ms) == n
    decreases n
  {
    if n > 0 {
      assert Storable(ms[..n][0]) && ms[1..][..n - 1] == ms[..n][1..];
      ReadableIs(ms[1..], n - 1);
    }
  }

  /** A reply of at most one message: it lies on the stack, or an error was raised. */
  ghost predicate Hands(reply: Reply<Message>, results: Option<nat>, before: seq<LuaData>, after: seq<LuaData>) {
    match reply
    case Raised => results == None
    case Messages(ms) =>
      && results == Some(|ms|) && |ms| <= 1 && AllStorable(ms)
      && after == before + if |ms| == 0 then [] else [Returned(ms[0])]
    case Names(_) => false
  }

  /** A reply of all messages: they lie on the stack as one list, or an error was raised. */
  ghost predicate HandsList(reply: Reply<Message>, raised: bool, before: seq<LuaData>, after: seq<LuaData>) {
    match reply
    case Raised => raised
    case Messages(ms) => !raised && AllStorable(ms) && after == before + [LTable(ListOf(ms))]
    case Names(_) => false
  }

  /**
   * Channels end to end: without a lossy get-all the messages received are the first of those sent, each can be
   * turned back into a Lua value, and that value is the normal form of the value sent exactly if none of its
   * entries collide.
   */
  lemma ValuesArrive(num: Scanner, run: seq<System<Message>>, i: nat, ch: string, values: seq<LuaData>, j: nat)
    requires IsRun(run) && i < |run| && run[i].bad == Unstorable && NeverLossy(Unstorable, run[i].log, ch)
    requires |values| == |Sent(run[i].log, ch)|
    requires forall k :: 0 <= k < |values| ==> Converts(num, values[k], Some(Sent(run[i].log, ch)[k]))
    requires j < |Received(Unstorable, run[i].log, ch)|
    ensures j < |values| && Received(Unstorable, run[i].log, ch)[j] == Sent(run[i].log, ch)[j]
    ensures var m := Received(Unstorable, run[i].log, ch)[j];
      && Storable(m) && Convertible(values[j])
      && (Observe(Returned(m)) == Normalised(num, values[j]) <==> Consistent(num, values[j]))
  {
    hide IsRun, Received, Sent, Converts, Storable, Consistent, NeverLossy;
    ReceivedIsPrefixOfSent(run, i, ch);
    ReceivedIsGood(Unstorable, run[i].log, ch, j);
    var m := Received(Unstorable, run[i].log, ch)[j];
    assert m == Sent(run[i].log, ch)[j];
    StorableIff(num, values[j], m);
    RoundTripIff(num, values[j], m);
  }

  /** The list of a get-all, inside a run: each of its values is the next one sent, as a message makes it. */
  lemma ListsArrive(num: Scanner, run: seq<System<Message>>, i: nat, ch: string, values: seq<LuaData>,
                    x: nat, t: LuaData, k: nat)
    requires IsRun(run) && i < |run| && run[i].bad == Unstorable && NeverLossy(Unstorable, run[i].log, ch)
    requires |values| == |Sent(run[i].log, ch)|
    requires forall j :: 0 <= j < |values| ==> Converts(num, values[j], Some(Sent(run[i].log, ch)[j]))
    requires x < |run[i].log| && run[i].log[x].op == GetAll(ch) && run[i].log[x].reply.Messages?
    requires IsListOf(t, run[i].log[x].reply.ms) && 1 <= k <= |run[i].log[x].reply.ms|
    ensures var p, item := |Received(Unstorable, run[i].log[..x], ch)| + k - 1, ScalarKey(SNumber(Finite(k as real)));
      && p < |values| && item in t.fields
      && Convertible(values[p]) && Convertible(t.fields[item])
      && (Observe(t.fields[item]) == Normalised(num, values[p]) <==> Consistent(num, values[p]))
  {
    hide IsRun, Received, Sent, Converts, Storable, Consistent, NeverLossy, Observe, Normalised, Returned, ReplyOf;
    var log := run[i].log;
    EveryEventIsAnswered(run, i);
    assert Answered(Unstorable, log[x]);
    var before, ms := Received(Unstorable, log[..x], ch), log[x].reply.ms;
    ReceivedGrows(Unstorable, log, ch, x);
    var p := |before| + k - 1;
    assert (before + ms)[p] == ms[k - 1];
    assert Received(Unstorable, log, ch)[p] == ms[k - 1];
    ValuesArrive(num, run, i, ch, values, p);
    assert HoldsAt(t, k - 1 + 1, Returned(ms[k - 1]));
  }

  class ChannelTable {
    var messages: Queues<Message>

    predicate Valid()
      reads this
    {
      forall ch :: ch in messages ==> AllScalarKeyed(messages[ch])
    }

    constructor ()
      ensures Valid() && messages == map[]
    {
      messages := map[];
    }

    method GetChannel(ch: string)
      requires Valid()
      modifies this
      ensures Valid() && messages == Touched(old(messages), ch)
    {
      if ch !in messages {
        messages := messages[ch := []];
      }
      assert messages == Touched(old(messages), ch);
    }

    /** Lua_Send_Data on the arguments channel and value; every waiter is to be notified when `sent`. */
    method SendData(L: Worker, ch: string) returns (sent: bool)
      requires Valid() && |L.stack| >= 2
      modifies this, L
      ensures Valid()
      ensures sent <==> Convertible(old(L.stack[1]))
      ensures !sent ==> messages == old(messages)
      ensures sent ==> exists m ::
        Converts(L.num, old(L.stack[1]), Some(m)) && messages == After(Unstorable, old(messages), Send(ch, m))
      ensures L.stack == old(L.stack) + [LScalar(SBoolean(sent))]
    {
      ghost var v := L.stack[1];
      var data := L.ConvertData(2, false, v);
      sent := data.Some?;
      if sent {
        ConvertedIsScalarKeyed(L.num, v, data.value);
        messages := messages[ch := Queue(messages, ch) + [data.value]];
        assert messages == After(Unstorable, old(messages), Send(ch, data.value));
      }
      L.stack := L.stack + [LScalar(SBoolean(sent))];
    }

    /** Lua_Get_Data, and Lua_Demand_Data once the channel has a message. None is an error; the message then stays. */
    method GetData(L: Worker, ch: string) returns (results: Option<nat>)
      requires Valid()
      modifies this, L
      ensures Valid() && messages == After(Unstorable, old(messages), Get(ch))
      ensures Hands(ReplyOf(Unstorable, old(messages), Get(ch)), results, old(L.stack), L.stack)
      ensures var q := old(Queue(messages, ch));
        if q == [] then results == Some(0) && L.stack == old(L.stack)
        else if Storable(q[0]) then
          results == Some(1) && L.stack == old(L.stack) + [Returned(q[0])] && Queue(messages, ch) == q[1..]
        else results == None && Queue(messages, ch) == q
    {
      hide Storable;
      GetIs(Unstorable, messages, ch, ch, false);
      GetChannel(ch);
      ghost var q := messages[ch];
      if messages[ch] == [] {
        assert messages == After(Unstorable, old(messages), Get(ch));
        return Some(0);
      }
      assert messages[ch][0] in messages[ch];
      FrontReply(q);
      results := L.ReturnData(messages[ch][0]);
      if results.Some? {
        messages := messages[ch := messages[ch][1..]];
      }
      assert messages == After(Unstorable, old(messages), Get(ch));
    }

    lemma FrontReply(q: seq<Message>)
      requires q != []
      ensures Readable(Unstorable, q) > 0 <==> Storable(q[0])
      ensures Shown(Unstorable, First(q)) == if Storable(q[0]) then Messages([q[0]]) else Raised
    {
      assert First(q) == [q[0]] && First(q)[1..] == [];
    }

    /** Lua_Peek_Data. */
    method PeekData(L: Worker, ch: string) returns (results: Option<nat>)
      requires Valid()
      modifies this, L
      ensures Valid() && messages == After(Unstorable, old(messages), Peek(ch))
      ensures Hands(ReplyOf(Unstorable, old(messages), Peek(ch)), results, old(L.stack), L.stack)
      ensures var q := old(Queue(messages, ch));
        && Queue(messages, ch) == q
        && if q == [] then results == Some(0) && L.stack == old(L.stack)
           else if Storable(q[0]) then results == Some(1) && L.stack == old(L.stack) + [Returned(q[0])]
           else results == None
    {
      hide Storable;
      GetChannel(ch);
      assert messages == After(Unstorable, old(messages), Peek(ch));
      if messages[ch] == [] {
        return Some(0);
      }
      assert messages[ch][0] in messages[ch];
      FrontReply(messages[ch]);
      results := L.ReturnData(messages[ch][0]);
    }

    /** Pushes k and the message and stores them in the list under them. */
    static method PushItem(L: Worker, k: nat, data: Message, ghost base: seq<LuaData>, ghost done: seq<Message>)
      returns (stored: bool)
      requires AllStorable(done) && k == |done| + 1 && ScalarKeyed(data) && L.stack == base + [LTable(ListOf(done))]
      modifies L
      ensures stored <==> Storable(data)
      ensures stored ==> AllStorable(done + [data]) && L.stack == base + [LTable(ListOf(done + [data]))]
    {
      hide Storable;
      assert (done + [data])[..|done|] == done;
      L.stack := L.stack + [LScalar(SNumber(Finite(k as real)))];
      var i := L.ReturnData(data);
      if i.None? {
        return false;
      }
      stored := L.SetTable(base, ListOf(done), SNumber(Finite(k as real)), Returned(data));
    }

    /**
     * Lua_Get_All_Data: empties the channel into a list, first message first. On an error the messages before
     * the bad one have already left the channel.
     */
    method GetAllData(L: Worker, ch: string) returns (raised: bool)
      requires Valid()
      modifies this, L
      ensures Valid() && messages == After(Unstorable, old(messages), GetAll(ch))
      ensures HandsList(ReplyOf(Unstorable, old(messages), GetAll(ch)), raised, old(L.stack), L.stack)
      ensures raised <==> !AllStorable(old(Queue(messages, ch)))
      ensures !raised ==>
        && Queue(messages, ch) == [] && |L.stack| == |old(L.stack)| + 1
        && L.stack[..|old(L.stack)|] == old(L.stack) && IsListOf(L.stack[|old(L.stack)|], old(Queue(messages, ch)))
    {
      hide Storable, ListOf;
      GetChannel(ch);
      ghost var all, base := messages[ch], L.stack;
      assert ListOf([]) == map[] by { ListOfNone(); }
      L.stack := L.stack + [LTable(map[])];
      var k := 1;
      while messages[ch] != []
        invariant Valid() && ch in messages && messages == old(messages)[ch := messages[ch]]
        invariant 1 <= k <= |all| + 1 && messages[ch] == all[k - 1..] && AllStorable(all[..k - 1])
        invariant L.stack == base + [LTable(ListOf(all[..k - 1]))]
        decreases |messages[ch]|
      {
        assert all[..k - 1] + [all[k - 1]] == all[..k];
        var data := messages[ch][0];
        assert data in messages[ch] && data == all[k - 1];
        var stored := PushItem(L, k, data, base, all[..k - 1]);
        if !stored {
          ReadableIs(all, k - 1);
          return true;
        }
        messages := messages[ch := messages[ch][1..]];
        k := k + 1;
      }
      assert all[..k - 1] == all;
      ReadableIs(all, |all|);
      ListHoldsMessages(all);
      assert L.stack[|base|] == LTable(ListOf(all));
      assert messages == After(Unstorable, old(messages), GetAll(ch));
      return false;
    }

    lemma ListOfNone()
      ensures ListOf([]) == map[]
    {
    }

    /** Lua_Peek_All_Data: the same list, from a copy of the queue. */
    method PeekAllData(L: Worker, ch: string) returns (raised: bool)
      requires Valid()
      modifies this, L
      ensures Valid() && messages == After(Unstorable, old(messages), PeekAll(ch))
      ensures HandsList(ReplyOf(Unstorable, old(messages), PeekAll(ch)), raised, old(L.stack), L.stack)
      ensures raised <==> !AllStorable(old(Queue(messages, ch)))
      ensures !raised ==>
        && Queue(messages, ch) == old(Queue(messages, ch)) && |L.stack| == |old(L.stack)| + 1
        && L.stack[..|old(L.stack)|] == old(L.stack) && IsListOf(L.stack[|old(L.stack)|], old(Queue(messages, ch)))
    {
      hide Storable;
      GetChannel(ch);
      assert messages == After(Unstorable, old(messages), PeekAll(ch));
      ghost var base := L.stack;
      var container := messages[ch];
      L.stack := L.stack + [LTable(map[])];
      for i := 0 to |container|
        invariant messages == Touched(old(messages), ch) && AllStorable(container[..i])
        invariant L.stack == base + [LTable(ListOf(container[..i]))]
      {
        assert container[..i] + [container[i]] == container[..i + 1] && container[i] in container;
        var stored := PushItem(L, i + 1, container[i], base, container[..i]);
        if !stored {
          ReadableIs(container, i);
          return true;
        }
      }
      assert container[..|container|] == container;
      ReadableIs(container, |container|);
      ListHoldsMessages(container);
      assert L.stack[|base|] == LTable(ListOf(container));
      return false;
    }
  }
}
