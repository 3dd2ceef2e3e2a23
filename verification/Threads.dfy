/** The table of Lua threads and the interleavings of their creation, exit and removal (LuaThread.cpp). */
module ThreadSpec {
  import opened LuaValues
  import opened Options
  import opened StackSpec
  import opened MessageSpec

  // ---- Thread ids ---------------------------------------------------------------------------

  const TWO_32 := 0x1_0000_0000
  const TWO_31 := 0x8000_0000

  /** getNewID for the n-th thread: an unsigned 32-bit counter, returned as an int. */
  function ThreadId(n: nat): int {
    var m := n % TWO_32;
    if m < TWO_31 then m else m - TWO_32
  }

  /** Among the first N threads no id is used twice exactly while N is at most 2^32. */
  lemma IdsAreUniqueIff(N: nat)
    ensures (forall m: nat, n: nat :: 1 <= m < n <= N ==> ThreadId(m) != ThreadId(n)) <==> N <= TWO_32
  {
    if N > TWO_32 {
      assert ThreadId(1) == ThreadId(1 + TWO_32);
    }
  }

  /** Their ids increase exactly while N is below 2^31. */
  lemma IdsIncreaseIff(N: nat)
    ensures (forall m: nat, n: nat :: 1 <= m < n <= N ==> ThreadId(m) < ThreadId(n)) <==> N < TWO_31
  {
    if N >= TWO_31 {
      assert ThreadId(1) == 1 && ThreadId(TWO_31) == -TWO_31;
    }
  }

  // ---- The table ----------------------------------------------------------------------------

  /** A LuaThreadInternal; `serial` says which creation it stems from. */
  datatype Entry = Entry(serial: nat, id: int, running: bool, error: Option<string>, toDelete: bool)

  /** How the Lua code of a thread ends; a text that does not compile fails with the compiler's message. */
  datatype Outcome = Finished | Failed(errorObject: Value)

  /** executeThread: the error is what lua_tostring makes of the error object, up to its first NUL character. */
  function Reported(numberText: real -> string, outcome: Outcome): Option<string> {
    match outcome
    case Finished => None
    case Failed(v) => if IsText(v) then Some(CText(TextOf(numberText, v))) else None
  }

  /** CheckDeleteLater. */
  function Swept(threads: seq<Entry>): seq<Entry> {
    if threads == [] then []
    else
      var front := Swept(threads[..|threads| - 1]);
      var last := threads[|threads| - 1];
      if last.toDelete then front else front + [last]
  }

  /** std::find_if on the id: the first match, or the length. */
  function Find(threads: seq<Entry>, id: int): (i: nat)
    ensures i <= |threads|
    ensures i < |threads| ==> threads[i].id == id
    ensures forall j :: 0 <= j < i ==> threads[j].id != id
  {
    if threads == [] || threads[0].id == id then 0 else 1 + Find(threads[1..], id)
  }

  /** setThreadExit on an entry: a failed thread keeps its entry with the error, a successful one is to go. */
  function Exited(e: Entry, error: Option<string>): Entry {
    if error.Some? then e.(error := error, running := false) else e.(running := false, toDelete := true)
  }

  function AfterExit(threads: seq<Entry>, id: int, error: Option<string>): seq<Entry> {
    var i := Find(threads, id);
    if i < |threads| then threads[i := Exited(threads[i], error)] else threads
  }

  // ---- The interleavings --------------------------------------------------------------------

  /** A worker runs its Lua code, wants to report how it ended, and has reported it. */
  datatype Worker = Running | Exiting(outcome: Outcome) | Done(outcome: Outcome)

  /** How far Lua_New_Thread, which holds the lock, has got with the new thread. */
  datatype Stage = Allocated | Started | Filled

  /** The entry under construction is not on the list yet. */
  datatype Lock = Free | Creating(entry: Entry, stage: Stage)

  datatype System = System(threads: seq<Entry>, created: nat, workers: map<nat, Worker>, lock: Lock,
                           numberText: real -> string)

  /** What worker n reports, or will report. */
  function ErrorOf(s: System, n: nat): Option<string>
    requires n in s.workers && !s.workers[n].Running?
  {
    Reported(s.numberText, s.workers[n].outcome)
  }

  /** Worker n has reported success, be it true or not. */
  predicate Succeeded(s: System, n: nat) {
    n in s.workers && s.workers[n].Done? && ErrorOf(s, n) == None
  }

  /** Lua_New_Thread locks, sweeps and draws an id; m_running and m_error of the new entry hold anything yet. */
  ghost predicate BeginNew(s: System, s': System) {
    && s.lock == Free && s'.lock.Creating? && s'.lock.stage == Allocated
    && var n, e := s.created + 1, s'.lock.entry;
       && e.serial == n && e.id == ThreadId(n) && !e.toDelete
       && s' == s.(threads := Swept(s.threads), created := n, lock := s'.lock)
  }

  /** The std::thread starts; from here on the worker runs beside its creator. */
  ghost predicate Start(s: System, s': System) {
    s.lock.Creating? && s.lock.stage == Allocated
    && s' == s.(workers := s.workers[s.lock.entry.serial := Running], lock := Creating(s.lock.entry, Started))
  }

  /** The constructor sets m_error and m_running, after the worker has started. */
  ghost predicate Fill(s: System, s': System) {
    s.lock.Creating? && s.lock.stage == Started
    && s' == s.(lock := Creating(s.lock.entry.(error := None, running := true), Filled))
  }

  /** The entry joins the list and the lock is released. */
  ghost predicate Publish(s: System, s': System) {
    s.lock.Creating? && s.lock.stage == Filled && s' == s.(threads := s.threads + [s.lock.entry], lock := Free)
  }

  const NOT_READY := "Cannot create thread while initialization is not done"

  /** Before initialisation is done a thread only gets an entry. */
  ghost predicate NewDisabled(s: System, s': System) {
    s.lock == Free
    && var n := s.created + 1;
       s' == s.(created := n,
                threads := Swept(s.threads) + [Entry(n, ThreadId(n), false, Some(NOT_READY), false)])
  }

  /** The Lua code of a worker ends. */
  ghost predicate FinishCode(s: System, n: nat, outcome: Outcome, s': System) {
    n in s.workers && s.workers[n] == Running && s' == s.(workers := s.workers[n := Exiting(outcome)])
  }

  /** setThreadExit, under the lock. */
  ghost predicate Exit(s: System, n: nat, s': System) {
    s.lock == Free && n in s.workers && s.workers[n].Exiting?
    && s' == s.(threads := AfterExit(s.threads, ThreadId(n), ErrorOf(s, n)),
                workers := s.workers[n := Done(s.workers[n].outcome)])
  }

  /** The sweep of Is_Thread_Running and Remove_Thread. */
  ghost predicate Sweep(s: System, s': System) {
    s.lock == Free && s' == s.(threads := Swept(s.threads))
  }

  ghost predicate FinishesCode(s: System, s': System) {
    exists n, outcome :: FinishCode(s, n, outcome, s')
  }

  ghost predicate Exits(s: System, s': System) {
    exists n :: Exit(s, n, s')
  }

  ghost predicate Next(s: System, s': System) {
    || BeginNew(s, s') || Start(s, s') || Fill(s, s') || Publish(s, s') || NewDisabled(s, s')
    || FinishesCode(s, s') || Exits(s, s') || Sweep(s, s')
  }

  ghost predicate IsRun(run: seq<System>) {
    && |run| > 0 && run[0] == System([], 0, map[], Free, run[0].numberText)
    && forall i :: 0 <= i < |run| - 1 ==> Next(run[i], run[i + 1])
  }

  // ---- The invariant ------------------------------------------------------------------------

  /** What an entry says about its worker. */
  ghost predicate Tells(e: Entry, s: System) {
    if e.serial !in s.workers then !e.running && e.error.Some? && !e.toDelete
    else if !s.workers[e.serial].Done? then e.running && e.error == None && !e.toDelete
    else !e.running && e.error == ErrorOf(s, e.serial) && e.toDelete == e.error.None?
  }

  ghost predicate HasEntry(threads: seq<Entry>, n: nat) {
    exists i :: 0 <= i < |threads| && threads[i].serial == n
  }

  ghost predicate EntriesOk(s: System) {
    && (forall i, j :: 0 <= i < j < |s.threads| ==> s.threads[i].serial < s.threads[j].serial)
    && (forall i :: 0 <= i < |s.threads| ==>
      && 1 <= s.threads[i].serial <= s.created
      && s.threads[i].id == ThreadId(s.threads[i].serial)
      && Tells(s.threads[i], s))
  }

  /** A worker that has not reported success has an entry, or its creator is still at work on it. */
  ghost predicate WorkersOk(s: System) {
    && (forall n :: n in s.workers ==> 1 <= n <= s.created)
    && (forall n :: n in s.workers && !Succeeded(s, n) ==>
      HasEntry(s.threads, n) || (s.lock.Creating? && s.lock.entry.serial == n && !s.workers[n].Done?))
    && (s.lock.Creating? ==>
      && s.lock.entry.serial == s.created >= 1 && !HasEntry(s.threads, s.created)
      && s.lock.entry.id == ThreadId(s.created) && !s.lock.entry.toDelete
      && (s.lock.stage == Filled ==> s.lock.entry.running && s.lock.entry.error == None)
      && (s.created in s.workers <==> s.lock.stage != Allocated)
      && (s.created in s.workers ==> !s.workers[s.created].Done?))
  }

  ghost predicate Inv(s: System) {
    EntriesOk(s) && WorkersOk(s)
  }

  /** Sweeping keeps, in order, exactly the entries that are not to go. */
  lemma {:induction false} SweptKeeps(threads: seq<Entry>) returns (at: seq<nat>)
    ensures |at| == |Swept(threads)|
    ensures forall i :: 0 <= i < |at| ==> at[i] < |threads| && Swept(threads)[i] == threads[at[i]]
    ensures forall i, j :: 0 <= i < j < |at| ==> at[i] < at[j]
    ensures forall i :: 0 <= i < |Swept(threads)| ==> !Swept(threads)[i].toDelete
    ensures forall k :: 0 <= k < |threads| && !threads[k].toDelete ==> k in at
    decreases |threads|
  {
    if threads == [] {
      at := [];
    } else {
      var n := |threads| - 1;
      at := SweptKeeps(threads[..n]);
      if !threads[n].toDelete {
        at := at + [n];
      }
    }
  }

  /** A sweep keeps the entries of all workers that have not reported success. */
  lemma SweptOk(s: System)
    requires EntriesOk(s)
    ensures EntriesOk(s.(threads := Swept(s.threads)))
    ensures forall n :: HasEntry(Swept(s.threads), n) ==> HasEntry(s.threads, n)
    ensures forall n :: n in s.workers && !Succeeded(s, n) && HasEntry(s.threads, n) ==>
      HasEntry(Swept(s.threads), n)
  {
    var at := SweptKeeps(s.threads);
    forall n | n in s.workers && !Succeeded(s, n) && HasEntry(s.threads, n)
      ensures HasEntry(Swept(s.threads), n)
    {
      var k :| 0 <= k < |s.threads| && s.threads[k].serial == n;
      assert !s.threads[k].toDelete && k in at;
      var i :| 0 <= i < |at| && at[i] == k;
      assert Swept(s.threads)[i].serial == n;
    }
    forall n | HasEntry(Swept(s.threads), n) ensures HasEntry(s.threads, n) {
      var i :| 0 <= i < |Swept(s.threads)| && Swept(s.threads)[i].serial == n;
      assert s.threads[at[i]].serial == n;
    }
  }

  /** A thread that wants to report finds its own entry, though ids are all it has to go by. */
  lemma ExitFindsOwnEntry(s: System, n: nat)
    requires Inv(s) && s.lock == Free && s.created <= TWO_32
    requires n in s.workers && !Succeeded(s, n)
    ensures Find(s.threads, ThreadId(n)) < |s.threads|
    ensures s.threads[Find(s.threads, ThreadId(n))].serial == n
  {
    var k :| 0 <= k < |s.threads| && s.threads[k].serial == n;
    var i := Find(s.threads, ThreadId(n));
    assert s.threads[k].id == ThreadId(n);
    IdsAreUniqueIff(s.created);
    assert ThreadId(s.threads[i].serial) == ThreadId(n);
  }

  lemma AppendedOk(s: System, threads: seq<Entry>, e: Entry)
    requires threads == s.threads + [e]
    ensures forall n :: HasEntry(threads, n) <==> HasEntry(s.threads, n) || n == e.serial
  {
    forall n ensures HasEntry(threads, n) <==> HasEntry(s.threads, n) || n == e.serial {
      if HasEntry(s.threads, n) {
        var i :| 0 <= i < |s.threads| && s.threads[i].serial == n;
        assert threads[i].serial == n;
      }
      assert threads[|s.threads|] == e;
    }
  }

  lemma SweepSteps(s: System, s': System)
    requires Inv(s) && (BeginNew(s, s') || Sweep(s, s'))
    ensures Inv(s')
  {
    SweptOk(s);
    assert !HasEntry(s.threads, s.created + 1);
  }

  lemma CreationSteps(s: System, s': System)
    requires Inv(s) && (Start(s, s') || Fill(s, s') || Publish(s, s'))
    ensures Inv(s')
  {
    if Publish(s, s') {
      AppendedOk(s, s'.threads, s.lock.entry);
      forall i | 0 <= i < |s.threads| ensures s.threads[i].serial < s.created {
        assert HasEntry(s.threads, s.threads[i].serial);
      }
    } else {
      forall i | 0 <= i < |s.threads| ensures s.threads[i].serial != s.created {
        assert HasEntry(s.threads, s.threads[i].serial);
      }
    }
  }

  lemma DisabledStep(s: System, s': System)
    requires Inv(s) && NewDisabled(s, s')
    ensures Inv(s')
  {
    SweptOk(s);
    var swept := s.(threads := Swept(s.threads));
    AppendedOk(swept, s'.threads, Entry(s.created + 1, ThreadId(s.created + 1), false, Some(NOT_READY), false));
  }

  /** Replacing an entry by one of the same creation. */
  lemma ReplacedOk(threads: seq<Entry>, i: nat, e: Entry)
    requires i < |threads| && threads[i].serial == e.serial
    ensures forall n :: HasEntry(threads[i := e], n) <==> HasEntry(threads, n)
  {
    forall n ensures HasEntry(threads[i := e], n) <==> HasEntry(threads, n) {
      if HasEntry(threads, n) {
        var k :| 0 <= k < |threads| && threads[k].serial == n;
        assert threads[i := e][k].serial == n;
      }
      if HasEntry(threads[i := e], n) {
        var k :| 0 <= k < |threads| && threads[i := e][k].serial == n;
        assert threads[k].serial == n;
      }
    }
  }

  /** The reporting worker's entry tells of its end, every other entry of its own worker as before. */
  lemma ExitTells(s: System, n: nat, s': System, i: nat, k: nat)
    requires EntriesOk(s) && Exit(s, n, s') && i < |s.threads| && k < |s.threads| && s.threads[i].serial == n
    requires s'.threads == s.threads[i := Exited(s.threads[i], ErrorOf(s, n))]
    ensures Tells(s'.threads[k], s')
  {
    hide ThreadId, AfterExit, Reported;
    assert Tells(s.threads[k], s) && Tells(s.threads[i], s);
    if k != i {
      assert s.threads[k].serial != n;
    }
  }

  lemma ExitEntriesOk(s: System, n: nat, s': System)
    requires Inv(s) && Exit(s, n, s') && s.created <= TWO_32
    ensures EntriesOk(s') && forall m :: HasEntry(s'.threads, m) <==> HasEntry(s.threads, m)
  {
    hide HasEntry, ThreadId, Find, Tells, Reported;
    ExitFindsOwnEntry(s, n);
    var i := Find(s.threads, ThreadId(n));
    var e := Exited(s.threads[i], ErrorOf(s, n));
    assert s'.threads == s.threads[i := e];
    ReplacedOk(s.threads, i, e);
    forall k | 0 <= k < |s'.threads| ensures Tells(s'.threads[k], s') {
      ExitTells(s, n, s', i, k);
    }
  }

  lemma ExitStep(s: System, n: nat, s': System)
    requires Inv(s) && Exit(s, n, s') && s.created <= TWO_32
    ensures Inv(s')
  {
    ExitEntriesOk(s, n, s');
    hide EntriesOk, HasEntry, ThreadId, AfterExit;
  }

  lemma StepKeepsInv(s: System, s': System)
    requires Inv(s) && Next(s, s') && s'.created <= TWO_32
    ensures Inv(s')
  {
    if Exits(s, s') {
      var n :| Exit(s, n, s');
      ExitStep(s, n, s');
    } else if FinishesCode(s, s') {
      assert s'.threads == s.threads;
    } else if NewDisabled(s, s') {
      DisabledStep(s, s');
    } else if BeginNew(s, s') || Sweep(s, s') {
      SweepSteps(s, s');
    } else {
      CreationSteps(s, s');
    }
  }

  lemma CreatedGrows(run: seq<System>, i: nat, j: nat)
    requires IsRun(run) && i <= j < |run|
    ensures run[i].created <= run[j].created && run[i].numberText == run[j].numberText
    decreases j - i
  {
    if i < j {
      assert Next(run[i], run[i + 1]);
      CreatedGrows(run, i + 1, j);
    }
  }

  /** In every state of every interleaving with at most 2^32 threads, each entry tells the truth about its worker. */
  lemma {:induction false} EveryEntryTellsTheTruth(run: seq<System>, i: nat)
    requires IsRun(run) && i < |run| && run[i].created <= TWO_32
    ensures Inv(run[i])
  {
    if i > 0 {
      CreatedGrows(run, i - 1, i);
      EveryEntryTellsTheTruth(run, i - 1);
      assert Next(run[i - 1], run[i - 1 + 1]);
      StepKeepsInv(run[i - 1], run[i]);
    }
  }

  /** A worker that has reported stays reported. */
  lemma DoneIsFinal(run: seq<System>, i: nat, j: nat, n: nat)
    requires IsRun(run) && i <= j < |run| && run[j].created <= TWO_32
    requires n in run[i].workers && run[i].workers[n].Done?
    ensures n in run[j].workers && run[j].workers[n] == run[i].workers[n]
    decreases j - i
  {
    if i < j {
      CreatedGrows(run, i, j);
      EveryEntryTellsTheTruth(run, i);
      assert Next(run[i], run[i + 1]);
      DoneIsFinal(run, i + 1, j, n);
    }
  }

  /**
   * Once a worker has reported, its entry never shows it as running again. With an error reported it keeps its
   * entry and the error for good; without one it is gone after the next sweep.
   */
  lemma AfterTheReport(run: seq<System>, i: nat, j: nat, n: nat)
    requires IsRun(run) && i <= j < |run| && run[j].created <= TWO_32
    requires n in run[i].workers && run[i].workers[n].Done?
    ensures forall e :: e in run[j].threads && e.serial == n ==> !e.running && e.error == ErrorOf(run[i], n)
    ensures ErrorOf(run[i], n).Some? <==> HasEntry(Swept(run[j].threads), n)
  {
    DoneIsFinal(run, i, j, n);
    CreatedGrows(run, i, j);
    EveryEntryTellsTheTruth(run, j);
    var at := SweptKeeps(run[j].threads);
    SweptOk(run[j]);
  }

  /** A failed thread keeps its entry, with its error, exactly if its error object is a string or a number. */
  lemma FailureIsKeptIff(run: seq<System>, i: nat, j: nat, n: nat)
    requires IsRun(run) && i <= j < |run| && run[j].created <= TWO_32
    requires n in run[i].workers && run[i].workers[n].Done? && run[i].workers[n].outcome.Failed?
    ensures HasEntry(Swept(run[j].threads), n) <==> IsText(run[i].workers[n].outcome.errorObject)
    ensures forall e :: e in Swept(run[j].threads) && e.serial == n ==>
      e.error == Some(CText(TextOf(run[i].numberText, run[i].workers[n].outcome.errorObject)))
  {
    AfterTheReport(run, i, j, n);
    var at := SweptKeeps(run[j].threads);
    forall e | e in Swept(run[j].threads) && e.serial == n
      ensures e in run[j].threads && HasEntry(Swept(run[j].threads), n)
    {
      var k :| 0 <= k < |Swept(run[j].threads)| && Swept(run[j].threads)[k] == e;
      assert run[j].threads[at[k]] == e;
    }
  }

  lemma Extend(run: seq<System>, s': System) returns (longer: seq<System>)
    requires IsRun(run) && Next(run[|run| - 1], s')
    ensures longer == run + [s'] && IsRun(longer)
  {
    longer := run + [s'];
    forall i | 0 <= i < |longer| - 1 ensures Next(longer[i], longer[i + 1]) {
      if i < |run| - 1 {
        assert Next(run[i], run[i + 1]);
      }
    }
  }

  /** The steps of the first thread, up to the failure of its code. */
  lemma FirstThread(start: System, v: Value) returns (reserved: System, started: System, filled: System,
                                                     published: System, failed: System)
    requires start == System([], 0, map[], Free, start.numberText)
    ensures BeginNew(start, reserved) && Start(reserved, started) && Fill(started, filled) && Publish(filled, published)
    ensures FinishCode(published, 1, Failed(v), failed)
    ensures failed == System([Entry(1, 1, true, None, false)], 1, map[1 := Exiting(Failed(v))], Free, start.numberText)
  {
    var raw := Entry(1, 1, false, None, false);
    assert ThreadId(1) == 1;
    reserved := start.(created := 1, lock := Creating(raw, Allocated));
    started := reserved.(workers := map[1 := Running], lock := Creating(raw, Started));
    filled := started.(lock := Creating(raw.(running := true), Filled));
    published := filled.(threads := [raw.(running := true)], lock := Free);
    failed := published.(workers := map[1 := Exiting(Failed(v))]);
  }

  /** The report of a worker whose error object is no text, and the sweep after it. */
  lemma SilentReport(failed: System, v: Value) returns (exited: System, swept: System)
    requires failed.threads == [Entry(1, 1, true, None, false)] && failed.workers == map[1 := Exiting(Failed(v))]
    requires failed.created == 1 && failed.lock == Free
    requires !IsText(v)
    ensures Exits(failed, exited) && Sweep(exited, swept)
    ensures swept == System([], 1, map[1 := Done(Failed(v))], Free, failed.numberText)
  {
    assert ThreadId(1) == 1 && Find(failed.threads, 1) == 0;
    exited := failed.(threads := [Entry(1, 1, false, None, true)], workers := map[1 := Done(Failed(v))]);
    assert Exit(failed, 1, exited);
    assert exited.threads[..0] == [];
    swept := exited.(threads := []);
  }

  /** error(nil): the thread fails, reports success, and is gone without an error after the next sweep. */
  lemma SilentFailure(numberText: real -> string, v: Value) returns (run: seq<System>)
    requires !IsText(v)
    ensures IsRun(run) && run[|run| - 1] == System([], 1, map[1 := Done(Failed(v))], Free, numberText)
  {
    hide BeginNew, Start, Fill, Publish, NewDisabled, Exits, Sweep, Exit;
    var start := System([], 0, map[], Free, numberText);
    var reserved, started, filled, published, failed := FirstThread(start, v);
    var exited, swept := SilentReport(failed, v);
    assert FinishesCode(published, failed);
    run := [start];
    assert IsRun(run);
    hide IsRun, FinishesCode;
    run := Extend(run, reserved);
    run := Extend(run, started);
    run := Extend(run, filled);
    run := Extend(run, published);
    run := Extend(run, failed);
    run := Extend(run, exited);
    run := Extend(run, swept);
  }
}

/** The thread table of LuaThread.cpp; every method runs under the lock. */
module Threads {
  import opened Options
  import opened StackSpec
  import opened MessageSpec
  import opened ThreadSpec

  class ThreadTable {
    var threads: seq<Entry>
    var counter: nat          // m_id, an unsigned 32-bit counter
    var created: nat          // how often the counter has been drawn from; C keeps no such count

    ghost predicate Valid()
      reads this
    {
      counter == created % TWO_32
    }

    constructor ()
      ensures Valid() && threads == [] && created == 0
    {
      threads, counter, created := [], 0, 0;
    }

    method GetNewID() returns (id: int)
      requires Valid()
      modifies `counter, `created
      ensures Valid() && created == old(created) + 1 && id == ThreadId(created)
    {
      counter := (counter + 1) % TWO_32;
      created := created + 1;
      id := if counter < TWO_31 then counter else counter - TWO_32;
    }

    method CheckDeleteLater()
      modifies `threads
      ensures threads == Swept(old(threads))
    {
      var kept := [];
      for i := 0 to |threads|
        invariant threads == old(threads) && kept == Swept(threads[..i])
      {
        assert threads[..i + 1][..i] == threads[..i];
        if !threads[i].toDelete {
          kept := kept + [threads[i]];
        }
      }
      assert threads[..|threads|] == threads;
      threads := kept;
    }

    /** Lua_New_Thread; `enabled` is LuaTT_threadEnabled. */
    method NewThread(enabled: bool) returns (id: int)
      requires Valid()
      modifies this
      ensures Valid() && created == old(created) + 1 && id == ThreadId(created)
      ensures threads == Swept(old(threads)) +
        [if enabled then Entry(created, id, true, None, false) else Entry(created, id, false, Some(NOT_READY), false)]
    {
      CheckDeleteLater();
      id := GetNewID();
      var n := created;
      var e := if enabled then Entry(n, id, true, None, false) else Entry(n, id, false, Some(NOT_READY), false);
      threads := threads + [e];
    }

    /** std::find_if. */
    method FindById(id: int) returns (i: nat)
      ensures i == Find(threads, id)
    {
      i := 0;
      while i < |threads| && threads[i].id != id
        invariant i <= |threads| && Find(threads, id) == i + Find(threads[i..], id)
      {
        assert threads[i..][1..] == threads[i + 1..];
        i := i + 1;
      }
    }

    method SetThreadExit(id: int, error: Option<string>)
      modifies `threads
      ensures threads == AfterExit(old(threads), id, error)
    {
      var i := FindById(id);
      if i < |threads| {
        threads := threads[i := Exited(threads[i], error)];
      }
    }

    /** The end of executeThread: only an error object with a text makes the thread count as failed. */
    method ReportExit(numberText: real -> string, id: int, outcome: Outcome)
      modifies `threads
      ensures threads == AfterExit(old(threads), id, Reported(numberText, outcome))
    {
      var errorResult: Option<string> := None;
      if outcome.Failed? && IsText(outcome.errorObject) {
        errorResult := Some(CText(TextOf(numberText, outcome.errorObject)));
      }
      SetThreadExit(id, errorResult);
    }

    /** Lua_Is_Thread_Running: nothing for an unknown id. */
    method IsThreadRunning(id: int) returns (r: Option<bool>)
      modifies `threads
      ensures threads == Swept(old(threads))
      ensures var i := Find(threads, id);
        r == if i < |threads| then Some(threads[i].running) else None
    {
      CheckDeleteLater();
      var i := FindById(id);
      r := if i < |threads| then Some(threads[i].running) else None;
    }
  }
}
