/** Lua_Lock, Lua_Unlock and Lock_Check: how workers stop the game thread (LuaThread.cpp). */
module LockCheck {
  /** A worker: calls Lock, holds the mutex before it waits, waits, is woken, is past Lock, calls Unlock. */
  datatype WorkerPc = Outside | Locking | BeforeWait | Asleep | Woken | Critical

  /** The game thread: outside Lock_Check, has notified, found the mutex taken, holds the mutex. */
  datatype GamePc = Playing | Notifying | Blocked | Passing

  /** Who holds the mutex m_lockerFDS. */
  datatype Holder = Nobody | Worker(w: nat) | Game

  datatype System = System(workers: map<nat, WorkerPc>, game: GamePc, holder: Holder)

  ghost predicate At(s: System, w: nat, pc: WorkerPc) {
    w in s.workers && s.workers[w] == pc
  }

  /** The step of worker w from one place to another, with what happens to the mutex. */
  ghost predicate Move(s: System, w: nat, from: WorkerPc, to: WorkerPc, before: Holder, after: Holder, s': System) {
    At(s, w, from) && s.holder == before && s' == s.(workers := s.workers[w := to], holder := after)
  }

  /** Lua_Lock takes the mutex, waits (which releases it), and takes it again when woken; Lua_Unlock releases it. */
  ghost predicate WorkerStep(s: System, w: nat, s': System) {
    || (At(s, w, Outside) && s' == s.(workers := s.workers[w := Locking]))
    || Move(s, w, Locking, BeforeWait, Nobody, Worker(w), s')
    || Move(s, w, BeforeWait, Asleep, Worker(w), Nobody, s')
    || (At(s, w, Asleep) && s' == s.(workers := s.workers[w := Woken]))   // a spurious wakeup
    || Move(s, w, Woken, Critical, Nobody, Worker(w), s')
    || Move(s, w, Critical, Outside, Worker(w), Nobody, s')
  }

  /** Lock_Check: notify_all, try_lock, lock() if that failed, unlock. */
  ghost predicate GameStep(s: System, s': System) {
    || (s.game == Playing && s' == s.(game := Notifying,
          workers := map w | w in s.workers :: if s.workers[w] == Asleep then Woken else s.workers[w]))
    || (s.game == Notifying && s.holder != Nobody && s' == s.(game := Blocked))
    || ((s.game == Notifying || s.game == Blocked) && s.holder == Nobody && s' == s.(game := Passing, holder := Game))
    || Finish(s, s')
  }

  /** Lock_Check unlocks and returns. */
  ghost predicate Finish(s: System, s': System) {
    s.game == Passing && s.holder == Game && s' == s.(game := Playing, holder := Nobody)
  }

  ghost predicate Join(s: System, w: nat, s': System) {
    w !in s.workers && s' == s.(workers := s.workers[w := Outside])
  }

  ghost predicate Next(s: System, s': System) {
    GameStep(s, s') || exists w: nat :: WorkerStep(s, w, s') || Join(s, w, s')
  }

  ghost predicate IsRun(run: seq<System>) {
    && |run| > 0 && run[0] == System(map[], Playing, Nobody)
    && forall i :: 0 <= i < |run| - 1 ==> Next(run[i], run[i + 1])
  }

  /** The mutex is held by exactly those whose place says so. */
  ghost predicate Inv(s: System) {
    && (forall w :: w in s.workers ==>
      (s.workers[w] == BeforeWait || s.workers[w] == Critical <==> s.holder == Worker(w)))
    && (s.holder.Worker? ==> s.holder.w in s.workers)
    && (s.game == Passing <==> s.holder == Game)
  }

  lemma WorkerKeepsInv(s: System, w: nat, s': System)
    requires Inv(s) && (WorkerStep(s, w, s') || Join(s, w, s'))
    ensures Inv(s')
  {
    assert s'.game == s.game;
    assert forall u :: u in s'.workers && u != w ==> u in s.workers && s'.workers[u] == s.workers[u];
  }

  lemma StepKeepsInv(s: System, s': System)
    requires Inv(s) && Next(s, s')
    ensures Inv(s')
  {
    if !GameStep(s, s') {
      var w: nat :| WorkerStep(s, w, s') || Join(s, w, s');
      WorkerKeepsInv(s, w, s');
    }
  }

  lemma {:induction false} EveryStateIsExclusive(run: seq<System>, i: nat)
    requires IsRun(run) && i < |run|
    ensures Inv(run[i])
  {
    if i > 0 {
      EveryStateIsExclusive(run, i - 1);
      assert Next(run[i - 1], run[i - 1 + 1]);
      StepKeepsInv(run[i - 1], run[i]);
    }
  }

  /** No two workers are ever past Lock at once. */
  lemma WorkersExclude(run: seq<System>, i: nat, u: nat, w: nat)
    requires IsRun(run) && i < |run| && At(run[i], u, Critical) && At(run[i], w, Critical)
    ensures u == w
  {
    EveryStateIsExclusive(run, i);
  }

  /** Lock_Check cannot return while a worker is past Lock. */
  lemma LockCheckWaitsForWorkers(run: seq<System>, i: nat, s': System, w: nat)
    requires IsRun(run) && i < |run| && Finish(run[i], s')
    ensures !At(run[i], w, Critical)
  {
    EveryStateIsExclusive(run, i);
  }

  lemma Extend(run: seq<System>, s': System)
    requires IsRun(run) && Next(run[|run| - 1], s')
    ensures IsRun(run + [s'])
  {
    var longer := run + [s'];
    forall i | 0 <= i < |longer| - 1 ensures Next(longer[i], longer[i + 1]) {
      if i < |run| - 1 {
        assert Next(run[i], run[i + 1]);
      }
    }
  }

  function WithWorker(s: System, pc: WorkerPc, holder: Holder): System {
    s.(workers := s.workers[0 := pc], holder := holder)
  }

  lemma ExtendByWorker(run: seq<System>, pc: WorkerPc, holder: Holder) returns (longer: seq<System>)
    requires IsRun(run) && WorkerStep(run[|run| - 1], 0, WithWorker(run[|run| - 1], pc, holder))
    ensures longer == run + [WithWorker(run[|run| - 1], pc, holder)] && IsRun(longer)
  {
    Extend(run, WithWorker(run[|run| - 1], pc, holder));
    longer := run + [WithWorker(run[|run| - 1], pc, holder)];
  }

  lemma ExtendByGame(run: seq<System>, s': System) returns (longer: seq<System>)
    requires IsRun(run) && GameStep(run[|run| - 1], s')
    ensures longer == run + [s'] && IsRun(longer)
  {
    Extend(run, s');
    longer := run + [s'];
  }

  function Single(pc: WorkerPc, game: GamePc, holder: Holder): System {
    System(map[0 := pc], game, holder)
  }

  /** A worker goes to sleep in Lock. */
  lemma WorkerSleeps() returns (run: seq<System>)
    ensures IsRun(run) && run[|run| - 1] == Single(Asleep, Playing, Nobody)
  {
    run := [System(map[], Playing, Nobody)];
    assert Join(run[0], 0, Single(Outside, Playing, Nobody));
    Extend(run, Single(Outside, Playing, Nobody));
    run := run + [Single(Outside, Playing, Nobody)];
    hide IsRun;
    run := ExtendByWorker(run, Locking, Nobody);
    run := ExtendByWorker(run, BeforeWait, Worker(0));
    run := ExtendByWorker(run, Asleep, Nobody);
  }

  /**
   * The ordinary race, without a spurious wakeup: Lock_Check notifies, takes the mutex and returns before the
   * woken worker gets it; the worker is then past Lock while the game plays on, notifies again, and blocks.
   */
  lemma GameOvertakesTheWorker() returns (run: seq<System>)
    ensures IsRun(run) && |run| >= 3
    ensures run[|run| - 3] == Single(Critical, Playing, Worker(0))
    ensures run[|run| - 2] == Single(Critical, Notifying, Worker(0))
    ensures run[|run| - 1] == Single(Critical, Blocked, Worker(0))
  {
    run := WorkerSleeps();
    hide IsRun;
    run := ExtendByGame(run, Single(Woken, Notifying, Nobody));
    run := ExtendByGame(run, Single(Woken, Passing, Game));
    run := ExtendByGame(run, Single(Woken, Playing, Nobody));
    run := ExtendByWorker(run, Critical, Worker(0));
    run := ExtendByGame(run, Single(Critical, Notifying, Worker(0)));
    run := ExtendByGame(run, Single(Critical, Blocked, Worker(0)));
  }

  /** No worker is past Lock while the game is at `pc`, in any state of any run. */
  ghost predicate ExcludedAt(pc: GamePc) {
    forall run: seq<System>, i: nat, w: nat :: IsRun(run) && i < |run| && run[i].game == pc ==> !At(run[i], w, Critical)
  }

  /** The game thread excludes the workers exactly while it holds the mutex inside Lock_Check. */
  lemma GameExcludesIff(pc: GamePc)
    ensures ExcludedAt(pc) <==> pc == Passing
  {
    if pc == Passing {
      forall run: seq<System>, i: nat, w: nat | IsRun(run) && i < |run| && run[i].game == pc
        ensures !At(run[i], w, Critical)
      {
        EveryStateIsExclusive(run, i);
      }
    } else {
      var run := GameOvertakesTheWorker();
      var i := |run| - if pc == Playing then 3 else if pc == Notifying then 2 else 1;
      assert run[i].game == pc && At(run[i], 0, Critical);
    }
  }
}
