/** What every event does to the dialogue script, told by its sentences, flags and timers instead of by its handlers. */
module DialogueSentences {
  import opened Options
  import opened DialogueSpec

  /** The event delivers a timer with the given number. */
  ghost predicate Ticks(s: State, e: Event, number: nat) {
    e.Expired? && e.index < |s.timers| && s.timers[e.index].number == number
  }

  /** A tick that finds the owner in another state than the one stored. */
  ghost predicate Moves(s: State, e: Event, from: AiState, to: AiState) {
    Ticks(s, e, 1) && s.lastState == from && e.current == to
  }

  /** What each sentence is for. */
  ghost predicate Occasion(kind: DialogueType, s: State, e: Event) {
    match kind
    case TakeDamageFromFriend => e.Damaged? && e.attacker == Friend && 0.0 < e.amount < e.hitpoints
    case TakeDamageFromEnemy => e.Damaged? && e.attacker == Enemy && 0.0 < e.amount < e.hitpoints
    case DamageEnemy => e == Custom(53548)
    case DamageFriend => e == Custom(53549)
    case KilledEnemy => e == Custom(53550) || (Ticks(s, e, 2) && s.enemyKilled)
    case KilledFriend => e == Custom(53551)
    case SawFriend => Ticks(s, e, 1) && e.friendVisible && !s.sawFriend
    case SawEnemy => e.EnemySeen? && !s.sawEnemy
    case Die => e.Killed? && e.attacker != Nobody
    case PokeIdle => e.Poked? && s.lastState == Idle
    case PokeSearch => e.Poked? && s.lastState == Search
    case PokeCombat => e.Poked? && s.lastState == Combat
    case IdleToCombat => Moves(s, e, Idle, Combat)
    case IdleToSearch => Moves(s, e, Idle, Search)
    case SearchToCombat => Moves(s, e, Search, Combat)
    case SearchToIdle => Moves(s, e, Search, Idle)
    case CombatToSearch => Moves(s, e, Combat, Search)
    case CombatToIdle => Moves(s, e, Combat, Idle)
  }

  predicate IsTransition(kind: DialogueType) {
    || kind == IdleToCombat || kind == IdleToSearch || kind == SearchToCombat || kind == SearchToIdle
    || kind == CombatToSearch || kind == CombatToIdle
  }

  /**
   * The owner is awake and no star, alive unless it cries out in death, and silent unless the event itself ends
   * its sentence, as a death and a timer 2 do.
   */
  ghost predicate MaySpeak(kind: DialogueType, s: State, step: Step) {
    && !step.owner.hibernating && !step.owner.star && (step.owner.dead ==> kind == Die)
    && (s.acting ==> kind == Die || Ticks(s, step.event, 2))
  }

  ghost predicate Changes(s: State, e: Event) {
    exists kind :: IsTransition(kind) && Occasion(kind, s, e)
  }

  /** A friend is only noticed by a tick that has not already made the owner speak of its own state. */
  ghost predicate Notices(kind: DialogueType, s: State, step: Step) {
    Occasion(kind, s, step.event) && MaySpeak(kind, s, step)
    && (kind == SawFriend ==> !(Changes(s, step.event) && step.found))
  }

  /** The sentence is spoken: there is an occasion, the owner may speak, and a conversation is drawn. */
  ghost predicate Says(kind: DialogueType, s: State, step: Step) {
    Notices(kind, s, step) && if kind == SawFriend then step.foundToo else step.found
  }

  ghost function After(s: State, step: Step): State
    requires Enabled(s, step.event)
  {
    Next(s, step.event, step.owner, step.found, step.foundToo)
  }

  ghost predicate Adds(s: State, after: State, kind: DialogueType) {
    after.sounds == s.sounds + [Sound(kind, s.now)]
  }

  /** The timers of a flag for a friend or an enemy seen, of a sentence, and of the next tick. */
  function NewTimers(timers: seq<Timer>, now: real, friend: bool, enemy: bool, spoke: bool, tick: bool): seq<Timer> {
    timers + (if friend then [Timer(4, now + 3.0)] else []) + (if enemy then [Timer(3, now + 3.0)] else [])
    + (if spoke then [Timer(2, now + 2.0)] else []) + (if tick then [Timer(1, now + 2.0)] else [])
  }

  // ---- One event ------------------------------------------------------------------------------

  lemma ActIs(s: State, o: Owner, kind: DialogueType, found: bool)
    ensures var may := !o.hibernating && !s.acting && !o.star && (o.dead ==> kind == Die);
      var after := Act(s, o, kind, found);
      && after.sounds == s.sounds + (if may && found then [Sound(kind, s.now)] else [])
      && after.timers ==
           NewTimers(s.timers, s.now, may && kind == SawFriend, may && kind == SawEnemy, may && found, false)
      && after == s.(acting := s.acting || (may && found), sawFriend := s.sawFriend || (may && kind == SawFriend),
                     sawEnemy := s.sawEnemy || (may && kind == SawEnemy), sounds := after.sounds,
                     timers := after.timers)
  {
  }

  /** At most one sentence more. */
  lemma SaidIs(s: State, after: State, kind: DialogueType, spoke: bool)
    requires after.sounds == s.sounds + if spoke then [Sound(kind, s.now)] else []
    ensures forall other :: Adds(s, after, other) <==> spoke && other == kind
    ensures after.sounds == s.sounds <==> !spoke
  {
    forall other ensures Adds(s, after, other) <==> spoke && other == kind {
      if Adds(s, after, other) {
        assert spoke && after.sounds[|s.sounds|] == Sound(kind, s.now) == Sound(other, s.now);
      }
    }
  }

  /** The sentence, if any, that an event other than a timer is the occasion for. */
  function KindOf(s: State, e: Event): DialogueType {
    match e
    case Damaged(attacker, _, _) => if attacker == Enemy then TakeDamageFromEnemy else TakeDamageFromFriend
    case Killed(_) => Die
    case Poked => if s.lastState == Idle then PokeIdle else if s.lastState == Search then PokeSearch else PokeCombat
    case Custom(k) =>
      if k == CUSTOM_EVENT_DAMAGED_ENEMY then DamageEnemy else if k == CUSTOM_EVENT_DAMAGED_FRIEND then DamageFriend
      else if k == CUSTOM_EVENT_KILLED_ENEMY then KilledEnemy else KilledFriend
    case _ => DialogueType.SawEnemy
  }

  lemma KindIs(s: State, step: Step, kind: DialogueType)
    requires !step.event.Expired?
    ensures Says(kind, s, step) <==> kind == KindOf(s, step.event) && Says(KindOf(s, step.event), s, step)
  {
  }

  lemma HandlersSpeak(s: State, step: Step)
    requires Enabled(s, step.event) && !step.event.Expired?
    ensures var kind := KindOf(s, step.event);
      After(s, step).sounds == s.sounds + if Says(kind, s, step) then [Sound(kind, s.now)] else []
  {
    hide Act, NewTimers;
    ActIs(s, step.owner, KindOf(s, step.event), step.found);
    ActIs(s.(acting := false), step.owner, Die, step.found);
  }

  lemma HandlersSay(s: State, step: Step, kind: DialogueType)
    requires Enabled(s, step.event) && !step.event.Expired?
    ensures Adds(s, After(s, step), kind) <==> Says(kind, s, step)
  {
    hide Next, Says, KindOf;
    KindIs(s, step, kind);
    HandlersSpeak(s, step);
    SaidIs(s, After(s, step), KindOf(s, step.event), Says(KindOf(s, step.event), s, step));
  }

  lemma ChangesIff(s: State, e: Event, kind: DialogueType)
    requires Ticks(s, e, 1)
    ensures Changes(s, e) <==> Transition(s.lastState, e.current).Some?
    ensures IsTransition(kind) ==> (Occasion(kind, s, e) <==> Transition(s.lastState, e.current) == Some(kind))
    ensures Transition(s.lastState, e.current).Some? ==>
      IsTransition(Transition(s.lastState, e.current).value) && Occasion(Transition(s.lastState, e.current).value, s, e)
  {
    var t := Transition(s.lastState, e.current);
    if t.Some? {
      assert IsTransition(t.value) && Occasion(t.value, s, e);
    }
  }

  lemma StateChangedIs(s: State, o: Owner, to: AiState, found: bool)
    ensures var t := Transition(s.lastState, to);
      var spoke := !o.hibernating && !s.acting && !o.star && !o.dead && t.Some? && found;
      StateChanged(s, o, to, found) == s.(
        lastState := to, acting := s.acting || spoke,
        sounds := s.sounds + (if spoke then [Sound(t.value, s.now)] else []),
        timers := NewTimers(s.timers, s.now, false, false, spoke, false))
  {
    hide Act;
    var t := Transition(s.lastState, to);
    if t.Some? {
      ActIs(s.(lastState := to), o, t.value, found);
      assert t.value != SawFriend && t.value != SawEnemy && t.value != Die;
    }
  }

  lemma FriendSeenIs(s: State, o: Owner, found: bool)
    ensures var may := !o.hibernating && !s.acting && !o.star && !o.dead;
      Act(s, o, SawFriend, found) == s.(
        acting := s.acting || (may && found), sawFriend := s.sawFriend || may,
        sounds := s.sounds + (if may && found then [Sound(DialogueType.SawFriend, s.now)] else []),
        timers := NewTimers(s.timers, s.now, may, false, may && found, false))
  {
    ActIs(s, o, SawFriend, found);
  }

  lemma FirstTickRuns(s: State, step: Step)
    requires Enabled(s, step.event) && Ticks(s, step.event, 1)
    ensures After(s, step) == FirstTimer(WithoutTimer(s, step.event.index), step.owner, step.event.current,
                                         step.event.friendVisible, step.found, step.foundToo)
  {
    hide FirstTimer;
  }

  /** What a timer 1 does. */
  lemma FirstTickIs(s: State, step: Step)
    requires Enabled(s, step.event) && Ticks(s, step.event, 1)
    ensures var o, e, t := step.owner, step.event, Transition(s.lastState, step.event.current);
      var may := !o.hibernating && !s.acting && !o.star && !o.dead;
      var spoke := may && t.Some? && step.found;
      var noticed := may && e.friendVisible && !s.sawFriend && !spoke;
      var greeted := noticed && step.foundToo;
      After(s, step) == s.(
        lastState := e.current, acting := s.acting || spoke || greeted, sawFriend := s.sawFriend || noticed,
        sounds := s.sounds + (if spoke then [Sound(t.value, s.now)]
                              else if greeted then [Sound(DialogueType.SawFriend, s.now)] else []),
        timers := NewTimers(WithoutTimer(s, e.index).timers, s.now, noticed, false, spoke || greeted, true))
  {
    var o, e := step.owner, step.event;
    var left := WithoutTimer(s, e.index);
    FirstTickRuns(s, step);
    hide Next;
    StateChangedIs(left, o, e.current, step.found);
    var changed := StateChanged(left, o, e.current, step.found);
    FriendSeenIs(changed, o, step.foundToo);
    hide Act, StateChanged, Transition;
    assert left.timers + [] == left.timers && left.sounds + [] == left.sounds;
  }

  /** The sentence a timer 1 may be the occasion for. */
  ghost function FirstKind(s: State, step: Step): DialogueType
    requires Ticks(s, step.event, 1)
  {
    var t := Transition(s.lastState, step.event.current);
    if t.Some? && Says(t.value, s, step) then t.value else SawFriend
  }

  lemma FirstKindIs(s: State, step: Step, kind: DialogueType)
    requires Ticks(s, step.event, 1)
    ensures Says(kind, s, step) <==> kind == FirstKind(s, step) && Says(FirstKind(s, step), s, step)
  {
    hide Transition, Changes;
    ChangesIff(s, step.event, kind);
    var t := Transition(s.lastState, step.event.current);
    if t.Some? {
      ChangesIff(s, step.event, t.value);
    }
  }

  lemma FirstTickSpeaks(s: State, step: Step)
    requires Enabled(s, step.event) && Ticks(s, step.event, 1)
    ensures After(s, step).sounds ==
      s.sounds + if Says(FirstKind(s, step), s, step) then [Sound(FirstKind(s, step), s.now)] else []
  {
    hide Next, Transition, Changes, NewTimers;
    FirstTickIs(s, step);
    ChangesIff(s, step.event, SawFriend);
  }

  lemma FirstTickSays(s: State, step: Step, kind: DialogueType)
    requires Enabled(s, step.event) && Ticks(s, step.event, 1)
    ensures Adds(s, After(s, step), kind) <==> Says(kind, s, step)
  {
    hide Next, Says, FirstKind;
    FirstKindIs(s, step, kind);
    FirstTickSpeaks(s, step);
    SaidIs(s, After(s, step), FirstKind(s, step), Says(FirstKind(s, step), s, step));
  }

  /** What a timer 2 does. */
  lemma SecondTickIs(s: State, step: Step)
    requires Enabled(s, step.event) && Ticks(s, step.event, 2)
    ensures var o := step.owner;
      var spoke := s.enemyKilled && !o.hibernating && !o.star && !o.dead && step.found;
      After(s, step) == s.(
        acting := spoke, enemyKilled := false,
        sounds := s.sounds + (if spoke then [Sound(DialogueType.KilledEnemy, s.now)] else []),
        timers := NewTimers(WithoutTimer(s, step.event.index).timers, s.now, false, false, spoke, false))
  {
    hide Act;
    ActIs(WithoutTimer(s, step.event.index).(acting := false), step.owner, KilledEnemy, step.found);
  }

  lemma SecondTickSays(s: State, step: Step, kind: DialogueType)
    requires Enabled(s, step.event) && Ticks(s, step.event, 2)
    ensures Adds(s, After(s, step), kind) <==> Says(kind, s, step)
  {
    hide Next, NewTimers;
    SecondTickIs(s, step);
    SaidIs(s, After(s, step), KilledEnemy, Says(KilledEnemy, s, step));
  }

  /** A sentence is spoken exactly on its occasion, by an owner that may speak, if a conversation is drawn. */
  lemma SaysIff(s: State, step: Step, kind: DialogueType)
    requires Enabled(s, step.event)
    ensures Adds(s, After(s, step), kind) <==> Says(kind, s, step)
  {
    if !step.event.Expired? {
      HandlersSay(s, step, kind);
    } else if Ticks(s, step.event, 1) {
      FirstTickSays(s, step, kind);
    } else if Ticks(s, step.event, 2) {
      SecondTickSays(s, step, kind);
    } else {
      SaidIs(s, After(s, step), kind, false);
    }
  }

  ghost predicate Speaks(s: State, step: Step) {
    exists kind :: Says(kind, s, step)
  }

  /** Only one sentence can be spoken at a time. */
  lemma SpeaksIff(s: State, step: Step, kind: DialogueType)
    requires Enabled(s, step.event)
    requires After(s, step).sounds == s.sounds || Adds(s, After(s, step), kind)
    ensures Speaks(s, step) <==> Adds(s, After(s, step), kind)
    ensures Speaks(s, step) <==> After(s, step).sounds != s.sounds
  {
    hide Next, Says;
    forall other ensures Adds(s, After(s, step), other) <==> Says(other, s, step) {
      SaysIff(s, step, other);
    }
    if Adds(s, After(s, step), kind) {
      SaidIs(s, After(s, step), kind, true);
    } else {
      SaidIs(s, After(s, step), kind, false);
    }
  }

  lemma FirstTickStores(s: State, step: Step)
    requires Enabled(s, step.event) && Ticks(s, step.event, 1)
    ensures After(s, step).lastState == step.event.current
  {
    hide Next, NewTimers, Transition;
    FirstTickIs(s, step);
  }

  /** The stored state is the one met by the last timer 1; nothing else changes it, and hibernation does not matter. */
  lemma LastStateIs(s: State, step: Step)
    requires Enabled(s, step.event)
    ensures After(s, step).lastState == if Ticks(s, step.event, 1) then step.event.current else s.lastState
  {
    hide Act, NewTimers, FirstTimer;
    if Ticks(s, step.event, 1) {
      FirstTickStores(s, step);
    } else if step.event.Expired? {
      ActIs(WithoutTimer(s, step.event.index).(acting := false), step.owner, KilledEnemy, step.found);
    } else {
      ActIs(s, step.owner, KindOf(s, step.event), step.found);
      ActIs(s.(acting := false), step.owner, Die, step.found);
    }
  }

  ghost predicate CutShort(s: State, step: Step) {
    step.event.Killed? && step.event.attacker != Nobody && !step.owner.hibernating
  }

  function Left(s: State, e: Event): seq<Timer> {
    if e.Expired? && e.index < |s.timers| then WithoutTimer(s, e.index).timers else s.timers
  }

  /** What an event leaves of the flags and timers, in terms of what it makes the owner notice and say. */
  ghost predicate FlagsAndTimers(s: State, step: Step, after: State, spoke: bool) {
    var e := step.event;
    && (after.sawFriend <==> (s.sawFriend && !Ticks(s, e, 4)) || Notices(SawFriend, s, step))
    && (after.sawEnemy <==> (s.sawEnemy && !Ticks(s, e, 3)) || Notices(SawEnemy, s, step))
    && (after.enemyKilled <==> (s.enemyKilled && !Ticks(s, e, 2)) || (e == Custom(53550) && s.acting))
    && (after.acting <==> spoke || (s.acting && !Ticks(s, e, 2) && !CutShort(s, step)))
    && after.now == (if e.Passes? then e.until else s.now)
    && after.timers == NewTimers(Left(s, e), s.now, Notices(SawFriend, s, step), Notices(SawEnemy, s, step), spoke,
                                 Ticks(s, e, 1))
  }

  lemma NoTimers(timers: seq<Timer>, now: real)
    ensures NewTimers(timers, now, false, false, false, false) == timers
  {
  }

  lemma KilledFlags(s: State, step: Step)
    requires Enabled(s, step.event) && step.event.Killed?
    ensures FlagsAndTimers(s, step, After(s, step), Says(Die, s, step))
    ensures After(s, step).sounds == s.sounds || Adds(s, After(s, step), Die)
  {
    NoTimers(s.timers, s.now);
    hide Act, NewTimers;
    ActIs(s.(acting := false), step.owner, Die, step.found);
  }

  lemma CustomFlags(s: State, step: Step)
    requires Enabled(s, step.event) && step.event.Custom?
    ensures FlagsAndTimers(s, step, After(s, step), Says(KindOf(s, step.event), s, step))
    ensures After(s, step).sounds == s.sounds || Adds(s, After(s, step), KindOf(s, step.event))
  {
    NoTimers(s.timers, s.now);
    hide Act, NewTimers;
    ActIs(s, step.owner, KindOf(s, step.event), step.found);
  }

  lemma HandlersFlag(s: State, step: Step)
    requires Enabled(s, step.event) && !step.event.Expired? && !step.event.Killed? && !step.event.Custom?
    ensures FlagsAndTimers(s, step, After(s, step), Says(KindOf(s, step.event), s, step))
    ensures After(s, step).sounds == s.sounds || Adds(s, After(s, step), KindOf(s, step.event))
  {
    NoTimers(s.timers, s.now);
    hide Act, NewTimers;
    ActIs(s, step.owner, KindOf(s, step.event), step.found);
  }

  lemma FirstTickFlags(s: State, step: Step)
    requires Enabled(s, step.event) && Ticks(s, step.event, 1)
    ensures FlagsAndTimers(s, step, After(s, step), Says(FirstKind(s, step), s, step))
  {
    hide Next, Transition, Changes, NewTimers;
    FirstTickIs(s, step);
    ChangesIff(s, step.event, SawFriend);
  }

  lemma OtherTicksFlag(s: State, step: Step)
    requires Enabled(s, step.event) && step.event.Expired? && !Ticks(s, step.event, 1)
    ensures FlagsAndTimers(s, step, After(s, step), Says(KilledEnemy, s, step))
    ensures After(s, step).sounds == s.sounds || Adds(s, After(s, step), KilledEnemy)
  {
    NoTimers(Left(s, step.event), s.now);
    if Ticks(s, step.event, 2) {
      hide Next, NewTimers;
      SecondTickIs(s, step);
    }
  }

  /** Flags and timers follow what the event makes the owner notice and say. */
  lemma FlagsAndTimersAre(s: State, step: Step)
    requires Enabled(s, step.event)
    ensures FlagsAndTimers(s, step, After(s, step), Speaks(s, step))
  {
    hide Next, FlagsAndTimers, Speaks, Says, FirstKind;
    var kind := KindOf(s, step.event);
    if Ticks(s, step.event, 1) {
      kind := FirstKind(s, step);
      FirstTickFlags(s, step);
      FirstTickSpeaks(s, step);
    } else if step.event.Expired? {
      kind := KilledEnemy;
      OtherTicksFlag(s, step);
    } else if step.event.Killed? {
      KilledFlags(s, step);
    } else if step.event.Custom? {
      CustomFlags(s, step);
    } else {
      HandlersFlag(s, step);
    }
    SaysIff(s, step, kind);
    SpeaksIff(s, step, kind);
  }

  /** The script starts out silent, with the state of its owner stored and the first tick due after a second. */
  lemma Beginning(star: bool, current: AiState, now: real)
    ensures var s := Created(star, current, now);
      && s.lastState == current && s.now == now && s.sounds == []
      && !s.acting && !s.sawEnemy && !s.sawFriend && !s.enemyKilled
      && s.timers == if star then [] else [Timer(1, now + 1.0)]
  {
  }

  // ---- Runs -----------------------------------------------------------------------------------

  /** A timer 1 is delivered by the k-th step. */
  ghost predicate TicksAt(states: seq<State>, steps: seq<Step>, k: nat)
    requires |states| == |steps| + 1
  {
    k < |steps| && Ticks(states[k], steps[k].event, 1)
  }

  /** After a tick the state it met stays stored until the next one. */
  lemma {:induction false} StoredUntilTheNextTick(states: seq<State>, steps: seq<Step>, j: nat, k: nat)
    requires IsRun(states, steps) && TicksAt(states, steps, j) && j < k <= |steps|
    requires forall i :: j < i < k ==> !TicksAt(states, steps, i)
    ensures states[k].lastState == steps[j].event.current
    decreases k
  {
    hide Next, Ticks, Enabled;
    LastStateIs(states[k - 1], steps[k - 1]);
    if j < k - 1 {
      assert !TicksAt(states, steps, k - 1);
      StoredUntilTheNextTick(states, steps, j, k - 1);
    }
  }

  /** A sentence about a change of state is spoken by a tick that meets another state than the one stored. */
  lemma TransitionNeedsAChange(states: seq<State>, steps: seq<Step>, k: nat, kind: DialogueType)
    requires IsRun(states, steps) && k < |steps| && IsTransition(kind) && Adds(states[k], states[k + 1], kind)
    ensures TicksAt(states, steps, k) && steps[k].event.current != states[k].lastState
    ensures kind == IdleToCombat ==> states[k].lastState == Idle && steps[k].event.current == Combat
    ensures kind == IdleToSearch ==> states[k].lastState == Idle && steps[k].event.current == Search
    ensures kind == SearchToCombat ==> states[k].lastState == Search && steps[k].event.current == Combat
    ensures kind == SearchToIdle ==> states[k].lastState == Search && steps[k].event.current == Idle
    ensures kind == CombatToSearch ==> states[k].lastState == Combat && steps[k].event.current == Search
    ensures kind == CombatToIdle ==> states[k].lastState == Combat && steps[k].event.current == Idle
  {
    hide Next;
    SaysIff(states[k], steps[k], kind);
  }

  /** Between two ticks in a row that meet the same state, and at the second, no change of state is spoken of. */
  lemma SameStateSaysNothing(states: seq<State>, steps: seq<Step>, j: nat, k: nat, i: nat, kind: DialogueType)
    requires IsRun(states, steps) && TicksAt(states, steps, j) && TicksAt(states, steps, k) && j < i <= k
    requires forall m :: j < m < k ==> !TicksAt(states, steps, m)
    requires steps[j].event.current == steps[k].event.current && IsTransition(kind)
    ensures !Adds(states[i], states[i + 1], kind)
  {
    hide Next, Enabled, Adds, Ticks, IsTransition;
    if Adds(states[i], states[i + 1], kind) {
      TransitionNeedsAChange(states, steps, i, kind);
      StoredUntilTheNextTick(states, steps, j, k);
    }
  }
}
