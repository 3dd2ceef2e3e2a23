/** The AI_Dialogue script as a machine of flags, pending timers and the sounds it has played. */
module DialogueSpec {
  import opened Options

  datatype AiState = Idle | Search | Combat | Other(code: int)

  datatype DialogueType =
    | TakeDamageFromFriend | TakeDamageFromEnemy | DamageFriend | DamageEnemy | KilledFriend | KilledEnemy
    | SawFriend | SawEnemy | Die | PokeIdle | PokeSearch | PokeCombat
    | IdleToCombat | IdleToSearch | SearchToCombat | SearchToIdle | CombatToSearch | CombatToIdle

  /** A timer the engine will deliver with its number, not before it is due. */
  datatype Timer = Timer(number: nat, due: real)

  datatype Sound = Sound(kind: DialogueType, at: real)

  datatype State = State(acting: bool, lastState: AiState, sawEnemy: bool, sawFriend: bool, enemyKilled: bool,
                         timers: seq<Timer>, now: real, sounds: seq<Sound>)

  /** What the engine answers about the owner while it delivers one event. */
  datatype Owner = Owner(hibernating: bool, dead: bool, star: bool)

  datatype Party = Nobody | Enemy | Friend

  /** What happens to the owner. `found` says whether each attempt to speak draws a conversation. */
  datatype Event =
    | Damaged(attacker: Party, amount: real, hitpoints: real)
    | Killed(attacker: Party)
    | Poked
    | Expired(index: nat, current: AiState, friendVisible: bool)
    | Custom(kind: int)
    | EnemySeen
    | Passes(until: real)

  const CUSTOM_EVENT_DAMAGED_ENEMY := 53548
  const CUSTOM_EVENT_DAMAGED_FRIEND := 53549
  const CUSTOM_EVENT_KILLED_ENEMY := 53550
  const CUSTOM_EVENT_KILLED_FRIEND := 53551

  function Started(timers: seq<Timer>, now: real, duration: real, number: nat): seq<Timer> {
    timers + [Timer(number, now + duration)]
  }

  function WithTimer(s: State, duration: real, number: nat): State {
    s.(timers := Started(s.timers, s.now, duration, number))
  }

  function Act(s: State, o: Owner, kind: DialogueType, found: bool): State {
    if o.hibernating || s.acting || o.star || (o.dead && kind != Die) then s
    else
      var seen :=
        if kind == SawFriend then WithTimer(s.(sawFriend := true), 3.0, 4)
        else if kind == SawEnemy then WithTimer(s.(sawEnemy := true), 3.0, 3)
        else s;
      if !found then seen
      else WithTimer(seen.(acting := true, sounds := seen.sounds + [Sound(kind, s.now)]), 2.0, 2)
  }

  function Transition(from: AiState, to: AiState): Option<DialogueType> {
    match (from, to)
    case (Idle, Combat) => Some(IdleToCombat)
    case (Idle, Search) => Some(IdleToSearch)
    case (Search, Combat) => Some(SearchToCombat)
    case (Search, Idle) => Some(SearchToIdle)
    case (Combat, Search) => Some(CombatToSearch)
    case (Combat, Idle) => Some(CombatToIdle)
    case _ => None
  }

  function StateChanged(s: State, o: Owner, to: AiState, found: bool): State {
    var kind := Transition(s.lastState, to);
    var moved := s.(lastState := to);
    if o.hibernating || kind.None? then moved else Act(moved, o, kind.value, found)
  }

  function FirstTimer(s: State, o: Owner, current: AiState, friendVisible: bool, found: bool, foundToo: bool): State {
    var changed := StateChanged(s, o, current, found);
    var looked :=
      if !o.hibernating && !changed.sawFriend && friendVisible then Act(changed, o, SawFriend, foundToo) else changed;
    WithTimer(looked, 2.0, 1)
  }

  function SecondTimer(s: State, o: Owner, found: bool): State {
    var quiet := s.(acting := false);
    if s.enemyKilled then Act(quiet, o, KilledEnemy, found).(enemyKilled := false) else quiet
  }

  function TimerExpired(s: State, o: Owner, number: nat, current: AiState, friendVisible: bool,
                        found: bool, foundToo: bool): State {
    match number
    case 1 => FirstTimer(s, o, current, friendVisible, found, foundToo)
    case 2 => SecondTimer(s, o, found)
    case 3 => s.(sawEnemy := false)
    case 4 => s.(sawFriend := false)
    case _ => s
  }

  function CustomEvent(s: State, o: Owner, kind: int, found: bool): State {
    if kind == CUSTOM_EVENT_DAMAGED_ENEMY then Act(s, o, DamageEnemy, found)
    else if kind == CUSTOM_EVENT_DAMAGED_FRIEND then Act(s, o, DamageFriend, found)
    else if kind == CUSTOM_EVENT_KILLED_ENEMY then
      if s.acting then s.(enemyKilled := true) else Act(s, o, KilledEnemy, found)
    else if kind == CUSTOM_EVENT_KILLED_FRIEND then Act(s, o, KilledFriend, found)
    else s
  }

  function DamagedBy(s: State, o: Owner, attacker: Party, amount: real, hitpoints: real, found: bool): State {
    if o.hibernating || attacker == Nobody || amount <= 0.0 || amount >= hitpoints then s
    else Act(s, o, if attacker == Enemy then TakeDamageFromEnemy else TakeDamageFromFriend, found)
  }

  function KilledBy(s: State, o: Owner, attacker: Party, found: bool): State {
    if o.hibernating || attacker == Nobody then s else Act(s.(acting := false), o, Die, found)
  }

  function PokedNow(s: State, o: Owner, found: bool): State {
    if o.hibernating then s
    else match s.lastState
      case Idle => Act(s, o, PokeIdle, found)
      case Search => Act(s, o, PokeSearch, found)
      case Combat => Act(s, o, PokeCombat, found)
      case Other(_) => s
  }

  function WithoutTimer(s: State, i: nat): State
    requires i < |s.timers|
  {
    s.(timers := s.timers[..i] + s.timers[i + 1..])
  }

  /** A timer is delivered once it is due, and time does not run past one that has not been delivered. */
  ghost predicate Enabled(s: State, e: Event) {
    match e
    case Expired(i, _, _) => i < |s.timers| && s.timers[i].due <= s.now
    case Passes(until) => s.now <= until && forall i :: 0 <= i < |s.timers| ==> until <= s.timers[i].due
    case _ => true
  }

  ghost function Next(s: State, e: Event, o: Owner, found: bool, foundToo: bool): State
    requires Enabled(s, e)
  {
    match e
    case Damaged(attacker, amount, hitpoints) => DamagedBy(s, o, attacker, amount, hitpoints, found)
    case Killed(attacker) => KilledBy(s, o, attacker, found)
    case Poked => PokedNow(s, o, found)
    case Expired(i, current, friendVisible) =>
      TimerExpired(WithoutTimer(s, i), o, s.timers[i].number, current, friendVisible, found, foundToo)
    case Custom(kind) => CustomEvent(s, o, kind, found)
    case EnemySeen => if o.hibernating || s.sawEnemy then s else Act(s, o, SawEnemy, found)
    case Passes(until) => s.(now := until)
  }

  function Created(star: bool, current: AiState, now: real): State {
    var s := State(false, current, false, false, false, [], now, []);
    if star then s else WithTimer(s, 1.0, 1)
  }

  // ---- The invariant --------------------------------------------------------------------------

  function Pending(timers: seq<Timer>, number: nat): nat {
    if timers == [] then 0
    else Pending(timers[..|timers| - 1], number) + if timers[|timers| - 1].number == number then 1 else 0
  }

  lemma PendingAppend(timers: seq<Timer>, t: Timer, number: nat)
    ensures Pending(timers + [t], number) == Pending(timers, number) + if t.number == number then 1 else 0
  {
    assert (timers + [t])[..|timers|] == timers;
  }

  lemma {:induction false} PendingRemove(timers: seq<Timer>, i: nat, number: nat)
    requires i < |timers|
    ensures Pending(timers[..i] + timers[i + 1..], number)
         == Pending(timers, number) - if timers[i].number == number then 1 else 0
    decreases |timers|
  {
    var last := |timers| - 1;
    if i == last {
      assert timers[..i] + timers[i + 1..] == timers[..last];
    } else {
      PendingRemove(timers[..last], i, number);
      assert timers[..last][..i] + timers[..last][i + 1..] == (timers[..i] + timers[i + 1..])[..last - 1];
    }
  }

  lemma {:induction false} PendingFinds(timers: seq<Timer>, number: nat) returns (i: nat)
    requires Pending(timers, number) > 0
    ensures i < |timers| && timers[i].number == number
  {
    i := |timers| - 1;
    if timers[i].number != number {
      i := PendingFinds(timers[..i], number);
    }
  }

  function Longest(number: nat): real {
    if number <= 2 then 2.0 else 3.0
  }

  ghost predicate Timely(timers: seq<Timer>, now: real) {
    forall i :: 0 <= i < |timers| ==>
      1 <= timers[i].number <= 4 && now <= timers[i].due <= now + Longest(timers[i].number)
  }

  /** Between events: one timer 1 keeps the script going, and every flag that is set has a timer to clear it. */
  ghost predicate Inv(s: State, ticking: bool) {
    && Timely(s.timers, s.now)
    && Pending(s.timers, 1) == (if ticking then 1 else 0)
    && (s.acting || s.enemyKilled ==> Pending(s.timers, 2) >= 1)
    && Pending(s.timers, 3) == (if s.sawEnemy then 1 else 0)
    && Pending(s.timers, 4) == (if s.sawFriend then 1 else 0)
  }

  /** Starting a timer for no longer than its number allows. */
  lemma TimerStarted(timers: seq<Timer>, now: real, duration: real, number: nat)
    requires Timely(timers, now) && 1 <= number <= 4 && 0.0 <= duration <= Longest(number)
    ensures Timely(Started(timers, now, duration, number), now)
    ensures forall other :: Pending(Started(timers, now, duration, number), other)
                         == Pending(timers, other) + if number == other then 1 else 0
  {
    forall other {
      PendingAppend(timers, Timer(number, now + duration), other);
    }
  }

  lemma ActKeepsInv(s: State, o: Owner, kind: DialogueType, found: bool, ticking: bool)
    requires Inv(s, ticking)
    requires kind == SawFriend ==> !s.sawFriend
    requires kind == SawEnemy ==> !s.sawEnemy
    ensures Inv(Act(s, o, kind, found), ticking)
  {
    hide Pending, Timely, Started;
    var seen := s.timers;
    if kind == SawFriend {
      TimerStarted(s.timers, s.now, 3.0, 4);
      seen := Started(s.timers, s.now, 3.0, 4);
    } else if kind == SawEnemy {
      TimerStarted(s.timers, s.now, 3.0, 3);
      seen := Started(s.timers, s.now, 3.0, 3);
    }
    TimerStarted(seen, s.now, 2.0, 2);
  }

  lemma FirstTimerKeepsInv(s: State, o: Owner, current: AiState, friendVisible: bool, found: bool, foundToo: bool)
    requires Inv(s, false)
    ensures Inv(FirstTimer(s, o, current, friendVisible, found, foundToo), true)
  {
    hide Pending, Timely, Started, Act;
    var kind := Transition(s.lastState, current);
    var moved := s.(lastState := current);
    if kind.Some? {
      ActKeepsInv(moved, o, kind.value, found, false);
    }
    var changed := StateChanged(s, o, current, found);
    if !changed.sawFriend {
      ActKeepsInv(changed, o, SawFriend, foundToo, false);
    }
    var looked :=
      if !o.hibernating && !changed.sawFriend && friendVisible then Act(changed, o, SawFriend, foundToo) else changed;
    TimerStarted(looked.timers, looked.now, 2.0, 1);
  }

  lemma SecondTimerKeepsInv(s: State, o: Owner, found: bool, ticking: bool)
    requires Inv(s.(acting := false, enemyKilled := false), ticking)
    ensures Inv(SecondTimer(s, o, found), ticking)
  {
    hide Pending, Timely, Started;
    var quiet := s.(acting := false, enemyKilled := false);
    ActKeepsInv(quiet, o, KilledEnemy, found, ticking);
    assert SecondTimer(s, o, found)
        == if s.enemyKilled then Act(quiet, o, KilledEnemy, found) else s.(acting := false);
  }

  lemma TimerRemoved(timers: seq<Timer>, now: real, i: nat)
    requires Timely(timers, now) && i < |timers|
    ensures var left := timers[..i] + timers[i + 1..];
      && Timely(left, now)
      && forall other :: Pending(left, other) == Pending(timers, other) - if timers[i].number == other then 1 else 0
  {
    forall other {
      PendingRemove(timers, i, other);
    }
  }

  lemma ExpiredKeepsInv(s: State, i: nat, o: Owner, current: AiState, friendVisible: bool,
                        found: bool, foundToo: bool, ticking: bool)
    requires Inv(s, ticking) && i < |s.timers|
    ensures Inv(TimerExpired(WithoutTimer(s, i), o, s.timers[i].number, current, friendVisible, found, foundToo),
                ticking)
  {
    hide Pending, FirstTimer, SecondTimer;
    TimerRemoved(s.timers, s.now, i);
    var number, left := s.timers[i].number, WithoutTimer(s, i);
    assert 1 <= number <= 4;
    hide Timely;
    if number == 1 {
      FirstTimerKeepsInv(left, o, current, friendVisible, found, foundToo);
    } else if number == 2 {
      SecondTimerKeepsInv(left, o, found, ticking);
    }
  }

  lemma OtherEventsKeepInv(s: State, e: Event, o: Owner, found: bool, foundToo: bool, ticking: bool)
    requires Inv(s, ticking) && Enabled(s, e) && !e.Expired?
    ensures Inv(Next(s, e, o, found, foundToo), ticking)
  {
    hide Pending, Act, TimerExpired;
    forall kind | kind != SawFriend && kind != SawEnemy ensures Inv(Act(s, o, kind, found), ticking) {
      ActKeepsInv(s, o, kind, found, ticking);
    }
    if e.EnemySeen? && !s.sawEnemy {
      ActKeepsInv(s, o, SawEnemy, found, ticking);
    } else if e.Killed? {
      ActKeepsInv(s.(acting := false), o, Die, found, ticking);
    }
  }

  lemma NextKeepsInv(s: State, e: Event, o: Owner, found: bool, foundToo: bool, ticking: bool)
    requires Inv(s, ticking) && Enabled(s, e)
    ensures Inv(Next(s, e, o, found, foundToo), ticking)
  {
    hide Inv, TimerExpired;
    if e.Expired? {
      ExpiredKeepsInv(s, e.index, o, e.current, e.friendVisible, found, foundToo, ticking);
    } else {
      OtherEventsKeepInv(s, e, o, found, foundToo, ticking);
    }
  }

  // ---- Runs ------------------------------------------------------------------------------------

  datatype Step = Step(event: Event, owner: Owner, found: bool, foundToo: bool)

  ghost predicate IsRun(states: seq<State>, steps: seq<Step>) {
    && |states| == |steps| + 1
    && forall k :: 0 <= k < |steps| ==>
         && Enabled(states[k], steps[k].event)
         && states[k + 1] == Next(states[k], steps[k].event, steps[k].owner, steps[k].found, steps[k].foundToo)
  }

  /** In every run of a script on an owner that was no star, and of one that was, each reachable state is sound. */
  lemma {:induction false} EveryRunKeepsInv(states: seq<State>, steps: seq<Step>, ticking: bool, k: nat)
    requires IsRun(states, steps) && k < |states| && Inv(states[0], ticking)
    ensures Inv(states[k], ticking)
  {
    hide Inv, Next, Enabled;
    if k > 0 {
      EveryRunKeepsInv(states, steps, ticking, k - 1);
      var step := steps[k - 1];
      NextKeepsInv(states[k - 1], step.event, step.owner, step.found, step.foundToo, ticking);
    }
  }

  lemma CreatedIsSound(star: bool, current: AiState, now: real)
    ensures Inv(Created(star, current, now), !star)
  {
    var first: seq<Timer> := [];
    TimerStarted(first, now, 1.0, 1);
  }

  ghost predicate Delivers(s: State, e: Event, t: Timer) {
    e.Expired? && e.index < |s.timers| && s.timers[e.index] == t
  }

  lemma ActKeepsTimers(s: State, o: Owner, kind: DialogueType, found: bool)
    ensures s.timers <= Act(s, o, kind, found).timers
  {
  }

  lemma FirstTimerKeepsTimers(s: State, o: Owner, current: AiState, friendVisible: bool, found: bool, foundToo: bool)
    ensures s.timers <= FirstTimer(s, o, current, friendVisible, found, foundToo).timers
  {
    hide Act, Transition;
    var kind := Transition(s.lastState, current);
    if kind.Some? {
      ActKeepsTimers(s.(lastState := current), o, kind.value, found);
    }
    var changed := StateChanged(s, o, current, found);
    assert s.timers <= changed.timers;
    ActKeepsTimers(changed, o, SawFriend, foundToo);
  }

  lemma HandlersKeepTimers(s: State, o: Owner, number: nat, current: AiState, friendVisible: bool,
                           found: bool, foundToo: bool)
    ensures s.timers <= TimerExpired(s, o, number, current, friendVisible, found, foundToo).timers
  {
    hide Act, FirstTimer;
    FirstTimerKeepsTimers(s, o, current, friendVisible, found, foundToo);
    ActKeepsTimers(s.(acting := false), o, KilledEnemy, found);
  }

  lemma EventsKeepTimers(s: State, e: Event, o: Owner, found: bool, foundToo: bool)
    requires Enabled(s, e) && !e.Expired?
    ensures s.timers <= Next(s, e, o, found, foundToo).timers
  {
    hide Act;
    forall kind ensures s.timers <= Act(s, o, kind, found).timers {
      ActKeepsTimers(s, o, kind, found);
    }
    ActKeepsTimers(s.(acting := false), o, Die, found);
  }

  /** A pending timer stays pending until the event that delivers it. */
  lemma TimerLasts(s: State, step: Step, t: Timer)
    requires Enabled(s, step.event) && t in s.timers && !Delivers(s, step.event, t)
    ensures t in Next(s, step.event, step.owner, step.found, step.foundToo).timers
  {
    hide TimerExpired, Act;
    var e := step.event;
    var i :| 0 <= i < |s.timers| && s.timers[i] == t;
    if e.Expired? {
      var left := WithoutTimer(s, e.index);
      assert t == left.timers[if i < e.index then i else i - 1];
      HandlersKeepTimers(left, step.owner, s.timers[e.index].number, e.current, e.friendVisible,
                         step.found, step.foundToo);
    } else {
      EventsKeepTimers(s, e, step.owner, step.found, step.foundToo);
    }
  }

  /** Every timer that was pending is delivered before time runs past it. */
  lemma {:induction false} TimersAreDelivered(states: seq<State>, steps: seq<Step>, ticking: bool, t: Timer)
    returns (k: nat)
    requires IsRun(states, steps) && Inv(states[0], ticking)
    requires t in states[0].timers && t.due < states[|steps|].now
    ensures k < |steps| && Delivers(states[k], steps[k].event, t)
  {
    hide Next, Enabled, Pending;
    k := 0;
    while !Delivers(states[k], steps[k].event, t)
      invariant k < |steps| && t in states[k].timers
      decreases |steps| - k
    {
      TimerLasts(states[k], steps[k], t);
      k := k + 1;
      EveryRunKeepsInv(states, steps, ticking, k);
    }
  }

  /** The flags that only their own timer clears. */
  predicate Flag(s: State, number: nat) {
    match number
    case 2 => s.enemyKilled
    case 3 => s.sawEnemy
    case 4 => s.sawFriend
    case _ => false
  }

  lemma DeliveryClearsTheFlag(s: State, step: Step, t: Timer)
    requires Enabled(s, step.event) && Delivers(s, step.event, t)
    ensures !Flag(Next(s, step.event, step.owner, step.found, step.foundToo), t.number)
  {
  }

  /** A noted kill and the two seen flags do not stick: none stays set for more than two or three seconds. */
  lemma NotedFlagsDoNotStick(states: seq<State>, steps: seq<Step>, ticking: bool, number: nat) returns (k: nat)
    requires IsRun(states, steps) && Inv(states[0], ticking)
    requires Flag(states[0], number) && states[|steps|].now > states[0].now + Longest(number)
    ensures k <= |steps| && !Flag(states[k], number)
  {
    var i := PendingFinds(states[0].timers, number);
    var t := states[0].timers[i];
    k := TimersAreDelivered(states, steps, ticking, t);
    DeliveryClearsTheFlag(states[k], steps[k], t);
    k := k + 1;
  }

  // ---- The acting flag -------------------------------------------------------------------------

  /** The owner answers if it is asked to speak and a conversation is drawn. */
  predicate Answers(step: Step) {
    step.found && !step.owner.hibernating && !step.owner.star && !step.owner.dead
  }

  /** The step delivers a timer 2 and the kill noted in the meantime starts the next sentence at once. */
  ghost predicate Renews(s: State, step: Step) {
    && step.event.Expired? && step.event.index < |s.timers| && s.timers[step.event.index].number == 2
    && s.enemyKilled && Answers(step)
  }

  /** After a timer 2 the owner is acting exactly if a kill was noted and it can answer. */
  lemma TimerTwoRenewsIff(s: State, step: Step)
    requires Enabled(s, step.event) && step.event.Expired? && s.timers[step.event.index].number == 2
    ensures Next(s, step.event, step.owner, step.found, step.foundToo).acting <==> s.enemyKilled && Answers(step)
  {
  }

  /** The steps that leave an acting owner acting; a death cry needs no living owner. */
  ghost predicate ActingStays(s: State, step: Step)
    requires Enabled(s, step.event)
  {
    match step.event
    case Expired(i, _, _) => s.timers[i].number == 2 ==> Renews(s, step)
    case Killed(attacker) =>
      step.owner.hibernating || attacker == Nobody || (step.found && !step.owner.star)
    case _ => true
  }

  lemma ActingStaysIff(s: State, step: Step)
    requires Enabled(s, step.event) && s.acting
    ensures Next(s, step.event, step.owner, step.found, step.foundToo).acting <==> ActingStays(s, step)
  {
  }

  /** An owner that starts out acting is acting throughout exactly if every timer 2 renews and every kill cries. */
  lemma {:induction false} ActingThroughoutIff(states: seq<State>, steps: seq<Step>)
    requires IsRun(states, steps) && states[0].acting
    ensures (forall k :: 0 <= k < |states| ==> states[k].acting)
       <==> (forall k :: 0 <= k < |steps| ==> ActingStays(states[k], steps[k]))
  {
    hide Next, ActingStays;
    if k: nat :| k < |states| && !states[k].acting {
      var j := 0;
      while states[j + 1].acting
        invariant j < k && states[j].acting
        decreases k - j
      {
        j := j + 1;
      }
      ActingStaysIff(states[j], steps[j]);
    } else {
      forall k | 0 <= k < |steps| ensures ActingStays(states[k], steps[k]) {
        assert states[k].acting && states[k + 1].acting;
        ActingStaysIff(states[k], steps[k]);
      }
    }
  }

  /** The acting flag is cleared within two seconds, unless in that time a noted kill renews it. */
  lemma ActingEndsOrIsRenewed(states: seq<State>, steps: seq<Step>, ticking: bool) returns (k: nat)
    requires IsRun(states, steps) && Inv(states[0], ticking)
    requires states[0].acting && states[|steps|].now > states[0].now + 2.0
    ensures k <= |steps| && (!states[k].acting || (k < |steps| && Renews(states[k], steps[k])))
  {
    var i := PendingFinds(states[0].timers, 2);
    var t := states[0].timers[i];
    k := TimersAreDelivered(states, steps, ticking, t);
    TimerTwoRenewsIff(states[k], steps[k]);
    if !Renews(states[k], steps[k]) {
      k := k + 1;
    }
  }

  const AWAKE := Owner(false, false, false)

  /** Speaking, with both timers due in two seconds. */
  ghost predicate Speaking(s: State) {
    && s.acting && !s.enemyKilled && !s.sawFriend && s.lastState == Idle
    && s.timers == [Timer(1, s.now + 2.0), Timer(2, s.now + 2.0)]
  }

  lemma RunPrepended(s: State, step: Step, states: seq<State>, steps: seq<Step>)
    requires IsRun(states, steps) && Enabled(s, step.event)
    requires states[0] == Next(s, step.event, step.owner, step.found, step.foundToo)
    ensures IsRun([s] + states, [step] + steps)
  {
    hide Next, Enabled;
    var longer, more := [s] + states, [step] + steps;
    forall k | 0 <= k < |more|
      ensures Enabled(longer[k], more[k].event)
      ensures longer[k + 1] == Next(longer[k], more[k].event, more[k].owner, more[k].found, more[k].foundToo)
    {
      if k > 0 {
        assert longer[k] == states[k - 1] && more[k] == steps[k - 1] && longer[k + 1] == states[k - 1 + 1];
      }
    }
  }

  const KILL := Step(Custom(CUSTOM_EVENT_KILLED_ENEMY), AWAKE, true, true)
  const HIT := Step(Custom(CUSTOM_EVENT_DAMAGED_ENEMY), AWAKE, true, true)
  const TICK := Step(Expired(0, Idle, false), AWAKE, true, true)

  function Wait(until: real): Step {
    Step(Passes(until), AWAKE, true, true)
  }

  ghost predicate Leads(s: State, step: Step, s': State) {
    Enabled(s, step.event) && s' == Next(s, step.event, step.owner, step.found, step.foundToo)
  }

  /** Timer 1 comes first; nothing is to be said. */
  lemma FirstTick(s: State) returns (ticked: State)
    requires s.timers == [Timer(1, s.now), Timer(2, s.now)] && s.lastState == Idle
    ensures Leads(s, TICK, ticked) && ticked == s.(timers := [Timer(2, s.now), Timer(1, s.now + 2.0)])
  {
    ticked := s.(timers := [Timer(2, s.now), Timer(1, s.now + 2.0)]);
    assert s.timers[..0] + s.timers[1..] == [Timer(2, s.now)];
  }

  /** Timer 2 comes next, and a noted kill starts a sentence. */
  lemma SecondTick(s: State) returns (again: State)
    requires s.timers == [Timer(2, s.now), Timer(1, s.now + 2.0)]
    requires s.enemyKilled && !s.sawFriend && s.lastState == Idle
    ensures Leads(s, TICK, again) && Speaking(again) && again.now == s.now
  {
    again := s.(acting := true, enemyKilled := false, sounds := s.sounds + [Sound(KilledEnemy, s.now)],
                timers := [Timer(1, s.now + 2.0), Timer(2, s.now + 2.0)]);
    assert s.timers[..0] + s.timers[1..] == [Timer(1, s.now + 2.0)];
  }

  /** A kill is noted, two seconds pass, timer 1 ticks, and timer 2 starts the next sentence. */
  lemma KillRound(s: State) returns (noted: State, later: State, ticked: State, again: State)
    requires Speaking(s)
    ensures Leads(s, KILL, noted) && Leads(noted, Wait(s.now + 2.0), later)
    ensures Leads(later, TICK, ticked) && Leads(ticked, TICK, again)
    ensures noted.acting && later.acting && ticked.acting && Speaking(again) && again.now == s.now + 2.0
  {
    hide TimerExpired, Act;
    noted := s.(enemyKilled := true);
    later := noted.(now := s.now + 2.0);
    ticked := FirstTick(later);
    again := SecondTick(ticked);
  }

  /** One kill every two seconds keeps the flag set for as long as anybody likes. */
  lemma {:induction false} KillsKeepActing(s: State, rounds: nat) returns (states: seq<State>, steps: seq<Step>)
    requires Speaking(s)
    ensures IsRun(states, steps) && states[0] == s
    ensures forall k :: 0 <= k < |states| ==> states[k].acting
    ensures states[|steps|].now == s.now + 2.0 * rounds as real
    decreases rounds
  {
    hide Next, Enabled;
    states, steps := [s], [];
    if rounds > 0 {
      var noted, later, ticked, again := KillRound(s);
      states, steps := KillsKeepActing(again, rounds - 1);
      hide IsRun;
      RunPrepended(ticked, TICK, states, steps);
      RunPrepended(later, TICK, [ticked] + states, [TICK] + steps);
      RunPrepended(noted, Wait(s.now + 2.0), [later] + ([ticked] + states), [TICK] + ([TICK] + steps));
      states, steps := [later] + ([ticked] + states), [TICK] + ([TICK] + steps);
      RunPrepended(s, KILL, [noted] + states, [Wait(s.now + 2.0)] + steps);
      states, steps := [s] + ([noted] + states), [KILL] + ([Wait(s.now + 2.0)] + steps);
    }
  }

  lemma FirstSentence(now: real) returns (later: State, ticked: State, speaking: State)
    ensures Leads(Created(false, Idle, now), Wait(now + 1.0), later)
    ensures Leads(later, TICK, ticked) && Leads(ticked, HIT, speaking) && Speaking(speaking)
  {
    later := Created(false, Idle, now).(now := now + 1.0);
    ticked := later.(timers := [Timer(1, later.now + 2.0)]);
    speaking := ticked.(acting := true, sounds := [Sound(DamageEnemy, later.now)],
                        timers := [Timer(1, later.now + 2.0), Timer(2, later.now + 2.0)]);
  }

  /** A run from the start to such a state: the acting flag can stay set for ever. */
  lemma ActingCanStick(now: real, rounds: nat) returns (states: seq<State>, steps: seq<Step>)
    ensures IsRun(states, steps) && |states| > 3 && states[0] == Created(false, Idle, now)
    ensures forall k :: 3 <= k < |states| ==> states[k].acting
    ensures states[|steps|].now == states[3].now + 2.0 * rounds as real
  {
    hide Next, Enabled, Created;
    var later, ticked, speaking := FirstSentence(now);
    var s := Created(false, Idle, now);
    states, steps := KillsKeepActing(speaking, rounds);
    RunPrepended(ticked, HIT, states, steps);
    RunPrepended(later, TICK, [ticked] + states, [HIT] + steps);
    RunPrepended(s, Wait(now + 1.0), [later] + ([ticked] + states), [TICK] + ([HIT] + steps));
    states, steps := [s] + ([later] + ([ticked] + states)), [Wait(now + 1.0)] + ([TICK] + ([HIT] + steps));
  }

  // ---- One sentence at a time ------------------------------------------------------------------

  ghost predicate Spaced(sounds: seq<Sound>, now: real) {
    && (forall i, j :: 0 <= i < j < |sounds| ==> sounds[i].at + 2.0 <= sounds[j].at)
    && (forall i :: 0 <= i < |sounds| ==> sounds[i].at <= now)
  }

  predicate Over(sounds: seq<Sound>, at: real) {
    sounds != [] ==> sounds[|sounds| - 1].at + 2.0 <= at
  }

  /** While a sentence is being spoken the one timer 2 marks its end. */
  ghost predicate OneAtATime(s: State) {
    && Spaced(s.sounds, s.now)
    && Pending(s.timers, 2) == (if s.acting then 1 else 0)
    && (forall i :: 0 <= i < |s.timers| && s.timers[i].number == 2 ==> Over(s.sounds, s.timers[i].due))
    && (s.acting || Over(s.sounds, s.now))
  }

  lemma StartedCounts(timers: seq<Timer>, now: real, duration: real, number: nat)
    ensures Pending(Started(timers, now, duration, number), 2) == Pending(timers, 2) + if number == 2 then 1 else 0
  {
    PendingAppend(timers, Timer(number, now + duration), 2);
  }

  lemma {:induction false} NonePending(timers: seq<Timer>, number: nat, i: nat)
    requires Pending(timers, number) == 0 && i < |timers|
    ensures timers[i].number != number
    decreases |timers|
  {
    var rest := timers[..|timers| - 1];
    if i < |rest| {
      NonePending(rest, number, i);
      assert rest[i] == timers[i];
    }
  }

  /** Starting a timer other than 2 leaves the rule as it is. */
  lemma OtherTimerSpeaksAlone(s: State, duration: real, number: nat)
    requires OneAtATime(s) && number != 2
    ensures OneAtATime(WithTimer(s, duration, number))
  {
    hide Pending, Spaced;
    StartedCounts(s.timers, s.now, duration, number);
  }

  /** A sentence that starts in silence brings its timer 2 with it. */
  lemma SentenceSpeaksAlone(s: State, kind: DialogueType)
    requires OneAtATime(s) && !s.acting
    ensures OneAtATime(WithTimer(s.(acting := true, sounds := s.sounds + [Sound(kind, s.now)]), 2.0, 2))
  {
    hide Pending;
    forall i | 0 <= i < |s.timers| ensures s.timers[i].number != 2 {
      NonePending(s.timers, 2, i);
    }
    StartedCounts(s.timers, s.now, 2.0, 2);
  }

  lemma ActSpeaksAlone(s: State, o: Owner, kind: DialogueType, found: bool)
    requires OneAtATime(s)
    ensures OneAtATime(Act(s, o, kind, found))
  {
    if !s.acting {
      FlagsSpeakAlone(s, kind);
      var seen :=
        if kind == SawFriend then WithTimer(s.(sawFriend := true), 3.0, 4)
        else if kind == SawEnemy then WithTimer(s.(sawEnemy := true), 3.0, 3)
        else s;
      hide OneAtATime, WithTimer;
      SentenceSpeaksAlone(seen, kind);
    }
  }

  lemma FlagsSpeakAlone(s: State, kind: DialogueType)
    requires OneAtATime(s)
    ensures kind == SawFriend ==> OneAtATime(WithTimer(s.(sawFriend := true), 3.0, 4))
    ensures kind == SawEnemy ==> OneAtATime(WithTimer(s.(sawEnemy := true), 3.0, 3))
  {
    assert OneAtATime(s.(sawFriend := true)) && OneAtATime(s.(sawEnemy := true));
    OtherTimerSpeaksAlone(s.(sawFriend := true), 3.0, 4);
    OtherTimerSpeaksAlone(s.(sawEnemy := true), 3.0, 3);
  }

  lemma FirstTimerSpeaksAlone(s: State, o: Owner, current: AiState, friendVisible: bool, found: bool, foundToo: bool)
    requires OneAtATime(s)
    ensures OneAtATime(FirstTimer(s, o, current, friendVisible, found, foundToo))
  {
    hide Pending, Act, Spaced;
    var kind := Transition(s.lastState, current);
    var moved := s.(lastState := current);
    if kind.Some? {
      ActSpeaksAlone(moved, o, kind.value, found);
    }
    var changed := StateChanged(s, o, current, found);
    ActSpeaksAlone(changed, o, SawFriend, foundToo);
    var looked :=
      if !o.hibernating && !changed.sawFriend && friendVisible then Act(changed, o, SawFriend, foundToo) else changed;
    StartedCounts(looked.timers, looked.now, 2.0, 1);
  }

  lemma ExpiredSpeaksAlone(s: State, i: nat, o: Owner, current: AiState, friendVisible: bool,
                           found: bool, foundToo: bool)
    requires OneAtATime(s) && i < |s.timers| && s.timers[i].due <= s.now
    ensures OneAtATime(TimerExpired(WithoutTimer(s, i), o, s.timers[i].number, current, friendVisible, found, foundToo))
  {
    hide Pending, Act, FirstTimer, Spaced;
    var number, left := s.timers[i].number, WithoutTimer(s, i);
    PendingRemove(s.timers, i, 2);
    if number == 2 {
      var quiet := left.(acting := false);
      assert OneAtATime(quiet);
      ActSpeaksAlone(quiet, o, KilledEnemy, found);
    } else {
      assert OneAtATime(left);
      if number == 1 {
        FirstTimerSpeaksAlone(left, o, current, friendVisible, found, foundToo);
      }
    }
  }

  /** Unless the owner is killed, two sentences are never less than two seconds apart. */
  lemma NextSpeaksAlone(s: State, e: Event, o: Owner, found: bool, foundToo: bool)
    requires OneAtATime(s) && Enabled(s, e) && !e.Killed?
    ensures OneAtATime(Next(s, e, o, found, foundToo))
  {
    hide Pending, Act, TimerExpired;
    if e.Expired? {
      ExpiredSpeaksAlone(s, e.index, o, e.current, e.friendVisible, found, foundToo);
    } else {
      forall kind ensures OneAtATime(Act(s, o, kind, found)) {
        ActSpeaksAlone(s, o, kind, found);
      }
    }
  }

  lemma CreatedSpeaksAlone(star: bool, current: AiState, now: real)
    ensures OneAtATime(Created(star, current, now))
  {
    StartedCounts([], now, 1.0, 1);
  }

  /** A kill by somebody of an owner that is acting and awake: Killed clears the flag to make room for the cry. */
  predicate Interrupts(s: State, step: Step) {
    step.event.Killed? && !step.owner.hibernating && step.event.attacker != Nobody && s.acting
  }

  /**
   * Exactly these kills break the rule that a timer 2 marks the end of the one sentence; a kill by nobody, in
   * hibernation or in silence does not. Whether the sentences overlap as well, KillOverlapsIff says.
   */
  lemma KillSpeaksAloneIff(s: State, step: Step)
    requires OneAtATime(s) && step.event.Killed?
    ensures OneAtATime(Next(s, step.event, step.owner, step.found, step.foundToo)) <==> !Interrupts(s, step)
  {
    hide Pending;
    var o := step.owner;
    if Interrupts(s, step) {
      var quiet := s.(acting := false);
      StartedCounts(s.timers, s.now, 2.0, 2);
    } else if !o.hibernating && step.event.attacker != Nobody {
      assert s.(acting := false) == s;
      ActSpeaksAlone(s, o, Die, step.found);
    }
  }

  /** The death cry itself comes too early exactly if it interrupts a sentence that is not over. */
  lemma KillOverlapsIff(s: State, step: Step)
    requires OneAtATime(s) && step.event.Killed?
    ensures var after := Next(s, step.event, step.owner, step.found, step.foundToo);
      !Spaced(after.sounds, after.now)
      <==> Interrupts(s, step) && step.found && !step.owner.star && !Over(s.sounds, s.now)
  {
    hide Pending;
    var n := |s.sounds|;
    if n > 0 {
      assert forall i :: 0 <= i < n ==> s.sounds[i].at <= s.sounds[n - 1].at;
    }
    var after := Next(s, step.event, step.owner, step.found, step.foundToo);
    if Interrupts(s, step) && step.found && !step.owner.star && !Over(s.sounds, s.now) {
      assert after.sounds[n - 1].at + 2.0 > after.sounds[n].at;
    }
  }

  /** Two sentences are never less than two seconds apart, as long as no kill interrupts one. */
  lemma {:induction false} NobodyTalksOverHimself(states: seq<State>, steps: seq<Step>, star: bool,
                                                  current: AiState, k: nat)
    requires IsRun(states, steps) && k < |states|
    requires states[0] == Created(star, current, states[0].now)
    requires forall i :: 0 <= i < k ==> !Interrupts(states[i], steps[i])
    ensures OneAtATime(states[k])
  {
    hide OneAtATime, Next, Enabled, Created;
    if k == 0 {
      CreatedSpeaksAlone(star, current, states[0].now);
    } else {
      NobodyTalksOverHimself(states, steps, star, current, k - 1);
      var step := steps[k - 1];
      if step.event.Killed? {
        KillSpeaksAloneIff(states[k - 1], step);
      } else {
        NextSpeaksAlone(states[k - 1], step.event, step.owner, step.found, step.foundToo);
      }
    }
  }

  /** In a whole run the rule holds throughout exactly if no kill interrupts a sentence. */
  lemma OneAtATimeIff(states: seq<State>, steps: seq<Step>, star: bool, current: AiState)
    requires IsRun(states, steps) && states[0] == Created(star, current, states[0].now)
    ensures (forall k :: 0 <= k < |states| ==> OneAtATime(states[k]))
       <==> (forall k :: 0 <= k < |steps| ==> !Interrupts(states[k], steps[k]))
  {
    hide OneAtATime, Next, Enabled, Created, Interrupts;
    if k: nat :| k < |steps| && Interrupts(states[k], steps[k]) {
      OnlyKillsInterrupt(states[k], steps[k]);
      if OneAtATime(states[k]) {
        KillSpeaksAloneIff(states[k], steps[k]);
        assert !OneAtATime(states[k + 1]);
      }
    } else {
      forall k | 0 <= k < |states| ensures OneAtATime(states[k]) {
        NobodyTalksOverHimself(states, steps, star, current, k);
      }
    }
  }

  lemma OnlyKillsInterrupt(s: State, step: Step)
    requires Interrupts(s, step)
    ensures step.event.Killed?
  {
  }

  /** At the first interruption the sentences overlap exactly if there is a cry before the old one is over. */
  lemma FirstInterruption(states: seq<State>, steps: seq<Step>, star: bool, current: AiState, k: nat)
    requires IsRun(states, steps) && k < |steps|
    requires states[0] == Created(star, current, states[0].now)
    requires (forall i :: 0 <= i < k ==> !Interrupts(states[i], steps[i])) && Interrupts(states[k], steps[k])
    ensures !OneAtATime(states[k + 1])
    ensures !Spaced(states[k + 1].sounds, states[k + 1].now)
       <==> steps[k].found && !steps[k].owner.star && !Over(states[k].sounds, states[k].now)
  {
    hide OneAtATime, Next, Enabled, Created, Spaced, Over;
    NobodyTalksOverHimself(states, steps, star, current, k);
    KillSpeaksAloneIff(states[k], steps[k]);
    KillOverlapsIff(states[k], steps[k]);
  }

  /** A killed owner does cut its own sentence short with its death cry. */
  lemma DeathCryInterrupts(now: real, current: AiState)
    ensures var awake := Owner(false, false, false);
      var speaking := Next(Created(false, current, now), Custom(CUSTOM_EVENT_DAMAGED_ENEMY), awake, true, true);
      var dying := Next(speaking, Killed(Enemy), awake, true, true);
      dying.sounds == [Sound(DamageEnemy, now), Sound(Die, now)] && !OneAtATime(dying)
  {
    var awake := Owner(false, false, false);
    var speaking := Next(Created(false, current, now), Custom(CUSTOM_EVENT_DAMAGED_ENEMY), awake, true, true);
    var dying := Next(speaking, Killed(Enemy), awake, true, true);
    assert dying.sounds[0].at + 2.0 > dying.sounds[1].at;
  }
}

/** AI_Dialogue_Script of ConversationControl.cpp. */
module Dialogues {
  import opened Options
  import opened DialogueSpec

  class AiDialogue {
    var acting: bool
    var lastState: AiState
    var sawEnemy: bool
    var sawFriend: bool
    var enemyKilled: bool

    /** What the script has asked of the engine: pending timers and sounds; and the engine's clock. */
    var timers: seq<Timer>
    var sounds: seq<Sound>
    var now: real

    ghost function Now(): State
      reads this
    {
      State(acting, lastState, sawEnemy, sawFriend, enemyKilled, timers, now, sounds)
    }

    /** Created, for an owner that is a soldier; on any other object the script destroys itself. */
    constructor (star: bool, current: AiState, clock: real)
      ensures Now() == Created(star, current, clock) && Inv(Now(), !star)
    {
      acting, lastState, sawEnemy, sawFriend, enemyKilled := false, current, false, false, false;
      timers, sounds, now := [], [], clock;
      new;
      if !star {
        StartTimer(1.0, 1);
      }
      CreatedIsSound(star, current, clock);
    }

    method StartTimer(duration: real, number: nat)
      modifies this`timers
      ensures Now() == WithTimer(old(Now()), duration, number)
    {
      timers := timers + [Timer(number, now + duration)];
    }

    method Speak(o: Owner, kind: DialogueType, found: bool)
      modifies this
      ensures Now() == Act(old(Now()), o, kind, found) && lastState == old(lastState)
    {
      if o.hibernating || acting || o.star {
        return;
      }
      if o.dead && kind != Die {
        return;
      }
      if kind == SawFriend {
        sawFriend := true;
        StartTimer(3.0, 4);
      } else if kind == SawEnemy {
        sawEnemy := true;
        StartTimer(3.0, 3);
      }
      if !found {
        return;
      }
      acting := true;
      sounds := sounds + [Sound(kind, now)];
      StartTimer(2.0, 2);
    }

    method OnStateChanged(o: Owner, to: AiState, found: bool)
      modifies this
      ensures Now() == StateChanged(old(Now()), o, to, found) && lastState == to
    {
      hide Act;
      var from := lastState;
      if from != to {
        lastState := to;
        if !o.hibernating {
          if from == Idle && to == Combat {
            Speak(o, IdleToCombat, found);
          } else if from == Idle && to == Search {
            Speak(o, IdleToSearch, found);
          } else if from == Search && to == Combat {
            Speak(o, SearchToCombat, found);
          } else if from == Search && to == Idle {
            Speak(o, SearchToIdle, found);
          } else if from == Combat && to == Search {
            Speak(o, CombatToSearch, found);
          } else if from == Combat && to == Idle {
            Speak(o, CombatToIdle, found);
          }
        }
      }
    }

    /** Timer_Expired, after the engine has taken the timer off its list; `stars` says who is a visible friend. */
    method OnTimerExpired(o: Owner, number: nat, current: AiState, stars: seq<bool>, found: bool, foundToo: bool)
      modifies this
      ensures Now() == TimerExpired(old(Now()), o, number, current, true in stars, found, foundToo)
      ensures lastState == if number == 1 then current else old(lastState)
    {
      hide Act, StateChanged;
      if number == 1 {
        OnStateChanged(o, current, found);
        if !o.hibernating && !sawFriend {
          ghost var before := Now();
          var i := 0;
          while i < |stars|
            invariant i <= |stars| && true !in stars[..i] && Now() == before
          {
            if stars[i] {
              Speak(o, SawFriend, foundToo);
              break;
            }
            i := i + 1;
          }
          assert i == |stars| ==> stars[..i] == stars;
        }
        StartTimer(2.0, 1);
      } else if number == 2 {
        acting := false;
        if enemyKilled {
          Speak(o, KilledEnemy, found);
          enemyKilled := false;
        }
      } else if number == 3 {
        sawEnemy := false;
      } else if number == 4 {
        sawFriend := false;
      }
    }

    lemma EventKeepsInv(e: Event, o: Owner, found: bool)
      requires Enabled(Now(), e)
      ensures forall ticking :: Inv(Now(), ticking) ==> Inv(Next(Now(), e, o, found, false), ticking)
    {
      forall ticking | Inv(Now(), ticking) {
        NextKeepsInv(Now(), e, o, found, false, ticking);
      }
    }

    method OnCustom(o: Owner, kind: int, found: bool)
      modifies this
      ensures forall ticking :: old(Inv(Now(), ticking)) ==> Inv(Now(), ticking)
      ensures Now() == CustomEvent(old(Now()), o, kind, found)
    {
      hide Act, Inv;
      EventKeepsInv(Custom(kind), o, found);
      if kind == CUSTOM_EVENT_DAMAGED_ENEMY {
        Speak(o, DamageEnemy, found);
      } else if kind == CUSTOM_EVENT_DAMAGED_FRIEND {
        Speak(o, DamageFriend, found);
      } else if kind == CUSTOM_EVENT_KILLED_ENEMY {
        if !acting {
          Speak(o, KilledEnemy, found);
        } else {
          enemyKilled := true;
        }
      } else if kind == CUSTOM_EVENT_KILLED_FRIEND {
        Speak(o, KilledFriend, found);
      }
    }

    /** Also returns the custom event sent to the damager, if any. */
    method OnDamaged(o: Owner, damager: Party, amount: real, hitpoints: real, found: bool) returns (sent: Option<int>)
      modifies this
      ensures forall ticking :: old(Inv(Now(), ticking)) ==> Inv(Now(), ticking)
      ensures Now() == DamagedBy(old(Now()), o, damager, amount, hitpoints, found)
      ensures sent.Some? <==> !o.hibernating && damager != Nobody && 0.0 < amount < hitpoints
      ensures sent.Some? ==>
        sent.value == if damager == Enemy then CUSTOM_EVENT_DAMAGED_ENEMY else CUSTOM_EVENT_DAMAGED_FRIEND
    {
      hide Act, Inv;
      EventKeepsInv(Damaged(damager, amount, hitpoints), o, found);
      if o.hibernating || damager == Nobody || amount <= 0.0 || amount >= hitpoints {
        return None;
      }
      if damager == Enemy {
        Speak(o, TakeDamageFromEnemy, found);
        sent := Some(CUSTOM_EVENT_DAMAGED_ENEMY);
      } else {
        Speak(o, TakeDamageFromFriend, found);
        sent := Some(CUSTOM_EVENT_DAMAGED_FRIEND);
      }
    }

    method OnKilled(o: Owner, killer: Party, found: bool) returns (sent: Option<int>)
      modifies this
      ensures forall ticking :: old(Inv(Now(), ticking)) ==> Inv(Now(), ticking)
      ensures Now() == KilledBy(old(Now()), o, killer, found)
      ensures sent.Some? <==> !o.hibernating && killer != Nobody
      ensures sent.Some? ==>
        sent.value == if killer == Enemy then CUSTOM_EVENT_KILLED_ENEMY else CUSTOM_EVENT_KILLED_FRIEND
    {
      hide Act, Inv;
      EventKeepsInv(Killed(killer), o, found);
      if o.hibernating || killer == Nobody {
        return None;
      }
      sent := Some(if killer == Enemy then CUSTOM_EVENT_KILLED_ENEMY else CUSTOM_EVENT_KILLED_FRIEND);
      acting := false;
      Speak(o, Die, found);
    }

    method OnPoked(o: Owner, found: bool)
      modifies this
      ensures forall ticking :: old(Inv(Now(), ticking)) ==> Inv(Now(), ticking)
      ensures Now() == PokedNow(old(Now()), o, found)
    {
      hide Act, Inv;
      EventKeepsInv(Poked, o, found);
      if o.hibernating {
        return;
      }
      if lastState == Idle {
        Speak(o, PokeIdle, found);
      } else if lastState == Search {
        Speak(o, PokeSearch, found);
      } else if lastState == Combat {
        Speak(o, PokeCombat, found);
      }
    }

    method OnEnemySeen(o: Owner, found: bool)
      modifies this
      ensures forall ticking :: old(Inv(Now(), ticking)) ==> Inv(Now(), ticking)
      ensures Now() == Next(old(Now()), EnemySeen, o, found, false)
    {
      hide Act, Inv;
      EventKeepsInv(EnemySeen, o, found);
      if !o.hibernating && !sawEnemy {
        Speak(o, SawEnemy, found);
      }
    }

    /** The engine delivers a due timer; whatever the sentence drawn, the script stays sound. */
    method Deliver(i: nat, o: Owner, current: AiState, stars: seq<bool>, found: bool, foundToo: bool,
                   ghost ticking: bool)
      requires Inv(Now(), ticking) && i < |timers| && timers[i].due <= now
      modifies this
      ensures Now() == Next(old(Now()), Expired(i, current, true in stars), o, found, foundToo)
      ensures Inv(Now(), ticking)
    {
      hide Inv, TimerExpired;
      NextKeepsInv(Now(), Expired(i, current, true in stars), o, found, foundToo, ticking);
      var number := timers[i].number;
      timers := timers[..i] + timers[i + 1..];
      OnTimerExpired(o, number, current, stars, found, foundToo);
    }
  }
}
