/**
 Hook execution of event_hooks.c as an interleaving of steps: calls of
 hook_manager_execute, the threads they start, calls of hook_manager_wait, and the calls
 that register, remove, switch and reset hooks, over the mutexes, the counter of active
 executions and the statistics of the hooks. A condition wait may end at any time the mutex
 is free, which includes every real wake-up.
 */
module EventHooks {
  import opened Common

  datatype Result = Success | Timeout | Error

  datatype Stats = Stats(executions: nat, successes: nat, timeouts: nat, failures: nat)

  const NO_STATS := Stats(0, 0, 0, 0)

  /** A slot. own is kept for the statements only: what the statistics would be if only
      executions begun for the hook now in the slot were counted. */
  datatype Hook = Hook(
    inUse: bool, enabled: bool, asynchronous: bool, id: nat,
    stats: Stats, statsOwner: Option<nat>, own: Stats)

  /** How far an execution is with its script and with its statistics. */
  datatype Phase = Script | Held(result: Result) | Told(result: Result) | Graded

  /** Where a thread is. i is a hook slot, x the number of an execution, h the id of the hook
      it was begun for; inCall tells an execution inside hook_manager_execute from one in its
      own thread. */
  datatype Pc =
    | Scanning(i: nat)                       // about to look at slot i
    | Limiting(i: nat)                       // wants exec_mutex to test the limit
    | Testing(i: nat)                        // has exec_mutex
    | Sleeping(i: nat)                       // waits for an execution to end
    | Launching(i: nat, x: nat, h: nat)      // counted, about to start
    | Running(i: nat, x: nat, h: nat, inCall: bool, phase: Phase)
    | Ending(i: nat, x: nat, inCall: bool)   // wants exec_mutex to count down
    | Dropping(i: nat, x: nat, inCall: bool) // has exec_mutex
    | Awaiting                               // hook_manager_wait, wants exec_mutex
    | Examining                              // has exec_mutex
    | Dozing                                 // waits for an execution to end

  /** begun, ended and runner are kept for the statements only: the executions begun, those
      counted down, and the thread of each one in flight. */
  datatype State = State(
    hooks: seq<Hook>, nextId: nat, limit: nat, active: int,
    threads: map<nat, Pc>, hooksOwner: Option<nat>, execOwner: Option<nat>,
    begun: nat, ended: set<nat>, runner: map<nat, nat>)

  /** The statistics of one execution: lock, two counters, unlock. */
  datatype StatAct = LockStats(result: Result) | CountExecution | CountOutcome | UnlockStats

  /** Calls on one slot, all under hooks_mutex. Registering clears the slot first, its mutex
      included and without holding it, and frees it again when the condition is unusable. */
  datatype SlotAct =
    | Register(enabled: bool, asynchronous: bool, usable: bool)
    | Unregister
    | SetEnabled(on: bool)
    | ResetStats

  datatype Step =
    | Enter(t: nat) | Skip(t: nat) | Select(t: nat) | Leave(t: nat)
    | LockLimit(t: nat) | Sleep(t: nat) | Admit(t: nat)
    | Spawn(t: nat, child: nat) | SpawnFails(t: nat) | RunHere(t: nat)
    | Stat(t: nat, part: StatAct) | LockDrop(t: nat) | Drop(t: nat)
    | Wait(t: nat) | Examine(t: nat) | Doze(t: nat) | Return(t: nat)
    | Manage(slot: nat, act: SlotAct)

  predicate InFlight(p: Pc) {
    p.Launching? || p.Running? || p.Ending? || p.Dropping?
  }

  predicate HasExec(p: Pc) {
    p.Testing? || p.Dropping? || p.Examining?
  }

  predicate HasHooks(p: Pc) {
    match p
    case Scanning(_) | Limiting(_) | Testing(_) | Sleeping(_) | Launching(_, _, _) => true
    case Running(_, _, _, inCall, _) => inCall
    case Ending(_, _, inCall) => inCall
    case Dropping(_, _, inCall) => inCall
    case _ => false
  }

  // ----- one slot -----

  function Executed(s: Stats): Stats {
    s.(executions := s.executions + 1)
  }

  function Ended(s: Stats, r: Result): Stats {
    match r
    case Success => s.(successes := s.successes + 1)
    case Timeout => s.(timeouts := s.timeouts + 1)
    case Error => s.(failures := s.failures + 1)
  }

  predicate StatEnabled(h: Hook, phase: Phase, a: StatAct) {
    match a
    case LockStats(_) => phase.Script? && h.statsOwner.None?
    case CountExecution => phase.Held?
    case CountOutcome => phase.Told?
    case UnlockStats => phase.Graded?
  }

  /** The slot after thread t, at an execution begun for hook id, did its part. */
  function StatAfter(h: Hook, t: nat, id: nat, phase: Phase, a: StatAct): Hook
    requires StatEnabled(h, phase, a)
  {
    match a
    case LockStats(_) => h.(statsOwner := Some(t))
    case CountExecution => h.(stats := Executed(h.stats), own := if id == h.id then Executed(h.own) else h.own)
    case CountOutcome => h.(stats := Ended(h.stats, phase.result), own := if id == h.id then Ended(h.own, phase.result) else h.own)
    case UnlockStats => h.(statsOwner := None)
  }

  function PhaseAfter(phase: Phase, a: StatAct): Phase {
    match a
    case LockStats(r) => Held(r)
    case CountExecution => if phase.Held? then Told(phase.result) else phase
    case CountOutcome => Graded
    case UnlockStats => phase
  }

  predicate SlotEnabled(h: Hook, a: SlotAct) {
    match a
    case Register(_, _, _) => !h.inUse
    case Unregister => h.inUse
    case SetEnabled(_) => h.inUse
    case ResetStats => h.inUse && h.statsOwner.None?
  }

  function SlotAfter(h: Hook, a: SlotAct, id: nat): Hook {
    match a
    case Register(enabled, asynchronous, usable) => Hook(usable, enabled, asynchronous, id, NO_STATS, None, NO_STATS)
    case Unregister => h.(inUse := false)
    case SetEnabled(on) => h.(enabled := on)
    case ResetStats => h.(stats := NO_STATS, own := NO_STATS)
  }

  // ----- the steps -----

  predicate Enabled(s: State, e: Step) {
    if e.Manage? then s.hooksOwner.None? && e.slot < |s.hooks| && SlotEnabled(s.hooks[e.slot], e.act)
    else if e.Enter? then e.t !in s.threads && s.hooksOwner.None?
    else if e.Wait? then e.t !in s.threads
    else
      && e.t in s.threads
      && var p := s.threads[e.t];
         match e
         case Skip(_) => p.Scanning? && p.i < |s.hooks|
         case Select(_) => p.Scanning? && p.i < |s.hooks| && s.hooks[p.i].inUse && s.hooks[p.i].enabled
         case Leave(_) => p.Scanning? && p.i == |s.hooks|
         case LockLimit(_) => (p.Limiting? || p.Sleeping?) && s.execOwner.None?
         case Sleep(_) => p.Testing? && s.active >= s.limit
         case Admit(_) => p.Testing? && p.i < |s.hooks| && s.active < s.limit
         case Spawn(_, child) => p.Launching? && p.i < |s.hooks| && s.hooks[p.i].asynchronous && child !in s.threads
         case SpawnFails(_) => p.Launching? && p.i < |s.hooks| && s.hooks[p.i].asynchronous
         case RunHere(_) => p.Launching? && p.i < |s.hooks| && !s.hooks[p.i].asynchronous
         case Stat(_, a) => p.Running? && p.i < |s.hooks| && StatEnabled(s.hooks[p.i], p.phase, a)
         case LockDrop(_) => p.Ending? && s.execOwner.None?
         case Drop(_) => p.Dropping?
         case Examine(_) => (p.Awaiting? || p.Dozing?) && s.execOwner.None?
         case Doze(_) => p.Examining? && s.active > 0
         case Return(_) => p.Examining? && s.active <= 0
         case _ => false
  }

  function Goto(s: State, t: nat, p: Pc): State {
    s.(threads := s.threads[t := p])
  }

  function Next(s: State, e: Step): State
    requires Enabled(s, e)
  {
    match e
    case Enter(t) => Goto(s, t, Scanning(0)).(hooksOwner := Some(t))
    case Skip(t) => Goto(s, t, Scanning(s.threads[t].i + 1))
    case Select(t) => Goto(s, t, Limiting(s.threads[t].i))
    case Leave(t) => s.(threads := s.threads - {t}, hooksOwner := None)
    case LockLimit(t) => Goto(s, t, Testing(s.threads[t].i)).(execOwner := Some(t))
    case Sleep(t) => Goto(s, t, Sleeping(s.threads[t].i)).(execOwner := None)
    case Admit(t) =>
      var i := s.threads[t].i;
      Goto(s, t, Launching(i, s.begun, s.hooks[i].id)).(
        active := s.active + 1, execOwner := None, begun := s.begun + 1, runner := s.runner[s.begun := t])
    case Spawn(t, child) =>
      var p := s.threads[t];
      Goto(Goto(s, t, Scanning(p.i + 1)), child, Running(p.i, p.x, p.h, false, Script)).(runner := s.runner[p.x := child])
    case SpawnFails(t) => Goto(s, t, Ending(s.threads[t].i, s.threads[t].x, true))
    case RunHere(t) =>
      var p := s.threads[t];
      Goto(s, t, Running(p.i, p.x, p.h, true, Script))
    case Stat(t, a) =>
      var p := s.threads[t];
      var p' := if a.UnlockStats? then Ending(p.i, p.x, p.inCall) else p.(phase := PhaseAfter(p.phase, a));
      Goto(s, t, p').(hooks := s.hooks[p.i := StatAfter(s.hooks[p.i], t, p.h, p.phase, a)])
    case LockDrop(t) => Goto(s, t, Dropping(s.threads[t].i, s.threads[t].x, s.threads[t].inCall)).(execOwner := Some(t))
    case Drop(t) =>
      var p := s.threads[t];
      var s' := if p.inCall then Goto(s, t, Scanning(p.i + 1)) else s.(threads := s.threads - {t});
      s'.(active := s.active - 1, execOwner := None, ended := s.ended + {p.x}, runner := s.runner - {p.x})
    case Wait(t) => Goto(s, t, Awaiting)
    case Examine(t) => Goto(s, t, Examining).(execOwner := Some(t))
    case Doze(t) => Goto(s, t, Dozing).(execOwner := None)
    case Return(t) => s.(threads := s.threads - {t}, execOwner := None)
    case Manage(slot, a) =>
      s.(hooks := s.hooks[slot := SlotAfter(s.hooks[slot], a, s.nextId)],
         nextId := if a.Register? then s.nextId + 1 else s.nextId)
  }

  // ----- invariants -----

  /** The execution a thread is at. */
  function Flight(s: State, t: nat): Option<nat> {
    if t in s.threads && InFlight(s.threads[t]) then Some(s.threads[t].x) else None
  }

  predicate OwnsHooks(s: State, t: nat) {
    t in s.threads && HasHooks(s.threads[t])
  }

  predicate OwnsExec(s: State, t: nat) {
    t in s.threads && HasExec(s.threads[t])
  }

  /** The record has the one thread of each execution in flight. */
  ghost predicate Paired(s: State) {
    && (forall x :: x in s.runner ==> Flight(s, s.runner[x]) == Some(x))
    && (forall t: nat :: Flight(s, t).Some? ==> Flight(s, t).value in s.runner && s.runner[Flight(s, t).value] == t)
  }

  /** The executions begun are those counted down and those in flight, and the counter counts
      the latter. */
  ghost predicate Booked(s: State) {
    && s.runner.Keys !! s.ended
    && (forall x: nat :: x in s.runner || x in s.ended <==> x < s.begun)
    && s.active == |s.runner| <= s.limit
  }

  ghost predicate Tracked(s: State) {
    Paired(s) && Booked(s)
  }

  /** A mutex is with the thread whose place says so. */
  ghost predicate Locked(s: State) {
    && (forall t: nat :: OwnsHooks(s, t) <==> s.hooksOwner == Some(t))
    && (forall t: nat :: OwnsExec(s, t) <==> s.execOwner == Some(t))
  }

  ghost predicate InRange(s: State) {
    forall t :: t in s.threads ==>
      match s.threads[t]
      case Scanning(i) => i <= |s.hooks|
      case Limiting(i) => i < |s.hooks|
      case Testing(i) => i < |s.hooks|
      case Sleeping(i) => i < |s.hooks|
      case Launching(i, _, _) => i < |s.hooks|
      case Running(i, _, _, _, _) => i < |s.hooks|
      case Ending(i, _, _) => i < |s.hooks|
      case Dropping(i, _, _) => i < |s.hooks|
      case _ => true
  }

  /** Hook ids are given out once, and whoever has a stats_mutex is at its statistics. */
  ghost predicate Slotted(s: State) {
    forall i :: 0 <= i < |s.hooks| ==>
      && s.hooks[i].id < s.nextId
      && (s.hooks[i].statsOwner.Some? ==> AtStats(s, s.hooks[i].statsOwner.value, i))
  }

  /** The thread is at the statistics of slot i. */
  predicate AtStats(s: State, t: nat, i: nat) {
    t in s.threads && s.threads[t].Running? && s.threads[t].i == i && !s.threads[t].phase.Script?
  }

  /** Executions are begun for hooks that have been registered. */
  ghost predicate Tagged(s: State) {
    forall t :: t in s.threads && (s.threads[t].Launching? || s.threads[t].Running?) ==> s.threads[t].h < s.nextId
  }

  ghost predicate Inv(s: State) {
    Tracked(s) && Locked(s) && InRange(s) && Slotted(s) && Tagged(s)
  }

  /** How a step changes which execution a thread is at. */
  lemma FlightAfter(s: State, e: Step, t: nat)
    requires Enabled(s, e)
    ensures Flight(Next(s, e), t) ==
              if e.Admit? && e.t == t then Some(s.begun)
              else if e.Spawn? && e.child == t then Flight(s, e.t)
              else if (e.Spawn? || e.Drop?) && e.t == t then None
              else Flight(s, t)
  {
  }

  lemma BooksAfter(s: State, e: Step)
    requires Enabled(s, e)
    ensures var s' := Next(s, e);
            && s'.limit == s.limit
            && s'.begun == s.begun + (if e.Admit? then 1 else 0)
            && s'.active == s.active + (if e.Admit? then 1 else if e.Drop? then -1 else 0)
            && (e.Admit? ==> s.active < s.limit)
            && (e.Drop? || e.Spawn? ==> Flight(s, e.t).Some?)
            && s'.ended == (if e.Drop? then s.ended + {Flight(s, e.t).value} else s.ended)
            && s'.runner ==
               (if e.Admit? then s.runner[s.begun := e.t]
                else if e.Spawn? then s.runner[Flight(s, e.t).value := e.child]
                else if e.Drop? then s.runner - {Flight(s, e.t).value}
                else s.runner)
            && (e.Admit? ==> Flight(s, e.t).None?)
            && (e.Spawn? ==> Flight(s, e.child).None?)
  {
  }

  lemma PairedKept(s: State, e: Step)
    requires Tracked(s) && Enabled(s, e)
    ensures Paired(Next(s, e))
  {
    hide Next, Enabled, Flight;
    BooksAfter(s, e);
    var s' := Next(s, e);
    forall x | x in s'.runner ensures Flight(s', s'.runner[x]) == Some(x) {
      FlightAfter(s, e, s'.runner[x]);
    }
    forall t: nat | Flight(s', t).Some? ensures Flight(s', t).value in s'.runner && s'.runner[Flight(s', t).value] == t {
      FlightAfter(s, e, t);
    }
  }

  lemma BookedKept(s: State, e: Step)
    requires Tracked(s) && Enabled(s, e)
    ensures Booked(Next(s, e))
  {
    hide Next, Enabled, Flight;
    BooksAfter(s, e);
    RunnerSize(s, e);
  }

  lemma TrackedKept(s: State, e: Step)
    requires Tracked(s) && Enabled(s, e)
    ensures Tracked(Next(s, e))
  {
    PairedKept(s, e);
    BookedKept(s, e);
  }

  lemma RunnerSize(s: State, e: Step)
    requires Tracked(s) && Enabled(s, e)
    ensures |Next(s, e).runner| == |s.runner| + if e.Admit? then 1 else if e.Drop? then -1 else 0
  {
    hide Next, Enabled, Flight;
    BooksAfter(s, e);
    var r, r' := s.runner, Next(s, e).runner;
    assert |r| == |r.Keys| && |r'| == |r'.Keys|;
    if e.Drop? {
      assert r'.Keys == r.Keys - {Flight(s, e.t).value};
    } else if e.Admit? {
      assert r'.Keys == r.Keys + {s.begun};
    } else {
      assert r'.Keys == r.Keys;
    }
  }

  predicate TakesExec(e: Step) {
    e.LockLimit? || e.LockDrop? || e.Examine?
  }

  predicate FreesExec(e: Step) {
    e.Sleep? || e.Admit? || e.Drop? || e.Doze? || e.Return?
  }

  lemma HooksAfter(s: State, e: Step, t: nat)
    requires Enabled(s, e)
    ensures OwnsHooks(Next(s, e), t) <==> (if e.Enter? && e.t == t then true else if e.Leave? && e.t == t then false else OwnsHooks(s, t))
  {
  }

  lemma ExecAfter(s: State, e: Step, t: nat)
    requires Enabled(s, e)
    ensures OwnsExec(Next(s, e), t) <==> (if TakesExec(e) && e.t == t then true else if FreesExec(e) && e.t == t then false else OwnsExec(s, t))
  {
  }

  lemma OwnersAfter(s: State, e: Step)
    requires Enabled(s, e)
    ensures var s' := Next(s, e);
            && s'.hooksOwner == (if e.Enter? then Some(e.t) else if e.Leave? then None else s.hooksOwner)
            && s'.execOwner == (if TakesExec(e) then Some(e.t) else if FreesExec(e) then None else s.execOwner)
            && (e.Enter? ==> s.hooksOwner.None?)
            && (e.Leave? ==> OwnsHooks(s, e.t))
            && (TakesExec(e) ==> s.execOwner.None?)
            && (FreesExec(e) ==> OwnsExec(s, e.t))
  {
  }

  lemma LockedKept(s: State, e: Step)
    requires Locked(s) && Enabled(s, e)
    ensures Locked(Next(s, e))
  {
    hide Next, Enabled, OwnsHooks, OwnsExec, TakesExec, FreesExec;
    OwnersAfter(s, e);
    var s' := Next(s, e);
    forall t: nat ensures OwnsHooks(s', t) <==> s'.hooksOwner == Some(t) {
      HooksAfter(s, e, t);
    }
    forall t: nat ensures OwnsExec(s', t) <==> s'.execOwner == Some(t) {
      ExecAfter(s, e, t);
    }
  }

  lemma SlottedKept(s: State, e: Step)
    requires Slotted(s) && Enabled(s, e)
    ensures Slotted(Next(s, e))
  {
    hide Next, Enabled, Slotted, AtStats;
    var s' := Next(s, e);
    SlotsAfter(s, e);
    forall i | 0 <= i < |s'.hooks| ensures s'.hooks[i].id < s'.nextId && (s'.hooks[i].statsOwner.Some? ==> AtStats(s', s'.hooks[i].statsOwner.value, i)) {
      SlotKept(s, e, i);
    }
    assert Slotted(s') by { SlottedIs(s'); }
  }

  lemma SlottedIs(s: State)
    requires forall i :: 0 <= i < |s.hooks| ==> s.hooks[i].id < s.nextId && (s.hooks[i].statsOwner.Some? ==> AtStats(s, s.hooks[i].statsOwner.value, i))
    ensures Slotted(s)
  {
  }

  /** What a step does to a slot. */
  function SlotNext(s: State, e: Step, i: nat): Hook
    requires Enabled(s, e) && i < |s.hooks|
  {
    if e.Manage? && e.slot == i then SlotAfter(s.hooks[i], e.act, s.nextId)
    else if e.Stat? && s.threads[e.t].i == i then StatAfter(s.hooks[i], e.t, s.threads[e.t].h, s.threads[e.t].phase, e.part)
    else s.hooks[i]
  }

  lemma SlotsAfter(s: State, e: Step)
    requires Enabled(s, e)
    ensures |Next(s, e).hooks| == |s.hooks|
    ensures forall i :: 0 <= i < |s.hooks| ==> Next(s, e).hooks[i] == SlotNext(s, e, i)
    ensures Next(s, e).nextId == s.nextId + if e.Manage? && e.act.Register? then 1 else 0
  {
  }

  /** How a step changes whether a thread is at the statistics of a slot. */
  lemma AtStatsAfter(s: State, e: Step, t: nat, i: nat)
    requires Enabled(s, e)
    ensures AtStats(Next(s, e), t, i) <==>
              if e.Stat? && e.t == t && s.threads[t].i == i then !e.part.UnlockStats? else AtStats(s, t, i)
  {
  }

  lemma SlotKept(s: State, e: Step, i: nat)
    requires Slotted(s) && Enabled(s, e) && i < |s.hooks|
    ensures var h := SlotNext(s, e, i);
            h.id < Next(s, e).nextId && (h.statsOwner.Some? ==> AtStats(Next(s, e), h.statsOwner.value, i))
  {
    hide Next, Enabled, AtStats;
    SlotsAfter(s, e);
    var h := SlotNext(s, e, i);
    if h.statsOwner.Some? {
      AtStatsAfter(s, e, h.statsOwner.value, i);
    }
  }

  lemma TaggedKept(s: State, e: Step)
    requires Tagged(s) && Slotted(s) && Enabled(s, e)
    ensures Tagged(Next(s, e))
  {
  }

  lemma RangeKept(s: State, e: Step)
    requires InRange(s) && Enabled(s, e)
    ensures InRange(Next(s, e))
  {
  }

  // ----- runs -----

  /** limit is at least 1: a manager created with 0 gets 10. */
  ghost predicate Start(s: State) {
    && s.limit > 0 && s.active == 0 && s.threads == map[] && s.hooksOwner.None? && s.execOwner.None?
    && s.begun == 0 && s.ended == {} && s.runner == map[]
    && s.nextId > 0
    && forall i :: 0 <= i < |s.hooks| ==> s.hooks[i] == Hook(false, false, false, 0, NO_STATS, None, NO_STATS)
  }

  ghost predicate Run(states: seq<State>, steps: seq<Step>) {
    && |states| == |steps| + 1
    && Start(states[0])
    && forall i :: 0 <= i < |steps| ==> Enabled(states[i], steps[i]) && states[i + 1] == Next(states[i], steps[i])
  }

  lemma {:induction false} EveryRun(states: seq<State>, steps: seq<Step>)
    requires Run(states, steps)
    ensures Inv(states[|steps|])
  {
    hide Next, Enabled, Tracked, Locked, Slotted, Tagged, InRange;
    if steps == [] {
      StartInv(states[0]);
    } else {
      var n := |steps| - 1;
      assert Run(states[..n + 1], steps[..n]);
      EveryRun(states[..n + 1], steps[..n]);
      assert states[n + 1] == Next(states[n], steps[n]);
      TrackedKept(states[n], steps[n]);
      LockedKept(states[n], steps[n]);
      SlottedKept(states[n], steps[n]);
      TaggedKept(states[n], steps[n]);
      RangeKept(states[n], steps[n]);
    }
  }

  lemma StartInv(s: State)
    requires Start(s)
    ensures Inv(s)
  {
  }

  /** The threads an execution is in flight in. */
  ghost function Flying(s: State): set<nat> {
    set t | t in s.threads && InFlight(s.threads[t])
  }

  lemma FlyingSize(s: State)
    requires Tracked(s)
    ensures |Flying(s)| == s.active
  {
    var xs := s.runner.Keys;
    assert |xs| == |s.runner|;
    assert forall x :: x in xs ==> s.runner[x] in Flying(s);
    assert forall t :: t in Flying(s) ==> Flight(s, t).Some?;
    SameSize(xs, Flying(s), s.runner);
  }

  lemma {:induction false} SameSize(xs: set<nat>, ts: set<nat>, r: map<nat, nat>)
    requires xs <= r.Keys
    requires forall x :: x in xs ==> r[x] in ts
    requires forall x, y :: x in xs && y in xs && x != y ==> r[x] != r[y]
    requires forall t :: t in ts ==> exists x :: x in xs && r[x] == t
    ensures |xs| == |ts|
    decreases |xs|
  {
    if xs == {} {
      assert ts == {};
    } else {
      var x :| x in xs;
      SameSize(xs - {x}, ts - {r[x]}, r);
    }
  }

  /** In every interleaving the counter equals the executions in flight and never exceeds the
      limit, and every execution begun is counted down once or still in flight, in one thread
      only. */
  lemma ActiveIsInFlight(states: seq<State>, steps: seq<Step>)
    requires Run(states, steps)
    ensures var s := states[|steps|];
            && s.active == |Flying(s)| <= s.limit
            && (forall x: nat :: x < s.begun ==> (x in s.ended <==> !exists t: nat :: Flight(s, t) == Some(x)))
            && (forall t: nat, u: nat :: t != u && Flight(s, t).Some? ==> Flight(s, t) != Flight(s, u))
  {
    hide Enabled, Next, Locked, InRange, Slotted, Flying, Flight;
    EveryRun(states, steps);
    var s := states[|steps|];
    FlyingSize(s);
    forall x: nat | x < s.begun ensures x in s.ended <==> !exists t: nat :: Flight(s, t) == Some(x) {
      if x in s.runner {
        assert Flight(s, s.runner[x]) == Some(x);
      }
    }
  }

  /** An execution is counted down at most once in a run, and only while the counter is
      positive, so the unsigned counter never wraps. */
  lemma DropsOnce(states: seq<State>, steps: seq<Step>, i: nat)
    requires Run(states, steps) && i < |steps| && steps[i].Drop?
    ensures states[i].active > 0
    ensures states[i].threads[steps[i].t].x !in states[i].ended
    ensures states[i + 1].ended == states[i].ended + {states[i].threads[steps[i].t].x}
  {
    hide Locked, InRange, Slotted, Next;
    assert Run(states[..i + 1], steps[..i]);
    EveryRun(states[..i + 1], steps[..i]);
    assert Enabled(states[i], steps[i]) && states[i + 1] == Next(states[i], steps[i]);
    BooksAfter(states[i], steps[i]);
    var x := Flight(states[i], steps[i].t).value;
    assert x in states[i].runner.Keys;
  }

  /** hook_manager_wait returns only when no execution is in flight. */
  lemma WaitReturnsIdle(states: seq<State>, steps: seq<Step>, i: nat)
    requires Run(states, steps) && i < |steps| && steps[i].Return?
    ensures states[i].active == 0
    ensures forall t :: t in states[i].threads ==> !InFlight(states[i].threads[t])
  {
    hide Locked, InRange, Slotted, Next;
    assert Run(states[..i + 1], steps[..i]);
    EveryRun(states[..i + 1], steps[..i]);
    assert Enabled(states[i], steps[i]);
    var s := states[i];
    assert s.runner.Keys == {};
    forall t | t in s.threads ensures !InFlight(s.threads[t]) {
      assert Flight(s, t).None?;
    }
  }

  // ----- giving way to executions -----

  /** The step is one of an execution outside a call, or gives back exec_mutex or a
      stats_mutex. */
  predicate Completing(s: State, e: Step) {
    && (e.Stat? || e.LockDrop? || FreesExec(e))
    && e.t in s.threads
    && (FreesExec(e) || e.Stat? || !HasHooks(s.threads[e.t]))
  }

  /** In every reachable state an execution in its own thread can go on, or the thread that
      has the mutex it wants can; neither needs hooks_mutex, even when the call that has it
      sleeps at the limit. */
  lemma ExecutionsComplete(states: seq<State>, steps: seq<Step>, t: nat) returns (e: Step)
    requires Run(states, steps) && t in states[|steps|].threads
    requires InFlight(states[|steps|].threads[t]) && !HasHooks(states[|steps|].threads[t])
    ensures Completing(states[|steps|], e)
    ensures forall o :: Enabled(states[|steps|].(hooksOwner := o), e)
    ensures var s := states[|steps|];
            e.t == t || s.execOwner == Some(e.t) || (s.threads[t].Running? && s.threads[t].i < |s.hooks| && s.hooks[s.threads[t].i].statsOwner == Some(e.t))
  {
    hide Next, Tracked;
    EveryRun(states, steps);
    var s := states[|steps|];
    var p := s.threads[t];
    if p.Running? {
      e := Telling(s, t);
    } else if p.Dropping? {
      e := Drop(t);
    } else if s.execOwner.None? {
      e := LockDrop(t);
    } else {
      e := Releasing(s);
    }
  }

  lemma Telling(s: State, t: nat) returns (e: Step)
    requires Slotted(s) && InRange(s) && t in s.threads && s.threads[t].Running?
    ensures e.Stat? && Completing(s, e) && forall o :: Enabled(s.(hooksOwner := o), e)
    ensures e.t == t || s.hooks[s.threads[t].i].statsOwner == Some(e.t)
  {
    var p := s.threads[t];
    var h := s.hooks[p.i];
    if p.phase.Script? && h.statsOwner.Some? {
      assert AtStats(s, h.statsOwner.value, p.i);
      e := Stat(h.statsOwner.value, NextPart(s.threads[h.statsOwner.value].phase));
    } else {
      e := Stat(t, NextPart(p.phase));
    }
  }

  function NextPart(phase: Phase): StatAct {
    match phase
    case Script => LockStats(Success)
    case Held(_) => CountExecution
    case Told(_) => CountOutcome
    case Graded => UnlockStats
  }

  lemma Releasing(s: State) returns (e: Step)
    requires Locked(s) && InRange(s) && s.execOwner.Some?
    ensures Completing(s, e) && FreesExec(e) && s.execOwner == Some(e.t)
    ensures forall o :: Enabled(s.(hooksOwner := o), e)
  {
    var u := s.execOwner.value;
    assert OwnsExec(s, u);
    var q := s.threads[u];
    e := if q.Testing? then (if s.active >= s.limit then Sleep(u) else Admit(u))
         else if q.Dropping? then Drop(u)
         else if s.active > 0 then Doze(u) else Return(u);
  }
}
