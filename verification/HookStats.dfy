/**
 The statistics of hooks (event_hooks.c). A thread counts its execution and its outcome in
 two steps under the stats_mutex of the slot it was started for; registering a hook clears
 the slot without that mutex. The statistics are right exactly as long as no hook is
 registered in a slot with an execution still to be counted.
 */
module HookStats {
  import opened Common
  import opened EventHooks

  function Outcomes(s: Stats): nat {
    s.successes + s.timeouts + s.failures
  }

  /** The thread has counted an execution of slot i, but not yet its outcome. */
  predicate Between(s: State, t: nat, i: nat) {
    AtStats(s, t, i) && s.threads[t].phase.Told?
  }

  /** The statistics of slot i are right: exactly the owner of stats_mutex is at them, they
      count the executions of the hook in the slot and no others, and executions are
      successes, timeouts and failures, but for one while the owner is between the two. */
  ghost predicate Right(s: State, i: nat)
    requires i < |s.hooks|
  {
    Guarded(s, i) && Tallied(s.hooks[i].stats, s.hooks[i].own, Reporting(s, i))
  }

  ghost predicate Guarded(s: State, i: nat)
    requires i < |s.hooks|
  {
    forall t: nat :: AtStats(s, t, i) <==> s.hooks[i].statsOwner == Some(t)
  }

  predicate Reporting(s: State, i: nat)
    requires i < |s.hooks|
  {
    s.hooks[i].statsOwner.Some? && Between(s, s.hooks[i].statsOwner.value, i)
  }

  predicate Tallied(stats: Stats, own: Stats, reporting: bool) {
    stats == own && stats.executions == Outcomes(stats) + if reporting then 1 else 0
  }

  /** The thread is at an execution of slot i that was begun for another hook. */
  predicate Foreign(s: State, t: nat, i: nat)
    requires i < |s.hooks|
  {
    t in s.threads && (s.threads[t].Launching? || s.threads[t].Running?) && s.threads[t].i == i && s.threads[t].h != s.hooks[i].id
  }

  ghost predicate Unmixed(s: State, i: nat)
    requires i < |s.hooks|
  {
    forall t: nat :: !Foreign(s, t, i)
  }

  ghost predicate Faithful(s: State) {
    forall i :: 0 <= i < |s.hooks| ==> Right(s, i) && Unmixed(s, i)
  }

  /** The step registers a hook in a slot for which a script still runs or is being counted. */
  ghost predicate Hits(s: State, e: Step) {
    e.Manage? && e.act.Register? && exists t: nat :: AtSlot(s, t, e.slot)
  }

  predicate AtSlot(s: State, t: nat, i: nat) {
    t in s.threads && s.threads[t].Running? && s.threads[t].i == i
  }

  lemma BetweenAfter(s: State, e: Step, t: nat, i: nat)
    requires Enabled(s, e)
    ensures Between(Next(s, e), t, i) <==>
              if e.Stat? && e.t == t && s.threads[t].i == i then e.part.CountExecution? else Between(s, t, i)
  {
  }

  /** Where a thread at an execution of slot i was before the step, and for which hook. */
  lemma ForeignAfter(s: State, e: Step, t: nat, i: nat)
    requires Inv(s) && Enabled(s, e) && i < |s.hooks| && Unmixed(s, i)
    ensures |Next(s, e).hooks| == |s.hooks|
    ensures Foreign(Next(s, e), t, i) <==> e.Manage? && e.act.Register? && e.slot == i && AtSlot(s, t, i)
  {
    hide Tracked, Next;
    if e.Manage? {
      ForeignManaged(s, e, t, i);
    } else {
      ForeignStepped(s, e, t, i);
    }
  }

  lemma ForeignManaged(s: State, e: Step, t: nat, i: nat)
    requires Inv(s) && Enabled(s, e) && i < |s.hooks| && Unmixed(s, i) && e.Manage?
    ensures |Next(s, e).hooks| == |s.hooks|
    ensures Foreign(Next(s, e), t, i) <==> e.act.Register? && e.slot == i && AtSlot(s, t, i)
  {
    hide Tracked;
    assert !Foreign(s, t, i);
    assert OwnsHooks(s, t) <==> s.hooksOwner == Some(t);
  }

  lemma ForeignStepped(s: State, e: Step, t: nat, i: nat)
    requires Inv(s) && Enabled(s, e) && i < |s.hooks| && Unmixed(s, i) && !e.Manage?
    ensures |Next(s, e).hooks| == |s.hooks| && !Foreign(Next(s, e), t, i)
  {
    hide Tracked;
    assert !Foreign(s, t, i);
    assert e.Spawn? ==> !Foreign(s, e.t, i);
    assert OwnsHooks(s, t) <==> s.hooksOwner == Some(t);
  }

  lemma ManagedSlot(s: State, e: Step)
    requires Enabled(s, e) && e.Manage?
    ensures e.slot < |Next(s, e).hooks| == |s.hooks| && SlotEnabled(s.hooks[e.slot], e.act)
    ensures Next(s, e).hooks[e.slot] == SlotAfter(s.hooks[e.slot], e.act, s.nextId)
  {
  }

  lemma RegisteredRight(s: State, e: Step)
    requires Enabled(s, e) && e.Manage? && e.act.Register? && !Hits(s, e)
    ensures e.slot < |Next(s, e).hooks| && Right(Next(s, e), e.slot)
  {
    hide Next, Enabled, AtStats, Between, Hits, Guarded;
    ManagedSlot(s, e);
    forall t: nat ensures !AtStats(Next(s, e), t, e.slot) {
      AtStatsAfter(s, e, t, e.slot);
      NotAtSlot(s, e, t);
    }
    Unattended(Next(s, e), e.slot);
  }

  lemma Unattended(s: State, i: nat)
    requires i < |s.hooks| && s.hooks[i].statsOwner.None? && forall t: nat :: !AtStats(s, t, i)
    ensures Guarded(s, i)
  {
    hide AtStats;
  }

  lemma AdjustedRight(s: State, e: Step)
    requires Enabled(s, e) && e.Manage? && !e.act.Register? && e.slot < |s.hooks| && Right(s, e.slot)
    ensures e.slot < |Next(s, e).hooks| && Right(Next(s, e), e.slot)
  {
    hide Next, Enabled, AtStats, Between, Right, SameAt;
    ManagedSlot(s, e);
    SameThreads(s, e, e.slot);
    StaysRight(s, Next(s, e), e.slot);
  }

  lemma StaysRight(s: State, s': State, i: nat)
    requires i < |s.hooks| && i < |s'.hooks| && Right(s, i) && SameAt(s, s', i)
    requires s'.hooks[i].statsOwner == s.hooks[i].statsOwner
    requires var h, h' := s.hooks[i], s'.hooks[i];
             (h'.stats == h.stats && h'.own == h.own) || (h'.stats == h'.own == NO_STATS && h.statsOwner.None?)
    ensures Right(s', i)
  {
    hide Guarded, SameAt, Between;
    GuardedOn(s, s', i);
  }

  lemma GuardedOn(s: State, s': State, i: nat)
    requires i < |s.hooks| && i < |s'.hooks| && Guarded(s, i) && SameAt(s, s', i) && s'.hooks[i].statsOwner == s.hooks[i].statsOwner
    ensures Guarded(s', i) && Reporting(s', i) == Reporting(s, i)
  {
    hide AtStats, Between, SameAt, Guarded;
    GuardedSame(s, s', i);
    if s.hooks[i].statsOwner.Some? {
      SameAtOne(s, s', s.hooks[i].statsOwner.value, i);
    }
  }

  lemma GuardedSame(s: State, s': State, i: nat)
    requires i < |s.hooks| && i < |s'.hooks| && Guarded(s, i) && SameAt(s, s', i) && s'.hooks[i].statsOwner == s.hooks[i].statsOwner
    ensures Guarded(s', i)
  {
    hide AtStats, SameAt;
    forall t: nat ensures AtStats(s', t, i) <==> s'.hooks[i].statsOwner == Some(t) {
      SameAtOne(s, s', t, i);
      assert AtStats(s, t, i) <==> s.hooks[i].statsOwner == Some(t);
    }
  }

  lemma SameAtOne(s: State, s': State, t: nat, i: nat)
    requires SameAt(s, s', i)
    ensures AtStats(s', t, i) == AtStats(s, t, i) && Between(s', t, i) == Between(s, t, i)
  {
    hide AtStats, Between;
  }

  /** The same threads are at the statistics of slot i, and between its counters. */
  ghost predicate SameAt(s: State, s': State, i: nat) {
    forall t: nat :: AtStats(s', t, i) == AtStats(s, t, i) && Between(s', t, i) == Between(s, t, i)
  }

  /** A step that is not at the statistics of slot i moves no thread to or from them. */
  lemma SameThreads(s: State, e: Step, i: nat)
    requires Enabled(s, e) && !(e.Stat? && s.threads[e.t].i == i)
    ensures SameAt(s, Next(s, e), i)
  {
    hide Next, Enabled, AtStats, Between;
    forall t: nat ensures AtStats(Next(s, e), t, i) == AtStats(s, t, i) && Between(Next(s, e), t, i) == Between(s, t, i) {
      AtStatsAfter(s, e, t, i);
      BetweenAfter(s, e, t, i);
    }
  }

  lemma SlotEnabledBy(s: State, e: Step)
    requires Enabled(s, e) && e.Manage?
    ensures e.slot < |s.hooks| && SlotEnabled(s.hooks[e.slot], e.act)
  {
  }

  lemma NotAtSlot(s: State, e: Step, t: nat)
    requires e.Manage? && e.act.Register? && !Hits(s, e)
    ensures !AtStats(s, t, e.slot)
  {
    assert !AtSlot(s, t, e.slot);
  }

  lemma CountedRight(s: State, e: Step, i: nat)
    requires i < |s.hooks| && Right(s, i) && Unmixed(s, i) && Enabled(s, e)
    requires e.Stat? && s.threads[e.t].i == i
    ensures |Next(s, e).hooks| == |s.hooks| && Right(Next(s, e), i)
  {
    hide Next, Enabled, AtStats, Between, Foreign;
    SlotsAfter(s, e);
    PartFacts(s, e);
    var s' := Next(s, e);
    forall t: nat ensures AtStats(s', t, i) <==> s'.hooks[i].statsOwner == Some(t) {
      AtStatsAfter(s, e, t, i);
    }
    BetweenAfter(s, e, e.t, i);
  }

  /** What holds when a thread does its part at the statistics. */
  lemma PartFacts(s: State, e: Step)
    requires Enabled(s, e) && e.Stat?
    ensures e.t in s.threads
    ensures var p := s.threads[e.t];
            && p.Running? && p.i < |s.hooks| && StatEnabled(s.hooks[p.i], p.phase, e.part)
            && (Foreign(s, e.t, p.i) <==> p.h != s.hooks[p.i].id)
            && (AtStats(s, e.t, p.i) <==> !p.phase.Script?)
            && (Between(s, e.t, p.i) <==> p.phase.Told?)
  {
  }

  lemma OtherRight(s: State, e: Step, i: nat)
    requires i < |s.hooks| && Right(s, i) && Enabled(s, e) && !(e.Manage? && e.slot == i) && !(e.Stat? && s.threads[e.t].i == i)
    ensures |Next(s, e).hooks| == |s.hooks| && Right(Next(s, e), i)
  {
    hide Next, Enabled, AtStats, Between, Right, SameAt;
    SlotsAfter(s, e);
    SameThreads(s, e, i);
    StaysRight(s, Next(s, e), i);
  }

  /** From faithful statistics a step leads to faithful ones if and only if it does not
      register a hook in a slot with an execution still to be counted. */
  lemma FaithfulExactly(s: State, e: Step)
    requires Inv(s) && Faithful(s) && Enabled(s, e)
    ensures Faithful(Next(s, e)) <==> !Hits(s, e)
  {
    hide Next, Enabled, Right, Foreign, AtSlot, Tracked, Locked, InRange;
    var s' := Next(s, e);
    SlotsAfter(s, e);
    if Hits(s, e) {
      var t: nat :| AtSlot(s, t, e.slot);
      SlotEnabledBy(s, e);
      assert Right(s, e.slot);
      ForeignAfter(s, e, t, e.slot);
      assert !Unmixed(s', e.slot);
    } else {
      forall i | 0 <= i < |s'.hooks| ensures Right(s', i) && Unmixed(s', i) {
        assert Right(s, i);
        if e.Manage? && e.slot == i {
          if e.act.Register? {
            RegisteredRight(s, e);
          } else {
            AdjustedRight(s, e);
          }
        } else if e.Stat? {
          PartFacts(s, e);
          if s.threads[e.t].i == i {
            CountedRight(s, e, i);
          } else {
            OtherRight(s, e, i);
          }
        } else {
          OtherRight(s, e, i);
        }
        forall t: nat ensures !Foreign(s', t, i) {
          ForeignAfter(s, e, t, i);
        }
      }
    }
  }

  /** In every interleaving in which no hook is registered in a slot with an execution still
      to be counted, the statistics of every slot are right: they count the executions of the
      hook in it, and whenever its stats_mutex is free, executions are successes, timeouts and
      failures. */
  lemma {:induction false} StatsRight(states: seq<State>, steps: seq<Step>)
    requires Run(states, steps)
    requires forall k :: 0 <= k < |steps| ==> !Hits(states[k], steps[k])
    ensures Faithful(states[|steps|])
    ensures forall i :: 0 <= i < |states[|steps|].hooks| ==>
              var h := states[|steps|].hooks[i];
              h.stats == h.own && (h.statsOwner.None? ==> h.stats.executions == Outcomes(h.stats))
  {
    hide Next, Enabled, Hits, Between, AtStats, Foreign, Inv;
    if steps == [] {
      StartFaithful(states[0]);
    } else {
      var n := |steps| - 1;
      assert Run(states[..n + 1], steps[..n]);
      StatsRight(states[..n + 1], steps[..n]);
      EveryRun(states[..n + 1], steps[..n]);
      assert states[n + 1] == Next(states[n], steps[n]);
      FaithfulExactly(states[n], steps[n]);
    }
    forall i | 0 <= i < |states[|steps|].hooks|
      ensures var h := states[|steps|].hooks[i];
              h.stats == h.own && (h.statsOwner.None? ==> h.stats.executions == Outcomes(h.stats))
    {
      assert Right(states[|steps|], i);
    }
  }

  lemma StartFaithful(s: State)
    requires Start(s)
    ensures Faithful(s)
  {
    hide Right, Unmixed, Start;
    forall i | 0 <= i < |s.hooks| ensures Right(s, i) && Unmixed(s, i) {
      StartRight(s, i);
    }
  }

  lemma StartRight(s: State, i: nat)
    requires Start(s) && i < |s.hooks|
    ensures Right(s, i) && Unmixed(s, i)
  {
    hide AtStats, Foreign;
    forall t: nat ensures !AtStats(s, t, i) && !Foreign(s, t, i) {
      NobodyAtStart(s, t, i);
    }
  }

  lemma NobodyAtStart(s: State, t: nat, i: nat)
    requires Start(s) && i < |s.hooks|
    ensures !AtStats(s, t, i) && !Foreign(s, t, i)
  {
  }

  // ----- and when they go wrong -----

  lemma Extend(states: seq<State>, steps: seq<Step>, e: Step)
    requires Run(states, steps) && Enabled(states[|steps|], e)
    ensures Run(states + [Next(states[|steps|], e)], steps + [e])
  {
    hide Next, Enabled;
  }

  /** A thread whose script still runs counts itself for the hook that has taken the slot. */
  lemma CountsWrongly(s: State, t: nat, i: nat)
    requires AtSlot(s, t, i) && i < |s.hooks| && s.threads[t].phase.Script? && s.threads[t].h != s.hooks[i].id
    requires s.hooks[i].statsOwner.None? && s.hooks[i].stats == s.hooks[i].own
    ensures var lock, count := Stat(t, LockStats(Success)), Stat(t, CountExecution);
            && Enabled(s, lock) && Enabled(Next(s, lock), count)
            && var s2 := Next(Next(s, lock), count); |s2.hooks| == |s.hooks| && !Right(s2, i)
  {
    var s2 := Next(Next(s, Stat(t, LockStats(Success))), Stat(t, CountExecution));
    assert s2.hooks[i].stats != s2.hooks[i].own;
  }

  lemma HitFacts(s: State, e: Step, t: nat)
    requires Tagged(s) && Enabled(s, e) && e.Manage? && e.act.Register? && AtSlot(s, t, e.slot)
    ensures var s', i := Next(s, e), e.slot;
            && i < |s'.hooks| && AtSlot(s', t, i) && s'.threads[t].h != s'.hooks[i].id
            && s'.hooks[i].statsOwner.None? && s'.hooks[i].stats == s'.hooks[i].own
            && (s'.threads[t].phase.Script? || !Right(s', i))
  {
    hide Between;
    var s', i := Next(s, e), e.slot;
    assert AtStats(s', t, i) <==> !s'.threads[t].phase.Script?;
  }

  /** The condition is exact: whatever happened before, after such a registration the
      statistics of the slot are wrong, or two steps can make them so. */
  lemma HitGoesWrong(states: seq<State>, steps: seq<Step>) returns (states': seq<State>, steps': seq<Step>, i: nat)
    requires Run(states, steps) && steps != [] && Hits(states[|steps| - 1], steps[|steps| - 1])
    ensures states <= states' && steps <= steps' && |steps'| <= |steps| + 2 && Run(states', steps')
    ensures i < |states'[|steps'|].hooks| && !Right(states'[|steps'|], i)
  {
    hide Next, Enabled, Right, AtSlot, Tracked, Locked, InRange, Slotted, Tagged;
    var n := |steps| - 1;
    var e, s := steps[n], states[n + 1];
    assert Enabled(states[n], e) && s == Next(states[n], e);
    i := e.slot;
    var t: nat :| AtSlot(states[n], t, i);
    assert Run(states[..n + 1], steps[..n]);
    EveryRun(states[..n + 1], steps[..n]);
    HitFacts(states[n], e, t);
    states', steps' := states, steps;
    if Right(s, i) {
      CountsWrongly(s, t, i);
      var lock, count := Stat(t, LockStats(Success)), Stat(t, CountExecution);
      var s1 := Next(s, lock);
      Extend(states, steps, lock);
      Extend(states + [s1], steps + [lock], count);
      states', steps' := states + [s1] + [Next(s1, count)], steps + [lock] + [count];
    }
  }

  // ----- a run in which they go wrong -----

  /** One slot, a limit of one, one execution at most. */
  function Scene(h: Hook, nextId: nat, threads: map<nat, Pc>, hooksOwner: Option<nat>, execOwner: Option<nat>, runner: map<nat, nat>): State {
    State([h], nextId, 1, |runner|, threads, hooksOwner, execOwner, |runner|, {}, runner)
  }

  function EmptySlot(): Hook { Hook(false, false, false, 0, NO_STATS, None, NO_STATS) }

  /** The hook with this id, just registered. */
  function Registered(id: nat): Hook { Hook(true, true, true, id, NO_STATS, None, NO_STATS) }

  /** The first hook while thread 2 counts an execution of it. */
  function Counting(n: nat): Hook {
    Registered(1).(statsOwner := Some(2), stats := Stats(n, 0, 0, 0), own := Stats(n, 0, 0, 0))
  }

  /** The states of a run: thread 1 calls hook_manager_execute, which starts thread 2. */
  function Stage(k: nat): State {
    var run := Running(0, 0, 1, false, Script);
    if k == 0 then Scene(EmptySlot(), 1, map[], None, None, map[])
    else if k == 1 then Scene(Registered(1), 2, map[], None, None, map[])
    else if k == 2 then Scene(Registered(1), 2, map[1 := Scanning(0)], Some(1), None, map[])
    else if k == 3 then Scene(Registered(1), 2, map[1 := Limiting(0)], Some(1), None, map[])
    else if k == 4 then Scene(Registered(1), 2, map[1 := Testing(0)], Some(1), Some(1), map[])
    else if k == 5 then Scene(Registered(1), 2, map[1 := Launching(0, 0, 1)], Some(1), None, map[0 := 1])
    else if k == 6 then Scene(Registered(1), 2, map[1 := Scanning(1), 2 := run], Some(1), None, map[0 := 2])
    else if k == 7 then Scene(Registered(1), 2, map[2 := run], None, None, map[0 := 2])
    else if k == 8 then Scene(Counting(0), 2, map[2 := run.(phase := Held(Success))], None, None, map[0 := 2])
    else if k == 9 then Scene(Counting(1), 2, map[2 := run.(phase := Told(Success))], None, None, map[0 := 2])
    else if k == 10 then Scene(Counting(1).(inUse := false), 2, map[2 := run.(phase := Told(Success))], None, None, map[0 := 2])
    else if k == 11 then Scene(Registered(2), 3, map[2 := run.(phase := Told(Success))], None, None, map[0 := 2])
    else Scene(Registered(2).(stats := Stats(0, 1, 0, 0)), 3, map[2 := run.(phase := Graded)], None, None, map[0 := 2])
  }

  /** The call returns before the thread counts its execution; then the hook is removed and
      another one registered; then the thread counts the outcome. */
  function StepAt(k: nat): Step {
    if k == 0 then Manage(0, Register(true, true, true))
    else if k == 1 then Enter(1)
    else if k == 2 then Select(1)
    else if k == 3 then LockLimit(1)
    else if k == 4 then Admit(1)
    else if k == 5 then Spawn(1, 2)
    else if k == 6 then Leave(1)
    else if k == 7 then Stat(2, LockStats(Success))
    else if k == 8 then Stat(2, CountExecution)
    else if k == 9 then Manage(0, Unregister)
    else if k == 10 then Manage(0, Register(true, true, true))
    else Stat(2, CountOutcome)
  }

  ghost predicate Leads(k: nat) {
    Enabled(Stage(k), StepAt(k)) && Next(Stage(k), StepAt(k)) == Stage(k + 1)
  }

  lemma ManageEquation(s: State, slot: nat, a: SlotAct)
    requires s.hooksOwner.None? && slot < |s.hooks| && SlotEnabled(s.hooks[slot], a)
    ensures Enabled(s, Manage(slot, a))
    ensures Next(s, Manage(slot, a)) ==
              s.(hooks := s.hooks[slot := SlotAfter(s.hooks[slot], a, s.nextId)], nextId := if a.Register? then s.nextId + 1 else s.nextId)
  {
  }

  lemma StatEquation(s: State, t: nat, a: StatAct)
    requires t in s.threads && s.threads[t].Running? && s.threads[t].i < |s.hooks| && StatEnabled(s.hooks[s.threads[t].i], s.threads[t].phase, a)
    requires !a.UnlockStats?
    ensures Enabled(s, Stat(t, a))
    ensures var p := s.threads[t];
            Next(s, Stat(t, a)) ==
              s.(threads := s.threads[t := p.(phase := PhaseAfter(p.phase, a))],
                 hooks := s.hooks[p.i := StatAfter(s.hooks[p.i], t, p.h, p.phase, a)])
  {
  }

  lemma LeadsManage(k: nat)
    requires k == 0 || k == 9 || k == 10
    ensures Leads(k)
  {
    hide Enabled, Next;
    ManageEquation(Stage(k), 0, StepAt(k).act);
  }

  lemma LeadsLockStats()
    ensures Leads(7)
  {
    hide Enabled, Next;
    StatEquation(Stage(7), 2, StepAt(7).part);
  }

  lemma LeadsExecution()
    ensures Leads(8)
  {
    hide Enabled, Next;
    StatEquation(Stage(8), 2, StepAt(8).part);
  }

  lemma LeadsOutcome()
    ensures Leads(11)
  {
    hide Enabled, Next;
    StatEquation(Stage(11), 2, StepAt(11).part);
  }

  lemma LeadsEnter() ensures Leads(1) && Leads(2) {}

  lemma LeadsLock() ensures Leads(3) {}

  lemma LeadsAdmit() ensures Leads(4) {}

  lemma LeadsSpawn() ensures Leads(5) {}

  lemma LeadsLeave()
    ensures Leads(6)
  {
    var run := Running(0, 0, 1, false, Script);
    assert map[1 := Scanning(1), 2 := run] - {1} == map[2 := run];
  }

  lemma LeadsOn(k: nat)
    requires k < 12
    ensures Leads(k)
  {
    hide Leads;
    if k == 0 || k == 9 || k == 10 {
      LeadsManage(k);
    } else if k == 7 {
      LeadsLockStats();
    } else if k == 8 {
      LeadsExecution();
    } else if k == 11 {
      LeadsOutcome();
    } else {
      LeadsEnter();
      LeadsLock();
      LeadsAdmit();
      LeadsSpawn();
      LeadsLeave();
    }
  }

  /** A run after which a hook that was just registered and never ran has a success and no
      execution, with its stats_mutex free. */
  lemma SuccessWithoutExecution()
    ensures exists states: seq<State>, steps: seq<Step> ::
              && Run(states, steps) && |states[|steps|].hooks| > 0
              && states[|steps|].hooks[0] == Registered(2).(stats := Stats(0, 1, 0, 0))
  {
    hide Enabled, Next, Stage, StepAt;
    var states, steps := seq(13, (k: nat) => Stage(k)), seq(12, (k: nat) => StepAt(k));
    forall i | 0 <= i < |steps| ensures Enabled(states[i], steps[i]) && states[i + 1] == Next(states[i], steps[i]) {
      LeadsOn(i);
    }
    StageEnds();
    assert Run(states, steps);
  }

  lemma StageEnds()
    ensures Start(Stage(0)) && Stage(12).hooks == [Registered(2).(stats := Stats(0, 1, 0, 0))]
  {
  }
}
