/**
 Runs of alert manager calls (alert_manager.c): rules are added, removed, switched and
 suppressed, events evaluated, alerts acknowledged and resolved, in any order. The
 guarantees of one rule and of the history hold for every rule and for the whole run.
 */
module AlertRuns {
  import opened Common
  import opened AlertManager
  import R = AlertRules
  import H = AlertHistory
  import FilterManager

  ghost predicate Start(v: View) {
    && v.rules != [] && (forall i :: 0 <= i < |v.rules| ==> v.rules[i].None?)
    && |v.book.slots| > 0 && v.book == H.EmptyBook(|v.book.slots|)
  }

  /** Calls are described on well-formed states only, and there are no others (Through). */
  ghost predicate Run(views: seq<View>, calls: seq<Call>) {
    && |views| == |calls| + 1 && Start(views[0])
    && forall i :: 0 <= i < |calls| ==> Leads(views[i], calls[i], views[i + 1])
  }

  ghost predicate Leads(v: View, c: Call, v': View) {
    Sound(v) ==> Step(v, c, v')
  }

  /** When a call was made, if its time matters. */
  function Time(c: Call): Option<int> {
    match c
    case Adjusted(_, act) => Some(act.now)
    case Evaluated(o) => Some(o.now)
    case _ => None
  }

  /** The clock does not go back. */
  ghost predicate Forward(calls: seq<Call>) {
    forall i, j :: 0 <= i <= j < |calls| && Time(calls[i]).Some? && Time(calls[j]).Some? ==> Time(calls[i]).value <= Time(calls[j]).value
  }

  /** When the rule now in slot i has triggered since it was added. */
  ghost function Triggers(views: seq<View>, calls: seq<Call>, i: nat): seq<int>
    requires Run(views, calls) && i < |views[0].rules|
    decreases |calls|
  {
    if calls == [] then [] else
      var n := |calls| - 1;
      Through(views, calls);
      assert Run(views[..n + 1], calls[..n]);
      if views[n].rules[i].None? || views[n + 1].rules[i].None? then []
      else Triggers(views[..n + 1], calls[..n], i) + Fresh(calls[n], views[n].rules[i])
  }

  /** The trigger a call adds for a rule. */
  ghost function Fresh(c: Call, rule: Option<Rule>): seq<int>
    requires Usable(rule)
  {
    if c.Evaluated? && Fires(c.o, rule) then [c.o.now] else []
  }

  /** How many resolutions of the run found their alert. */
  ghost function Resolves(views: seq<View>, calls: seq<Call>): nat
    requires Run(views, calls)
    decreases |calls|
  {
    if calls == [] then 0 else
      var n := |calls| - 1;
      Through(views, calls);
      assert Run(views[..n + 1], calls[..n]);
      Resolves(views[..n + 1], calls[..n]) + if Resolving(views[n], calls[n]) then 1 else 0
  }

  ghost predicate Resolving(v: View, c: Call)
    requires Sound(v)
  {
    c.Told? && c.deed.Resolve? && H.Do(v.book, c.deed).found
  }

  lemma StepLength(v: View, c: Call, v': View)
    requires Sound(v) && Step(v, c, v')
    ensures |v'.rules| == |v.rules|
  {
    hide Turn;
  }

  /** Rules stay well formed, so every call finds what it needs. */
  lemma StepSound(v: View, c: Call, v': View)
    requires Sound(v) && Step(v, c, v')
    ensures Sound(v')
  {
    hide Turn, H.Do;
    forall i | 0 <= i < |v'.rules| ensures Usable(v'.rules[i]) {
      if i < |v.rules| {
        assert Usable(v.rules[i]);
      }
    }
  }

  lemma StartSound(v: View)
    requires Start(v)
    ensures Sound(v)
  {
  }

  /** Every state of every run is well formed, with as many places for rules as at the start. */
  lemma {:induction false} Through(views: seq<View>, calls: seq<Call>)
    requires Run(views, calls)
    ensures forall k :: 0 <= k < |views| ==> Sound(views[k]) && |views[k].rules| == |views[0].rules|
    decreases |calls|
  {
    hide Step, Start, Sound;
    if calls == [] {
      StartSound(views[0]);
    } else {
      var n := |calls| - 1;
      assert Run(views[..n + 1], calls[..n]);
      Through(views[..n + 1], calls[..n]);
      assert forall k :: 0 <= k <= n ==> views[..n + 1][k] == views[k];
      assert Leads(views[n], calls[n], views[n + 1]);
      StepLength(views[n], calls[n], views[n + 1]);
      StepSound(views[n], calls[n], views[n + 1]);
    }
  }

  /** The last call of a run, and the run before it. */
  lemma LastStep(views: seq<View>, calls: seq<Call>)
    requires Run(views, calls) && calls != []
    ensures var n := |calls| - 1;
            Run(views[..n + 1], calls[..n]) && Sound(views[n]) && Step(views[n], calls[n], views[n + 1])
  {
    hide Step, Start, Sound;
    Through(views, calls);
    var n := |calls| - 1;
    assert Leads(views[n], calls[n], views[n + 1]);
  }

  // ----- one rule through the run -----

  /** A rule is where its own acts have brought it from a fresh entry. */
  datatype Tale = Tale(start: R.Entry, acts: seq<R.Act>)

  ghost predicate Tells(t: Tale, rule: Rule, log: seq<int>, now: int) {
    && t.start == R.Fresh(t.start.enabled, t.start.limit, t.start.window, t.start.quiet)
    && R.After(t.start, t.acts) == R.Progress(rule.entry, log)
    && R.Clock(t.acts) && (forall k :: 0 <= k < |t.acts| ==> t.acts[k].now <= now)
  }

  predicate ByHand(c: Call) {
    c.Adjusted? && R.Manual(c.act)
  }

  ghost predicate NoneByHand(t: Tale) {
    forall k :: 0 <= k < |t.acts| ==> !R.Manual(t.acts[k])
  }

  /** What a call does to a rule that stays: nothing, one of its own acts, or one event. */
  lemma RuleAfter(v: View, c: Call, v': View, i: nat)
    requires Sound(v) && Step(v, c, v') && i < |v.rules| && |v'.rules| == |v.rules| && v.rules[i].Some? && v'.rules[i].Some?
    ensures var rule := v.rules[i].value;
            && (c.Evaluated? ==> v'.rules[i].value == rule.(entry := Tried(c.o, rule).entry))
            && (c.Adjusted? && rule.id == c.id ==> v'.rules[i].value == rule.(entry := R.Perform(rule.entry, c.act).entry) && !c.act.Consider?)
            && (!c.Evaluated? && !(c.Adjusted? && rule.id == c.id) ==> v'.rules[i].value == rule)
  {
    hide Tried, Turns, R.Perform;
    if c.Evaluated? {
      TurnsIndependent(c.o, v, |v.rules|);
    }
  }

  lemma RuleNew(v: View, c: Call, v': View, i: nat)
    requires Sound(v) && Step(v, c, v') && i < |v.rules| && |v'.rules| == |v.rules| && v.rules[i].None? && v'.rules[i].Some?
    ensures var e := v'.rules[i].value.entry; e == R.Fresh(e.enabled, e.limit, e.window, e.quiet)
  {
    hide Tried, Turns;
    if c.Evaluated? {
      TurnsIndependent(c.o, v, |v.rules|);
    }
  }

  lemma Retold(t: Tale, rule: Rule, log: seq<int>, now: int, later: int)
    requires Tells(t, rule, log, now) && now <= later
    ensures Tells(t, rule, log, later)
  {
  }

  lemma ToldOn(v: View, c: Call, v': View, i: nat, t: Tale, log: seq<int>, now: int, later: int) returns (t': Tale)
    requires Sound(v) && Step(v, c, v') && i < |v.rules| && |v'.rules| == |v.rules| && v.rules[i].Some? && v'.rules[i].Some?
    requires Tells(t, v.rules[i].value, log, now) && now <= later && (Time(c).Some? ==> now <= Time(c).value <= later)
    ensures Tells(t', v'.rules[i].value, log + Fresh(c, v.rules[i]), later)
    ensures NoneByHand(t) && !ByHand(c) ==> NoneByHand(t')
  {
    hide Step, Tells, R.Attempt, R.After;
    var rule := v.rules[i].value;
    assert Usable(v.rules[i]);
    RuleAfter(v, c, v', i);
    if c.Evaluated? {
      t' := TellActs(t, rule, log, now, later, R.Consider(c.o.now, FilterManager.Satisfied(c.o.g, c.o.lib, rule.condition, c.o.ev)));
    } else if c.Adjusted? && rule.id == c.id {
      t' := TellActs(t, rule, log, now, later, c.act);
    } else {
      t' := t;
      Retold(t, rule, log, now, later);
      assert log + [] == log;
    }
  }

  lemma TellActs(t: Tale, rule: Rule, log: seq<int>, now: int, later: int, a: R.Act) returns (t': Tale)
    requires Tells(t, rule, log, now) && now <= a.now <= later && R.WellFormed(rule.entry)
    ensures var p := R.Perform(rule.entry, a);
            Tells(t', rule.(entry := p.entry), log + (if p.outcome.Triggered? then [a.now] else []), later)
    ensures NoneByHand(t) && !R.Manual(a) ==> NoneByHand(t')
  {
    hide R.Attempt, R.Perform, R.After;
    t' := Tale(t.start, t.acts + [a]);
    TellAdvances(t, rule, log, a);
    assert log + [] == log;
  }

  lemma TellAdvances(t: Tale, rule: Rule, log: seq<int>, a: R.Act)
    requires R.WellFormed(t.start) && R.After(t.start, t.acts) == R.Progress(rule.entry, log)
    ensures R.WellFormed(rule.entry)
    ensures R.After(t.start, t.acts + [a]) == R.Advance(R.Progress(rule.entry, log), a)
  {
    hide R.Advance;
    assert (t.acts + [a])[..|t.acts|] == t.acts;
  }

  /** The rule in a slot after any run has come there by its own acts, and its log has the
      times the run triggered it. */
  lemma {:induction false} RuleTold(views: seq<View>, calls: seq<Call>, i: nat, now: int) returns (t: Tale)
    requires Run(views, calls) && Forward(calls) && i < |views[0].rules|
    requires forall k :: 0 <= k < |calls| && Time(calls[k]).Some? ==> Time(calls[k]).value <= now
    ensures |views[|calls|].rules| == |views[0].rules|
    ensures views[|calls|].rules[i].Some? ==> Tells(t, views[|calls|].rules[i].value, Triggers(views, calls, i), now)
    ensures (forall k :: 0 <= k < |calls| ==> !ByHand(calls[k])) ==> NoneByHand(t)
    decreases |calls|
  {
    hide Step, Sound, Tells, Triggers, Fresh;
    Through(views, calls);
    t := Tale(R.Fresh(false, 0, 0, 0), []);
    if calls != [] && views[|calls|].rules[i].Some? {
      var n := |calls| - 1;
      var v, c, v' := views[n], calls[n], views[n + 1];
      LastStep(views, calls);
      TriggersStep(views, calls, i);
      if v.rules[i].None? {
        RuleNew(v, c, v', i);
        t := Tale(v'.rules[i].value.entry, []);
        TaleStarts(v'.rules[i].value, now);
      } else {
        var before := if Time(c).Some? then Time(c).value else now;
        assert forall k :: 0 <= k < n ==> calls[..n][k] == calls[k];
        var t0 := RuleTold(views[..n + 1], calls[..n], i, before);
        t := ToldOn(v, c, v', i, t0, Triggers(views[..n + 1], calls[..n], i), before, now);
      }
    }
  }

  lemma TaleStarts(rule: Rule, now: int)
    requires var e := rule.entry; e == R.Fresh(e.enabled, e.limit, e.window, e.quiet)
    ensures Tells(Tale(rule.entry, []), rule, [], now)
  {
  }

  lemma TriggersStep(views: seq<View>, calls: seq<Call>, i: nat)
    requires Run(views, calls) && calls != [] && i < |views[0].rules|
    ensures var n := |calls| - 1;
            && |views[n].rules| == |views[n + 1].rules| == |views[0].rules| && Sound(views[n]) && Run(views[..n + 1], calls[..n])
            && Triggers(views, calls, i) ==
               if views[n].rules[i].None? || views[n + 1].rules[i].None? then []
               else Triggers(views[..n + 1], calls[..n], i) + Fresh(calls[n], views[n].rules[i])
  {
    hide Step, Sound, Fresh;
    Through(views, calls);
    LastStep(views, calls);
  }

  lemma {:induction false} LatestTime(calls: seq<Call>) returns (now: int)
    ensures forall k :: 0 <= k < |calls| && Time(calls[k]).Some? ==> Time(calls[k]).value <= now
  {
    if calls == [] {
      now := 0;
    } else {
      var n := |calls| - 1;
      now := LatestTime(calls[..n]);
      if Time(calls[n]).Some? && Time(calls[n]).value > now {
        now := Time(calls[n]).value;
      }
      assert forall k :: 0 <= k < n ==> calls[..n][k] == calls[k];
    }
  }

  // ----- what holds of every run -----

  /** Whatever calls are made, a rule limited to limit triggers per window seconds never has
      more of them in any span of that length since it was added. */
  lemma SlidingWindow(views: seq<View>, calls: seq<Call>, i: nat, from: int)
    requires Run(views, calls) && Forward(calls) && i < |views[0].rules|
    ensures |views[|calls|].rules| == |views[0].rules|
    ensures var rule := views[|calls|].rules[i];
            rule.Some? && R.Limits(rule.value.entry) ==>
              R.Between(Triggers(views, calls, i), from, from + rule.value.entry.window) <= rule.value.entry.limit
  {
    hide Step, Sound, Triggers, R.Between, R.After;
    var now := LatestTime(calls);
    var t := RuleTold(views, calls, i, now);
    if views[|calls|].rules[i].Some? && R.Limits(views[|calls|].rules[i].value.entry) {
      R.RunKeeps(t.start, t.acts, now);
      R.SlidingWindow(t.start, t.acts, from);
    }
  }

  /** Unless a call suppresses or unsuppresses a rule by hand, successive triggers of a rule are
      at least its suppression time apart. */
  lemma TriggersApart(views: seq<View>, calls: seq<Call>, i: nat)
    requires Run(views, calls) && Forward(calls) && i < |views[0].rules|
    requires forall k :: 0 <= k < |calls| ==> !ByHand(calls[k])
    ensures |views[|calls|].rules| == |views[0].rules|
    ensures views[|calls|].rules[i].Some? ==> R.Apart(Triggers(views, calls, i), views[|calls|].rules[i].value.entry.quiet)
  {
    hide Step, Sound, Triggers, R.After;
    var now := LatestTime(calls);
    var t := RuleTold(views, calls, i, now);
    if views[|calls|].rules[i].Some? {
      R.TriggersApart(t.start, t.acts);
    }
  }

  // ----- the history through the run -----

  lemma {:induction false} RaisedAgrees(b: H.Book, fates: seq<H.AlertState>, k: nat) returns (fates': seq<H.AlertState>)
    requires H.Agrees(b, fates)
    ensures H.Agrees(RaisedTimes(b, k), fates') && H.Count(fates', H.Inactive) == H.Count(fates, H.Inactive)
    ensures |RaisedTimes(b, k).slots| == |b.slots|
  {
    fates' := fates;
    if k > 0 {
      hide H.Agrees, H.Do, H.Fated;
      var mid := RaisedAgrees(b, fates, k - 1);
      fates' := H.Fated(mid, |b.slots|, H.Raise);
      H.DoAgrees(RaisedTimes(b, k - 1), mid, H.Raise);
      H.FatedResolves(mid, |b.slots|, H.Raise);
    }
  }

  lemma BookAfter(v: View, c: Call, v': View, fates: seq<H.AlertState>) returns (fates': seq<H.AlertState>)
    requires Sound(v) && Step(v, c, v') && H.Agrees(v.book, fates)
    ensures H.Agrees(v'.book, fates')
    ensures H.Count(fates', H.Inactive) == H.Count(fates, H.Inactive) + if Resolving(v, c) then 1 else 0
  {
    hide H.Agrees, H.Do, H.Fated, H.Count, Turns, RaisedTimes;
    fates' := fates;
    if c.Evaluated? {
      TurnsIndependent(c.o, v, |v.rules|);
      fates' := RaisedAgrees(v.book, fates, Fired(c.o, v, |v.rules|));
    } else if c.Told? {
      H.DoAgrees(v.book, fates, c.deed);
      H.FatedResolves(fates, |v.book.slots|, c.deed);
      fates' := H.Fated(fates, |v.book.slots|, c.deed);
    }
  }

  lemma {:induction false} HistoryTold(views: seq<View>, calls: seq<Call>) returns (fates: seq<H.AlertState>)
    requires Run(views, calls)
    ensures H.Agrees(views[|calls|].book, fates) && H.Count(fates, H.Inactive) == Resolves(views, calls)
    decreases |calls|
  {
    hide Step, Sound, H.Agrees, H.Count, Resolving;
    if calls == [] {
      fates := [];
      EmptyAgrees(|views[0].book.slots|);
    } else {
      var n := |calls| - 1;
      LastStep(views, calls);
      var before := HistoryTold(views[..n + 1], calls[..n]);
      fates := BookAfter(views[n], calls[n], views[n + 1], before);
    }
  }

  lemma EmptyAgrees(capacity: nat)
    requires capacity > 0
    ensures H.Agrees(H.EmptyBook(capacity), []) && H.Count([], H.Inactive) == 0
  {
    H.RunAgrees(capacity, []);
  }

  /** Whatever calls are made, the alerts triggered are those counted active, those counted
      acknowledged and those resolved. */
  lemma Conservation(views: seq<View>, calls: seq<Call>)
    requires Run(views, calls)
    ensures var b := views[|calls|].book;
            b.triggered == b.active + b.acknowledged + Resolves(views, calls)
  {
    hide Resolves, Step, Sound, H.Count;
    var fates := HistoryTold(views, calls);
    H.CountParts(fates);
  }

  /** Whatever calls are made, the alert with id k is in slot (k - 1) mod capacity of the
      history as long as it is among the last capacity alerts, and nothing else is there. */
  lemma RingHoldsLast(views: seq<View>, calls: seq<Call>, id: nat)
    requires Run(views, calls)
    ensures H.WellFormed(views[|calls|].book) && H.HoldsLast(views[|calls|].book, id)
  {
    hide Resolves, Step, Sound, H.Count;
    var fates := HistoryTold(views, calls);
    H.AgreesHoldsLast(views[|calls|].book, fates, id);
  }

  /** And an acknowledgement or a resolution succeeds exactly on an alert that is kept and
      active, or kept and not resolved. */
  lemma FoundExactly(views: seq<View>, calls: seq<Call>, d: H.Deed)
    requires Run(views, calls) && !d.Raise?
    ensures var b := views[|calls|].book;
            H.WellFormed(b) && (H.Do(b, d).found <==> H.Kept(b, d.id) && H.Fits(b.slots[(d.id - 1) % |b.slots|], d))
  {
    hide Resolves, Step, Sound, H.Count;
    var fates := HistoryTold(views, calls);
    H.FoundExactly(views[|calls|].book, fates, d);
  }
}
