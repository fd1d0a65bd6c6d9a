/**
 One alert rule (alert_manager.c): a trigger is refused while the rule is suppressed, and
 when the ring of the last rate_limit_count trigger times shows that many triggers in the
 window. The log of all triggers of a run is the reference the ring is compared with.
 */
module AlertRules {
  import opened Common
  import opened RingBuffer

  /** A rule's limits, its ring of trigger times and its suppression. */
  datatype Entry = Entry(
    enabled: bool, limit: nat, window: nat, quiet: nat,
    times: seq<int>, count: nat, index: nat,
    suppressed: bool, until: int)

  datatype Outcome = Passed | RateLimited | Triggered

  datatype Attempted = Attempted(entry: Entry, outcome: Outcome)

  predicate Limits(e: Entry) {
    e.limit > 0 && e.window > 0
  }

  predicate WellFormed(e: Entry) {
    Limits(e) ==> |e.times| == e.limit && e.count <= e.limit && e.index < e.limit
  }

  function Fresh(enabled: bool, limit: nat, window: nat, quiet: nat): (e: Entry)
    ensures WellFormed(e)
  {
    var times := if limit > 0 && window > 0 then seq(limit, _ => 0) else [];
    Entry(enabled, limit, window, quiet, times, 0, 0, false, 0)
  }

  /** How many of the times are not before start. */
  function Since(times: seq<int>, start: int): nat {
    if times == [] then 0 else
      var n := |times| - 1;
      Since(times[..n], start) + if times[n] >= start then 1 else 0
  }

  predicate Refuses(e: Entry, now: int)
    requires WellFormed(e)
  {
    Limits(e) && Since(e.times[..e.count], now - e.window) >= e.limit
  }

  function Record(e: Entry, now: int): (r: Entry)
    requires WellFormed(e)
    ensures WellFormed(r)
  {
    if !Limits(e) then e else
      e.(times := e.times[e.index := now],
         index := (e.index + 1) % e.limit,
         count := if e.count < e.limit then e.count + 1 else e.count)
  }

  function Quieten(e: Entry, now: int): Entry {
    if e.quiet > 0 then e.(suppressed := true, until := now + e.quiet) else e
  }

  predicate Silenced(e: Entry, now: int) {
    e.suppressed && now < e.until
  }

  /** What one event does to the rule, given whether the condition accepts it. */
  function Attempt(e: Entry, matches: bool, now: int): (r: Attempted)
    requires WellFormed(e)
    ensures WellFormed(r.entry)
  {
    if !e.enabled || Silenced(e, now) then Attempted(e, Passed) else
      var awake := e.(suppressed := false);
      if !matches then Attempted(awake, Passed)
      else if Refuses(awake, now) then Attempted(awake, RateLimited)
      else Attempted(Quieten(Record(awake, now), now), Triggered)
  }

  // ----- runs of one rule -----

  datatype Act =
    | Consider(now: int, matches: bool)
    | Suppress(now: int, seconds: nat)
    | Unsuppress(now: int)
    | SetEnabled(now: int, on: bool)

  function Perform(e: Entry, a: Act): (r: Attempted)
    requires WellFormed(e)
    ensures WellFormed(r.entry)
  {
    match a
    case Consider(now, matches) => Attempt(e, matches, now)
    case Suppress(now, seconds) => Attempted(if seconds == 0 then e else e.(suppressed := true, until := now + seconds), Passed)
    case Unsuppress(_) => Attempted(e.(suppressed := false, until := 0), Passed)
    case SetEnabled(_, on) => Attempted(e.(enabled := on), Passed)
  }

  /** The rule and the times of all its triggers so far. */
  datatype Progress = Progress(entry: Entry, log: seq<int>)

  function Advance(p: Progress, a: Act): (r: Progress)
    requires WellFormed(p.entry)
    ensures WellFormed(r.entry)
  {
    var t := Perform(p.entry, a);
    Progress(t.entry, if t.outcome.Triggered? then p.log + [a.now] else p.log)
  }

  function After(e: Entry, acts: seq<Act>): (p: Progress)
    requires WellFormed(e)
    ensures WellFormed(p.entry)
  {
    if acts == [] then Progress(e, []) else Advance(After(e, acts[..|acts| - 1]), acts[|acts| - 1])
  }

  /** The clock does not go back. */
  predicate Clock(acts: seq<Act>) {
    forall i, j :: 0 <= i <= j < |acts| ==> acts[i].now <= acts[j].now
  }

  predicate Sorted(log: seq<int>) {
    forall i, j :: 0 <= i <= j < |log| ==> log[i] <= log[j]
  }

  // ----- counting in a sorted log -----

  lemma {:induction false} SinceAll(times: seq<int>, start: int)
    ensures Since(times, start) <= |times|
    ensures Since(times, start) == |times| <==> forall i :: 0 <= i < |times| ==> times[i] >= start
  {
    if times != [] {
      var n := |times| - 1;
      SinceAll(times[..n], start);
      assert forall i :: 0 <= i < n ==> times[..n][i] == times[i];
      assert (forall i :: 0 <= i < |times| ==> times[i] >= start) <==> (forall i :: 0 <= i < n ==> times[i] >= start) && times[n] >= start;
    }
  }

  /** In a sorted log, r entries are in the window exactly when the r-th last one is. */
  lemma {:induction false} SinceSorted(log: seq<int>, start: int, r: nat)
    requires Sorted(log) && r > 0
    ensures Since(log, start) >= r <==> |log| >= r && log[|log| - r] >= start
  {
    if log != [] {
      var n := |log| - 1;
      if r > 1 {
        SinceSorted(log[..n], start, r - 1);
      }
      if log[n] < start {
        SinceSorted(log[..n], start, r);
      }
    }
  }

  // ----- the ring stands for the log -----

  ghost predicate Mirrors(e: Entry, log: seq<int>) {
    Limits(e) ==>
      && |e.times| == e.limit
      && e.count == Min(|log|, e.limit)
      && e.index == |log| % e.limit
      && HoldsEnd(e.times, log)
  }

  /** The ring has every one of its filled slots in the window exactly when the log has
      entries enough there. */
  lemma RingCountsLog(e: Entry, log: seq<int>, start: int)
    requires Limits(e) && Mirrors(e, log) && Sorted(log)
    ensures Since(e.times[..e.count], start) >= e.limit <==> Since(log, start) >= e.limit
  {
    hide Since;
    var ring, n := e.times[..e.count], |log|;
    SinceAll(ring, start);
    SinceSorted(log, start, e.limit);
    if n >= e.limit && log[n - e.limit] >= start {
      forall j | 0 <= j < |ring| ensures ring[j] >= start {
        var k := EntryAt(n, e.limit, j);
        assert log[k] == e.times[k % e.limit];
        assert log[n - e.limit] <= log[k];
      }
    } else if n >= e.limit {
      assert log[n - e.limit] == ring[(n - e.limit) % e.limit];
    }
  }

  /** The ring refuses exactly when the full log would. */
  lemma RefusesByLog(e: Entry, log: seq<int>, now: int)
    requires WellFormed(e) && Mirrors(e, log) && Sorted(log)
    ensures Refuses(e, now) <==> Limits(e) && Since(log, now - e.window) >= e.limit
  {
    hide Since, Mirrors;
    if Limits(e) {
      RingCountsLog(e, log, now - e.window);
    }
  }

  lemma RecordMirrors(e: Entry, log: seq<int>, now: int)
    requires WellFormed(e) && Mirrors(e, log)
    ensures Mirrors(Record(e, now), log + [now])
  {
    if Limits(e) {
      Append(e.times, log, now);
      NextSlot(|log|, e.limit);
    }
  }

  // ----- what every run keeps -----

  /** Any limit + 1 successive triggers span more than the window. */
  ghost predicate Spaced(log: seq<int>, limit: nat, window: nat) {
    forall i {:trigger log[i]} :: 0 <= i && i + limit < |log| ==> log[i] + window < log[i + limit]
  }

  ghost predicate Kept(p: Progress, now: int) {
    && WellFormed(p.entry)
    && Mirrors(p.entry, p.log)
    && Sorted(p.log)
    && (forall i :: 0 <= i < |p.log| ==> p.log[i] <= now)
    && (Limits(p.entry) ==> Spaced(p.log, p.entry.limit, p.entry.window))
  }

  lemma TriggerKeeps(p: Progress, now: int)
    requires Kept(p, now) && !Refuses(p.entry, now)
    ensures Kept(Progress(Record(p.entry, now), p.log + [now]), now)
  {
    hide Mirrors, Refuses, Since;
    var e, log := p.entry, p.log;
    RecordMirrors(e, log, now);
    RefusesByLog(e, log, now);
    if Limits(e) {
      SinceSorted(log, now - e.window, e.limit);
    }
  }

  lemma AdvanceKeeps(p: Progress, a: Act, now: int)
    requires Kept(p, now) && now <= a.now
    ensures Kept(Advance(p, a), a.now)
    ensures Advance(p, a).entry.limit == p.entry.limit && Advance(p, a).entry.window == p.entry.window
  {
    hide Spaced, HoldsEnd, Since, Sorted;
    if a.Consider? {
      var awake := p.entry.(suppressed := false);
      if Attempt(p.entry, a.matches, a.now).outcome.Triggered? {
        assert Kept(Progress(awake, p.log), a.now);
        TriggerKeeps(Progress(awake, p.log), a.now);
      }
    }
  }

  lemma {:induction false} RunKeeps(e: Entry, acts: seq<Act>, now: int)
    requires e == Fresh(e.enabled, e.limit, e.window, e.quiet)
    requires Clock(acts) && forall i :: 0 <= i < |acts| ==> acts[i].now <= now
    ensures Kept(After(e, acts), now)
    ensures After(e, acts).entry.limit == e.limit && After(e, acts).entry.window == e.window
  {
    hide Advance, Kept;
    if acts == [] {
      FreshKept(e, now);
    } else {
      var n := |acts| - 1;
      RunKeeps(e, acts[..n], acts[n].now);
      AdvanceKeeps(After(e, acts[..n]), acts[n], acts[n].now);
      Later(After(e, acts), acts[n].now, now);
    }
  }

  lemma FreshKept(e: Entry, now: int)
    requires e == Fresh(e.enabled, e.limit, e.window, e.quiet)
    ensures Kept(Progress(e, []), now)
  {
  }

  lemma Later(p: Progress, now: int, later: int)
    requires Kept(p, now) && now <= later
    ensures Kept(p, later)
  {
  }

  // ----- the guarantees -----

  /** How many of the times are in the span. */
  function Between(log: seq<int>, from: int, to: int): nat {
    if log == [] then 0 else
      var n := |log| - 1;
      Between(log[..n], from, to) + if from <= log[n] <= to then 1 else 0
  }

  lemma {:induction false} BetweenIsSince(log: seq<int>, from: int, to: int)
    requires forall i :: 0 <= i < |log| ==> log[i] <= to
    ensures Between(log, from, to) == Since(log, from)
  {
    if log != [] {
      BetweenIsSince(log[..|log| - 1], from, to);
    }
  }

  lemma {:induction false} SpanBound(log: seq<int>, limit: nat, window: nat, from: int)
    requires Sorted(log) && Spaced(log, limit, window)
    ensures Between(log, from, from + window) <= limit
  {
    if log != [] {
      var n := |log| - 1;
      if log[n] > from + window {
        SpanBound(log[..n], limit, window, from);
      } else {
        BetweenIsSince(log, from, from + window);
        SinceSorted(log, from, limit + 1);
      }
    }
  }

  /** Whatever happens to a rule limited to limit triggers per window seconds, no span of
      window seconds, both ends included, holds more than limit of its triggers. */
  lemma SlidingWindow(e: Entry, acts: seq<Act>, from: int)
    requires e == Fresh(e.enabled, e.limit, e.window, e.quiet) && Limits(e) && Clock(acts)
    ensures Between(After(e, acts).log, from, from + e.window) <= e.limit
  {
    RunKeeps(e, acts, if acts == [] then 0 else acts[|acts| - 1].now);
    SpanBound(After(e, acts).log, e.limit, e.window, from);
  }

  /** After any run, an event the rule is on, awake and matched for is refused when the log of
      all past triggers has limit of them in the window, and otherwise triggers and is logged;
      any other event does neither. */
  lemma RefusedExactly(e: Entry, acts: seq<Act>, now: int, matches: bool)
    requires e == Fresh(e.enabled, e.limit, e.window, e.quiet)
    requires Clock(acts) && forall i :: 0 <= i < |acts| ==> acts[i].now <= now
    ensures var p := After(e, acts);
            var due := p.entry.enabled && !Silenced(p.entry, now) && matches;
            var full := Limits(e) && Since(p.log, now - e.window) >= e.limit;
            && Attempt(p.entry, matches, now).outcome == (if !due then Passed else if full then RateLimited else Triggered)
            && Advance(p, Consider(now, matches)).log == p.log + if due && !full then [now] else []
  {
    hide After, Since;
    RunKeeps(e, acts, now);
    var p := After(e, acts);
    var awake := p.entry.(suppressed := false);
    RefusesByLog(awake, p.log, now);
  }

  // ----- suppression -----

  predicate Manual(a: Act) {
    a.Suppress? || a.Unsuppress?
  }

  ghost predicate Apart(log: seq<int>, quiet: nat) {
    forall i {:trigger log[i]} :: 0 <= i && i + 1 < |log| ==> log[i] + quiet <= log[i + 1]
  }

  /** The last trigger still suppresses the rule, or is long enough ago; nothing else does. */
  ghost predicate Waits(p: Progress, now: int) {
    && Apart(p.log, p.entry.quiet)
    && (p.entry.suppressed ==> p.log != [] && p.entry.until == p.log[|p.log| - 1] + p.entry.quiet)
    && (p.log != [] ==>
          var due := p.log[|p.log| - 1] + p.entry.quiet;
          (p.entry.suppressed && p.entry.until == due) || due <= now)
  }

  lemma AdvanceWaits(p: Progress, a: Act, now: int)
    requires WellFormed(p.entry) && Waits(p, now) && now <= a.now && !Manual(a)
    ensures Waits(Advance(p, a), a.now)
    ensures Advance(p, a).entry.quiet == p.entry.quiet
  {
    hide Refuses;
  }

  /** Unless the rule is suppressed or unsuppressed by hand, successive triggers are at least
      the suppression time apart. */
  lemma {:induction false} TriggersApart(e: Entry, acts: seq<Act>)
    requires e == Fresh(e.enabled, e.limit, e.window, e.quiet) && Clock(acts)
    requires forall i :: 0 <= i < |acts| ==> !Manual(acts[i])
    ensures Apart(After(e, acts).log, e.quiet)
    ensures After(e, acts).entry.quiet == e.quiet
    ensures acts != [] ==> Waits(After(e, acts), acts[|acts| - 1].now)
  {
    hide Advance;
    if acts != [] {
      var n := |acts| - 1;
      TriggersApart(e, acts[..n]);
      AdvanceWaits(After(e, acts[..n]), acts[n], if n == 0 then acts[n].now else acts[n - 1].now);
    }
  }

  /** The log alone decides: without suppression by hand, an event that an enabled rule's
      condition accepts triggers exactly when the last trigger is at least quiet ago and fewer
      than limit triggers are in the window. */
  lemma DecidedByLog(e: Entry, acts: seq<Act>, now: int)
    requires e == Fresh(e.enabled, e.limit, e.window, e.quiet)
    requires Clock(acts) && forall i :: 0 <= i < |acts| ==> acts[i].now <= now && !Manual(acts[i])
    ensures var p := After(e, acts);
            Attempt(p.entry, true, now).outcome.Triggered? <==>
              && p.entry.enabled
              && (p.log == [] || p.log[|p.log| - 1] + e.quiet <= now)
              && !(Limits(e) && Since(p.log, now - e.window) >= e.limit)
  {
    hide Since, Advance, Attempt;
    RefusedExactly(e, acts, now, true);
    TriggersApart(e, acts);
  }
}
