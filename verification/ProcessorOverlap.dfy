/**
 What happens in the event processor when submitters or workers overlap in the calls of its
 ring: RingOverlap carried to the whole processor. What a thread of the ring does, the
 processor can do, so the entries that are not harmless are exactly those that can lose the
 order of events, and two workers can come to handle one event.
 */
module ProcessorOverlap {
  import opened ProcessorRing
  import E = EventProcessor
  import P = EventPool
  import Q = RingQueue
  import O = RingOverlap

  // ----- chains of steps -----

  ghost predicate Chain(states: seq<State>, events: seq<Event>) {
    && |states| == |events| + 1
    && forall i :: 0 <= i < |events| ==> Steps(states[i], events[i], states[i + 1])
  }

  /** A chain in which every entry is harmless. */
  ghost predicate Tame(c: State, states: seq<State>, events: seq<Event>, c': State) {
    Chain(states, events) && Orderly(states, events) && states[0] == c && states[|events|] == c'
  }

  ghost predicate Reaches(c: State, c': State) {
    exists states, events :: Tame(c, states, events, c')
  }

  lemma Stay(c: State)
    ensures Reaches(c, c)
  {
    assert Tame(c, [c], [], c);
  }

  lemma One(c: State, v: Event, c': State)
    requires Steps(c, v, c') && Harmless(c, v)
    ensures Reaches(c, c')
  {
    hide Steps, Harmless;
    assert Tame(c, [c, c'], [v], c');
  }

  lemma Joined(c: State, states: seq<State>, events: seq<Event>, m: State, states': seq<State>, events': seq<Event>, c': State)
    requires Tame(c, states, events, m) && Tame(m, states', events', c')
    ensures Tame(c, states + states'[1..], events + events', c')
  {
    hide Steps, Harmless;
    var all, done := states + states'[1..], events + events';
    forall i | 0 <= i < |done| ensures Steps(all[i], done[i], all[i + 1]) && Harmless(all[i], done[i]) {
      if i < |events| {
        assert Steps(states[i], events[i], states[i + 1]) && Harmless(states[i], events[i]);
      } else {
        var j := i - |events|;
        assert all[i] == states'[j] && done[i] == events'[j] && all[i + 1] == states'[j + 1];
        assert Steps(states'[j], events'[j], states'[j + 1]) && Harmless(states'[j], events'[j]);
      }
    }
  }

  lemma Join(c: State, m: State, c': State)
    requires Reaches(c, m) && Reaches(m, c')
    ensures Reaches(c, c')
  {
    hide Steps, Harmless;
    var states, events :| Tame(c, states, events, m);
    var states', events' :| Tame(m, states', events', c');
    Joined(c, states, events, m, states', events', c');
  }

  // ----- what the ring does, the processor does -----

  /** Threads that enqueue are submitters with their events. */
  ghost predicate Linked(c: State) {
    && !c.ep.closing
    && forall t :: t in c.ring.producers ==> t in c.ep.submitters && c.ep.submitters[t] == E.Numbered(c.ring.producers[t].item)
  }

  /** The processor after a step of the ring that is no entry. */
  ghost function Does(c: State, q: Q.Step): State
    requires Linked(c) && Q.Indexed(c.ring) && Q.Enabled(c.ring, q)
  {
    State(
      match q
      case Reject(t) => Refused(c.ep, t)
      case Publish(t) => Accepted(c.ep, t, c.ring.producers[t].item)
      case Release(t) => HandedOver(c.ep, t, c.ring.consumers[t].item)
      case _ => c.ep,
      Q.Next(c.ring, q))
  }

  lemma DoesStep(c: State, q: Q.Step)
    requires Linked(c) && Q.Indexed(c.ring) && Q.Enabled(c.ring, q) && !q.Put? && !q.Take?
    ensures Steps(c, OnRing(q), Does(c, q)) && Harmless(c, OnRing(q)) && Linked(Does(c, q))
  {
  }

  lemma {:induction false} Follows(c: State, steps: seq<Q.Step>, s': Q.State) returns (c': State)
    requires Linked(c) && O.Path(c.ring, steps, s') && O.Inside(steps)
    ensures Reaches(c, c') && c'.ring == s' && Linked(c')
    decreases |steps|
  {
    hide Steps, Harmless, Reaches, Linked, Q.Indexed, Q.Enabled, Q.Next, Q.Harmless;
    if steps == [] {
      c' := c;
      Stay(c);
    } else {
      var q := steps[0];
      DoesStep(c, q);
      One(c, OnRing(q), Does(c, q));
      c' := Follows(Does(c, q), steps[1..], s');
      Join(c, Does(c, q), c');
    }
  }

  // ----- entries -----

  lemma PlainStep(c: State, e: E.Event) returns (c': State)
    requires E.Inv(c.ep) && IsPlain(c, e) && E.Enabled(c.ep, e)
    ensures Steps(c, Plain(e), c') && Harmless(c, Plain(e)) && E.Inv(c'.ep) && c'.ring == c.ring
    ensures E.Owned(c.ep) && c'.ep == E.Next(c.ep, e)
  {
    hide E.Next, E.Enabled, E.Balanced, E.Sequenced, P.Inv;
    E.InvOwned(c.ep);
    c' := State(E.Next(c.ep, e), c.ring);
    E.StepInv(c.ep, e, c'.ep);
  }

  lemma Begins(c: State, t: nat) returns (c': State)
    requires E.Inv(c.ep) && Linked(c) && t !in c.ep.submitters
    ensures Steps(c, Plain(E.Begin(t)), c') && Harmless(c, Plain(E.Begin(t))) && E.Inv(c'.ep) && c'.ring == c.ring
    ensures Linked(c') && E.At(c'.ep, t, E.Entered) && c'.ep.submitters.Keys == c.ep.submitters.Keys + {t}
  {
    hide E.Inv, E.Owned;
    c' := PlainStep(c, E.Begin(t));
  }

  lemma Allocates(c: State, t: nat) returns (c': State)
    requires E.Inv(c.ep) && Linked(c) && E.At(c.ep, t, E.Entered)
    ensures Steps(c, Plain(E.Allocate(t)), c') && Harmless(c, Plain(E.Allocate(t))) && E.Inv(c'.ep) && c'.ring == c.ring
    ensures Linked(c') && c'.ep.submitters.Keys == c.ep.submitters.Keys && c'.ep.submitters[t].Holding?
  {
    hide E.Inv, E.Owned, P.Step, P.Taken;
    c' := PlainStep(c, E.Allocate(t));
  }

  lemma Stamps(c: State, t: nat) returns (c': State)
    requires E.Inv(c.ep) && Linked(c) && t in c.ep.submitters && c.ep.submitters[t].Holding?
    ensures Steps(c, Plain(E.Stamp(t)), c') && Harmless(c, Plain(E.Stamp(t))) && E.Inv(c'.ep) && c'.ring == c.ring
    ensures Linked(c') && c'.ep.submitters.Keys == c.ep.submitters.Keys && c'.ep.submitters[t].Numbered?
  {
    hide E.Inv, E.Owned;
    c' := PlainStep(c, E.Stamp(t));
  }

  /** A new submitter gets an event and is about to enqueue it. */
  lemma Submits(c: State, t: nat) returns (c': State)
    requires E.Inv(c.ep) && Linked(c) && t !in c.ep.submitters
    ensures Reaches(c, c') && c'.ring == c.ring && Linked(c') && E.Inv(c'.ep)
    ensures c'.ep.submitters.Keys == c.ep.submitters.Keys + {t} && c'.ep.submitters[t].Numbered?
  {
    hide Steps, Harmless, Reaches, Linked, E.Inv;
    var c1 := Begins(c, t);
    One(c, Plain(E.Begin(t)), c1);
    var c2 := Allocates(c1, t);
    One(c1, Plain(E.Allocate(t)), c2);
    Join(c, c1, c2);
    c' := Stamps(c2, t);
    One(c2, Plain(E.Stamp(t)), c');
    Join(c, c2, c');
  }

  lemma EntersPut(c: State, t: nat) returns (c': State)
    requires Linked(c) && Q.Indexed(c.ring) && t in c.ep.submitters && c.ep.submitters[t].Numbered? && t !in c.ring.producers
    ensures var q := Q.Put(t, c.ep.submitters[t].event);
            Steps(c, OnRing(q), c') && c'.ring == Q.Next(c.ring, q) && Linked(c') && c'.ep == c.ep
  {
    c' := State(c.ep, Q.Next(c.ring, Q.Put(t, c.ep.submitters[t].event)));
  }

  lemma EntersTake(c: State, w: nat) returns (c': State)
    requires Linked(c) && Q.Indexed(c.ring) && w !in c.ring.consumers && w !in c.ep.workers
    ensures Steps(c, OnRing(Q.Take(w)), c') && c'.ring == Q.Next(c.ring, Q.Take(w)) && Linked(c')
  {
    c' := State(c.ep, Q.Next(c.ring, Q.Take(w)));
  }

  // ----- harmful entries -----

  /** A new submitter puts an event into the empty ring while two consumers overlap. */
  lemma Feeds(c: State, w: nat, u: nat) returns (c': State, t: nat)
    requires E.Inv(c.ep) && Linked(c) && Q.Indexed(c.ring) && Q.Queued(c.ring) && Q.Producing(c.ring) && |c.ring.data| > 1
    requires |c.ring.got| == |c.ring.put| && O.Overlap(c.ring, w, u)
    requires forall p :: p in c.ring.producers ==> Q.Refused(c.ring.producers[p], |c.ring.data|)
    ensures Reaches(c, c') && Linked(c') && Q.Indexed(c'.ring) && Q.Queued(c'.ring) && |c'.ring.data| > 1
    ensures |c'.ring.got| == |c'.ring.put| && c'.ring.consumers == c.ring.consumers && c'.ring.tail == c.ring.tail
    ensures O.Overlap(c'.ring, w, u) && O.Able(c'.ring, t)
  {
    hide Steps, Reaches, E.Inv, Q.Queued, Q.Producing, O.Overlap, O.Able;
    t := O.Beyond(c.ep.submitters.Keys);
    var c1 := Submits(c, t);
    var x := c1.ep.submitters[t].event;
    O.ProducerEnters(c1.ring, t, x);
    c' := EntersPut(c1, t);
    One(c1, OnRing(Q.Put(t, x)), c');
    Join(c, c1, c');
  }

  /** The producer goes on. */
  lemma Serves(c: State, w: nat, u: nat, p: nat) returns (c': State)
    requires Linked(c) && Q.Indexed(c.ring) && Q.Queued(c.ring) && |c.ring.data| > 1 && |c.ring.got| == |c.ring.put|
    requires O.Overlap(c.ring, w, u) && O.Able(c.ring, p)
    ensures Reaches(c, c') && Linked(c') && Q.Indexed(c'.ring) && Q.Queued(c'.ring) && |c'.ring.data| > 1 && |c'.ring.got| < |c'.ring.put|
    ensures O.Overlap(c'.ring, w, u) && c'.ring.consumers == c.ring.consumers && c'.ring.tail == c.ring.tail
  {
    hide Reaches, Linked, Q.Indexed, Q.Queued, O.Overlap, O.Path, O.Inside;
    O.OverlapWaits(c.ring, w, u, p);
    var steps := O.Adds(c.ring, p);
    c' := Follows(c, steps, O.Added(c.ring, p));
  }

  /** An item for consumers that overlap. */
  lemma Provides(c: State, w: nat, u: nat) returns (c': State)
    requires E.Inv(c.ep) && Linked(c) && Q.Indexed(c.ring) && Q.Queued(c.ring) && Q.Producing(c.ring) && |c.ring.data| > 1
    requires O.Overlap(c.ring, w, u)
    ensures Reaches(c, c') && Linked(c') && Q.Indexed(c'.ring) && Q.Queued(c'.ring) && |c'.ring.data| > 1 && |c'.ring.got| < |c'.ring.put|
    ensures O.Overlap(c'.ring, w, u) && c'.ring.consumers == c.ring.consumers && c'.ring.tail == c.ring.tail
  {
    hide Reaches, E.Inv, Linked, Q.Indexed, Q.Queued, Q.Producing, O.Overlap, O.Able;
    O.Ordered(c.ring);
    if |c.ring.got| < |c.ring.put| {
      c' := c;
      Stay(c);
    } else if p :| p in c.ring.producers && !Q.Refused(c.ring.producers[p], |c.ring.data|) {
      O.FirstItem(c.ring, p);
      c' := Serves(c, w, u, p);
    } else {
      var c1, t := Feeds(c, w, u);
      c' := Serves(c1, w, u, t);
      Join(c, c1, c');
    }
  }

  lemma TakeBreaks(c: State, w: nat, u: nat) returns (c': State)
    requires E.Inv(c.ep) && Linked(c) && Q.Indexed(c.ring) && Q.Queued(c.ring) && Q.Producing(c.ring) && |c.ring.data| > 1
    requires O.Overlap(c.ring, w, u)
    ensures Reaches(c, c') && !Q.Sane(c'.ring)
  {
    hide Reaches, E.Inv, Linked, Q.Indexed, Q.Queued, Q.Producing, O.Overlap, O.Path, O.Inside, Q.Sane;
    var c1 := Provides(c, w, u);
    var steps, s' := O.OverlapBreaks(c1.ring, w, u);
    c' := Follows(c1, steps, s');
    Join(c, c1, c');
  }

  /** A new worker enters the full ring, once those in it are bound to leave. */
  lemma Relieves(c: State, p: nat, q: nat) returns (c': State, w: nat)
    requires Linked(c) && Q.Indexed(c.ring) && Q.Queued(c.ring) && Q.Consuming(c.ring) && |c.ring.data| > 1
    requires |c.ring.put| + 1 == |c.ring.got| + |c.ring.data| && O.Crossing(c.ring, p, q)
    requires forall w :: w in c.ring.consumers ==> !O.Promising(c.ring, w)
    ensures Reaches(c, c') && Linked(c') && Q.Indexed(c'.ring) && Q.Queued(c'.ring) && |c'.ring.data| > 1
    ensures O.Crossing(c'.ring, p, q) && O.Promising(c'.ring, w)
  {
    hide Steps, Reaches, Linked, Q.Queued, Q.Consuming, O.Crossing, O.Promising, O.AllMissed, O.Path, O.Inside;
    var steps, s1 := O.Clears(c.ring);
    O.SameButConsumers(c.ring, s1);
    var c1 := Follows(c, steps, s1);
    w := O.Beyond(s1.consumers.Keys + c1.ep.workers.Keys);
    O.ConsumerEnters(s1, w);
    c' := EntersTake(c1, w);
    One(c1, OnRing(Q.Take(w)), c');
    Join(c, c1, c');
  }

  lemma PutBreaks(c: State, p: nat, q: nat) returns (c': State)
    requires Linked(c) && Q.Indexed(c.ring) && Q.Queued(c.ring) && Q.Consuming(c.ring) && |c.ring.data| > 1
    requires O.Crossing(c.ring, p, q)
    ensures Reaches(c, c') && !Q.Sane(c'.ring)
  {
    hide Reaches, Linked, Q.Indexed, Q.Queued, Q.Consuming, O.Crossing, O.Promising, O.Path, O.Inside, Q.Sane;
    O.Ordered(c.ring);
    if |c.ring.put| + 1 < |c.ring.got| + |c.ring.data| {
      var steps, s' := O.ProducersBreak(c.ring, p, q, 0);
      c' := Follows(c, steps, s');
    } else if w :| w in c.ring.consumers && O.Promising(c.ring, w) {
      var steps, s' := O.ProducersBreak(c.ring, p, q, w);
      c' := Follows(c, steps, s');
    } else {
      var c1, w := Relieves(c, p, q);
      var steps, s' := O.ProducersBreak(c1.ring, p, q, w);
      c' := Follows(c1, steps, s');
      Join(c, c1, c');
    }
  }

  /** A harmful entry: nobody overlaps once the processor is closing. */
  lemma HarmfulLinked(c: State, v: Event, c1: State)
    requires Inv(c) && Steps(c, v, c1) && !Harmless(c, v)
    ensures v.OnRing? && Q.Indexed(c.ring) && Q.Enabled(c.ring, v.q) && !Q.Harmless(c.ring, v.q)
    ensures c1.ep == c.ep && c1.ring == Q.Next(c.ring, v.q) && Linked(c1)
  {
    hide E.Recorded, E.Sequenced, P.Inv, Q.Inv;
  }

  lemma HarmfulBreaks(c: State, v: Event, c1: State) returns (c': State)
    requires Inv(c) && |c.ring.data| > 1 && Steps(c, v, c1) && !Harmless(c, v)
    ensures Reaches(c1, c') && !Q.Sane(c'.ring)
  {
    hide Steps, Harmless, Reaches, Linked, E.Inv, Q.Inv, Q.Sane, O.Overlap, O.Crossing, Q.Enabled, Q.Next, Q.Producing, Q.Consuming, Q.Queued;
    HarmfulLinked(c, v, c1);
    Q.IndexedKept(c.ring, v.q);
    var r := c.ring;
    if v.q.Take? {
      var w :| w in r.consumers && !Q.Missed(r.consumers[w]) && !Q.Late(r, r.consumers[w]);
      O.TakeOverlaps(r, w, v.q.t);
      c' := TakeBreaks(c1, w, v.q.t);
    } else {
      var p :| p in r.producers && !Q.Refused(r.producers[p], |r.data|);
      O.PutCrosses(r, p, v.q.t, v.q.item);
      c' := PutBreaks(c1, p, v.q.t);
    }
  }

  /** In a processor whose ring has two slots or more, after every run of harmless entries, the
      entries after which events can be handed out twice, out of nothing or not at all, with no
      harmful entry after it, are exactly those that are not harmless. */
  lemma BreaksExactly(states: seq<State>, events: seq<Event>, v: Event, c1: State)
    requires Run(states, events) && Orderly(states, events) && |states[|events|].ring.data| > 1
    requires Steps(states[|events|], v, c1)
    ensures (exists c' :: Reaches(c1, c') && !Q.Sane(c'.ring)) <==> !Harmless(states[|events|], v)
  {
    hide Steps, Harmless, Reaches, Inv, Q.Sane, E.Run;
    var c := states[|events|];
    var plain, steps := RunProjects(states, events);
    if Harmless(c, v) {
      StepProjects(c, v, c1);
      forall c' | Reaches(c1, c') ensures Q.Sane(c'.ring) {
        ReachesSane(c1, c');
      }
    } else {
      var c' := HarmfulBreaks(c, v, c1);
    }
  }

  lemma ReachesSane(c: State, c': State)
    requires Inv(c) && Reaches(c, c')
    ensures Q.Sane(c'.ring)
  {
    hide Inv, Tame;
    var states, events :| Tame(c, states, events, c');
    TameKeeps(c, states, events, c');
    InvSane(c');
  }

  lemma InvSane(c: State)
    requires Inv(c)
    ensures Q.Sane(c.ring)
  {
    Q.InvSane(c.ring);
  }

  lemma {:induction false} TameKeeps(c: State, states: seq<State>, events: seq<Event>, c': State)
    requires Inv(c) && Tame(c, states, events, c')
    ensures Inv(c')
    decreases |events|
  {
    hide Inv, Steps, Harmless;
    if events != [] {
      var n := |events| - 1;
      assert Tame(c, states[..n + 1], events[..n], states[n]);
      TameKeeps(c, states[..n + 1], events[..n], states[n]);
      StepProjects(states[n], events[n], states[n + 1]);
    }
  }

  // ----- one event in two hands -----

  ghost predicate SameEvent(c: State, w: nat, u: nat) {
    w in c.ep.workers && u in c.ep.workers && c.ep.workers[w].Handling? && c.ep.workers[w] == c.ep.workers[u]
  }

  lemma BothHandle(c: State, w: nat, u: nat) returns (c': State)
    requires Linked(c) && Q.Indexed(c.ring) && w != u && O.Promising(c.ring, w) && O.Promising(c.ring, u) && c.ring.consumers[u].Asks?
    ensures Reaches(c, c') && SameEvent(c', w, u)
  {
    hide Reaches, O.Path, O.Inside, O.Promising;
    var steps := O.SameItem(c.ring, w, u);
    var c1 := Follows(c, steps, O.BothHold(c.ring, w, u));
    c' := BothRelease(c1, w, u);
    Join(c, c1, c');
  }

  lemma BothRelease(c: State, w: nat, u: nat) returns (c': State)
    requires Linked(c) && Q.Indexed(c.ring) && w != u && w in c.ring.consumers && u in c.ring.consumers
    requires c.ring.consumers[w].Fetched? && c.ring.consumers[u] == c.ring.consumers[w]
    ensures Reaches(c, c') && SameEvent(c', w, u)
  {
    hide Reaches;
    DoesStep(c, Q.Release(w));
    var c1 := Does(c, Q.Release(w));
    One(c, OnRing(Q.Release(w)), c1);
    Q.IndexedKept(c.ring, Q.Release(w));
    DoesStep(c1, Q.Release(u));
    c' := Does(c1, Q.Release(u));
    One(c1, OnRing(Q.Release(u)), c');
    Join(c, c1, c');
  }

  /** After every run of harmless entries, when a worker enters while another is in the call,
      that is not bound to leave and did not load the head of an empty ring, both can come to
      handle the same event. */
  lemma TwoHands(states: seq<State>, events: seq<Event>, w: nat, u: nat, c1: State) returns (c': State)
    requires Run(states, events) && Orderly(states, events) && |states[|events|].ring.data| > 1
    requires Steps(states[|events|], OnRing(Q.Take(u)), c1)
    requires var r := states[|events|].ring;
             w in r.consumers && !Q.Missed(r.consumers[w]) && !O.SawEmpty(r, r.consumers[w])
    ensures Reaches(c1, c') && SameEvent(c', w, u)
  {
    hide Steps, Harmless, Reaches, E.Run, E.Inv, Q.Inv, SameEvent, Linked, O.Promising, Q.Queued, Q.Producing;
    var c := states[|events|];
    var plain, steps := RunProjects(states, events);
    TakeLinked(c, w, u, c1);
    O.TakeOverlaps(c.ring, w, u);
    var c2 := Provides(c1, w, u);
    O.GoesOn(c2.ring, w);
    O.GoesOn(c2.ring, u);
    c' := BothHandle(c2, w, u);
    Join(c1, c2, c');
  }

  lemma TakeLinked(c: State, w: nat, u: nat, c1: State)
    requires Inv(c) && Steps(c, OnRing(Q.Take(u)), c1) && w in c.ring.consumers
    ensures Q.Inv(c.ring) && Q.Indexed(c.ring) && Q.Enabled(c.ring, Q.Take(u))
    ensures c1.ep == c.ep && c1.ring == Q.Next(c.ring, Q.Take(u)) && Linked(c1) && |c1.ring.data| == |c.ring.data|
  {
    hide E.Inv, Q.Inv;
    Q.IndexedKept(c.ring, Q.Take(u));
  }

  /** From the start of every processor whose ring has two slots or more, there is a run after
      which two workers handle one event. */
  lemma TwoWorkersOneEvent(c: State) returns (states: seq<State>, events: seq<Event>)
    requires Start(c) && |c.ring.data| > 1
    ensures Run(states, events) && states[0] == c && SameEvent(states[|events|], 1, 2)
  {
    hide Steps, Harmless, Reaches, E.Start, Q.Start, SameEvent;
    var c1, c2 := WorkersEnter(c);
    states, events := [c, c1], [OnRing(Q.Take(1))];
    var c' := TwoHands(states, events, 1, 2, c2);
    states, events := Continued(states + [c2], events + [OnRing(Q.Take(2))], c');
  }

  lemma WorkersEnter(c: State) returns (c1: State, c2: State)
    requires Start(c)
    ensures Steps(c, OnRing(Q.Take(1)), c1) && Harmless(c, OnRing(Q.Take(1))) && Steps(c1, OnRing(Q.Take(2)), c2)
    ensures 1 in c1.ring.consumers && c1.ring.consumers[1].Asks? && |c1.ring.data| == |c.ring.data|
  {
    c1 := State(c.ep, Q.Next(c.ring, Q.Take(1)));
    c2 := State(c.ep, Q.Next(c1.ring, Q.Take(2)));
  }

  lemma Continued(states: seq<State>, events: seq<Event>, c': State) returns (states': seq<State>, events': seq<Event>)
    requires Run(states, events) && Reaches(states[|events|], c')
    ensures Run(states', events') && states <= states' && events <= events' && states'[|events'|] == c'
  {
    hide Steps, Harmless, Start;
    var m := states[|events|];
    var more, done :| Tame(m, more, done, c');
    states', events' := states + more[1..], events + done;
    forall i | 0 <= i < |events'| ensures Steps(states'[i], events'[i], states'[i + 1]) {
      if i < |events| {
        assert Steps(states[i], events[i], states[i + 1]);
      } else {
        var j := i - |events|;
        assert states'[i] == more[j] && events'[i] == done[j] && states'[i + 1] == more[j + 1];
      }
    }
  }

  /** And one after which two events were enqueued, no thread is in a call of the ring, and the
      ring has one of them only: nobody will give the other back. */
  lemma EventLost(c: State) returns (states: seq<State>, events: seq<Event>)
    requires Start(c) && |c.ring.data| > 1
    ensures Run(states, events) && states[0] == c
    ensures var r := states[|events|].ring;
            && |r.put| == 2 && r.got == [] && r.producers == map[] && r.consumers == map[]
            && r.tail < |r.data| && Q.Size(r) == 1
  {
    hide Steps, Harmless, Reaches, E.Inv, E.Start, O.Path, O.Inside, Linked;
    StartsLinked(c);
    var c1 := Submits(c, 0);
    var c2 := EntersPut(c1, 0);
    AloneHarmless(c1, Q.Put(0, c1.ep.submitters[0].event));
    One(c1, OnRing(Q.Put(0, c1.ep.submitters[0].event)), c2);
    Join(c, c1, c2);
    var c3 := Submits(c2, 1);
    Join(c, c2, c3);
    var c4 := EntersPut(c3, 1);
    var c' := BothEnqueue(c4, 0, 1);
    states, events := Continued([c], [], c3);
    events := events + [OnRing(Q.Put(1, c3.ep.submitters[1].event))];
    states, events := Continued(states + [c4], events, c');
    assert states[0] == c;
  }

  lemma StartsLinked(c: State)
    requires Start(c)
    ensures E.Inv(c.ep) && Linked(c) && c.ep.submitters == map[] && Q.Start(c.ring) && Run([c], [])
  {
    E.StartInv(c.ep);
  }

  lemma AloneHarmless(c: State, q: Q.Step)
    requires Q.Indexed(c.ring) && c.ring.producers == map[] && q.Put?
    ensures Harmless(c, OnRing(q))
  {
  }

  lemma BothEnqueue(c: State, p: nat, q: nat) returns (c': State)
    requires Linked(c) && Q.Indexed(c.ring) && p != q && O.Able(c.ring, p) && O.Able(c.ring, q)
    requires c.ring.producers[p].Wants? && c.ring.producers[q].Wants?
    ensures Reaches(c, c') && c'.ring == O.WrittenOver(c.ring, p, q)
  {
    hide Reaches, O.Path, Linked, Steps;
    var steps := O.BothWrite(c.ring, p, q);
    O.BothPublish(c.ring, p, q);
    var end := O.WrittenOver(c.ring, p, q);
    O.Join(c.ring, steps, O.Written(O.Written(c.ring, p), q), [Q.Publish(p), Q.Publish(q)], end);
    c' := Follows(c, steps + [Q.Publish(p), Q.Publish(q)], end);
  }
}
