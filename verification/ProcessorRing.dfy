/**
 The event processor over its lock-free ring: submitters enqueue and workers dequeue by the
 loads and stores of RingQueue, interleaved with all other steps of EventProcessor. As long
 as no thread enters either call to harm (RingQueue.Harmless), every run is one of the
 processor with an atomic queue, so that its theorems hold here too.
 */
module ProcessorRing {
  import opened Common
  import E = EventProcessor
  import P = EventPool
  import Q = RingQueue

  /** The queue in ep is kept for the statements only; threads act on what the ring gave. */
  datatype State = State(ep: E.State, ring: Q.State)

  datatype Event = Plain(e: E.Event) | OnRing(q: Q.Step)

  /** Steps that do not touch the queue; closing waits for all threads. */
  predicate IsPlain(c: State, e: E.Event) {
    && !e.Enqueue? && !e.EnqueueFails? && !e.Dequeue? && !e.Drain?
    && (e.Close? ==> c.ring.producers == map[] && c.ring.consumers == map[])
  }

  /** A submitter whose item x the head has moved over. */
  ghost function Accepted(ep: E.State, t: nat, x: nat): E.State {
    E.Moved(ep, t, E.Queued).(
      queue := ep.queue + [x], n := ep.n.(enqueued := ep.n.enqueued + 1), holder := ep.holder[x := E.AtPlace(ep.n.enqueued)])
  }

  ghost function Refused(ep: E.State, t: nat): E.State
    requires t in ep.submitters && ep.submitters[t].Numbered?
  {
    E.Moved(ep, t, E.Rejecting(ep.submitters[t].event)).(n := ep.n.(failed := ep.n.failed + 1))
  }

  /** A worker that has item x from the ring. */
  ghost function HandedOver(ep: E.State, w: nat, x: nat): E.State {
    ep.(queue := Rest(ep.queue), n := ep.n.(dequeued := ep.n.dequeued + 1),
        workers := ep.workers[w := E.Handling(x)], holder := ep.holder[x := E.ByWorker(w)])
  }

  /** The destroying thread that has item x from the ring. */
  ghost function Drained(ep: E.State, x: nat): E.State
    requires x in ep.pool.out
  {
    E.GivenBack(ep, x).(queue := Rest(ep.queue), n := ep.n.(dequeued := ep.n.dequeued + 1, drained := ep.n.drained + 1))
  }

  function Rest(q: seq<nat>): seq<nat> {
    if q == [] then [] else q[1..]
  }

  /** Once closing, one thread empties the ring. */
  ghost predicate Steps(c: State, v: Event, c': State) {
    match v
    case Plain(e) => IsPlain(c, e) && E.Steps(c.ep, e, c'.ep) && c'.ring == c.ring
    case OnRing(q) =>
      && Q.Leads(c.ring, q, c'.ring)
      && match q
         case Put(t, item) => t in c.ep.submitters && c.ep.submitters[t] == E.Numbered(item) && c'.ep == c.ep
         case Take(t) => t !in c.ep.workers && (c.ep.closing ==> c.ring.consumers == map[]) && c'.ep == c.ep
         case Reject(t) => t in c.ep.submitters && c.ep.submitters[t].Numbered? && c'.ep == Refused(c.ep, t)
         case Publish(t) => c'.ep == Accepted(c.ep, t, c.ring.producers[t].item)
         case Release(t) =>
           var x := c.ring.consumers[t].item;
           if c.ep.closing then (x in c.ep.pool.out ==> c'.ep == Drained(c.ep, x)) else c'.ep == HandedOver(c.ep, t, x)
         case _ => c'.ep == c.ep
  }

  ghost predicate Harmless(c: State, v: Event) {
    v.OnRing? ==> Q.Indexed(c.ring) && Q.Harmless(c.ring, v.q)
  }

  /** The ring holds the queue, its producers are submitters with their events, and its
      consumers are threads without one. */
  ghost predicate Coupled(c: State) {
    && Q.Inv(c.ring) && Q.Contents(c.ring) == c.ep.queue && c.ep.size + 1 == |c.ring.data|
    && (forall t :: t in c.ring.producers ==> t in c.ep.submitters && c.ep.submitters[t] == E.Numbered(c.ring.producers[t].item))
    && (forall w :: w in c.ring.consumers ==> w !in c.ep.workers)
  }

  ghost predicate Inv(c: State) {
    E.Inv(c.ep) && Coupled(c)
  }

  /** The step of the processor with an atomic queue that a step carries out, if any. */
  function Projected(c: State, v: Event): Option<E.Event> {
    match v
    case Plain(e) => Some(e)
    case OnRing(q) =>
      match q
      case Reject(t) => Some(E.EnqueueFails(t))
      case Publish(t) => Some(E.Enqueue(t))
      case Release(t) => Some(if c.ep.closing then E.Drain else E.Dequeue(t))
      case _ => None
  }

  lemma RingProjects(c: State, v: Event, c': State)
    requires Inv(c) && Steps(c, v, c') && v.OnRing? && Harmless(c, v)
    ensures Projected(c, v).None? ==> c'.ep == c.ep
    ensures Projected(c, v).Some? ==> E.Steps(c.ep, Projected(c, v).value, c'.ep)
  {
    hide E.Inv, Q.Inv, E.Owned, P.Step;
    Q.StepRefines(c.ring, v.q);
    if v.q.Release? {
      OwnsFront(c, v.q.t);
    }
  }

  lemma PlainCoupled(c: State, v: Event, c': State)
    requires Inv(c) && Steps(c, v, c') && v.Plain?
    ensures Coupled(c')
  {
    hide E.Inv, Q.Inv, P.Step, P.Taken, E.Owned, Q.Contents;
    PlainKeeps(c, v.e, c'.ep);
  }

  /** A step that does not touch the queue leaves it alone, and no submitter that is about to
      enqueue, nor a thread without an event, is moved by it. */
  lemma PlainKeeps(c: State, e: E.Event, ep': E.State)
    requires E.Inv(c.ep) && IsPlain(c, e) && E.Steps(c.ep, e, ep')
    ensures ep'.queue == c.ep.queue && ep'.size == c.ep.size
    ensures forall t :: t in c.ep.submitters && c.ep.submitters[t].Numbered? ==> t in ep'.submitters && ep'.submitters[t] == c.ep.submitters[t]
    ensures forall w :: w !in c.ep.workers ==> w !in ep'.workers
  {
    hide P.Step, P.Taken, E.Owned, E.Balanced, E.Recorded, E.Sequenced, P.Inv;
    E.InvOwned(c.ep);
  }

  lemma RingCoupled(c: State, v: Event, c': State)
    requires Inv(c) && Steps(c, v, c') && v.OnRing? && Harmless(c, v)
    ensures Coupled(c')
  {
    hide E.Inv, Q.Inv, P.Step, E.Owned, Q.Contents;
    assert Q.Enabled(c.ring, v.q) && c'.ring == Q.Next(c.ring, v.q);
    Q.StepKeeps(c.ring, v.q);
    Q.StepRefines(c.ring, v.q);
    RingThreads(c, v, c');
    RingQueueIs(c, v, c');
  }

  lemma RingThreads(c: State, v: Event, c': State)
    requires Inv(c) && Steps(c, v, c') && v.OnRing? && Harmless(c, v)
    ensures |c'.ring.data| == |c.ring.data| && c'.ep.size == c.ep.size
    ensures forall t :: t in c'.ring.producers ==> t in c'.ep.submitters && c'.ep.submitters[t] == E.Numbered(c'.ring.producers[t].item)
    ensures forall w :: w in c'.ring.consumers ==> w !in c'.ep.workers
  {
    hide E.Inv, P.Step, Q.Contents, Q.Queued, Q.Current, Q.Timely;
    if v.q.Release? {
      OwnsFront(c, v.q.t);
    }
  }

  /** What a thread takes from the ring is out of the pool. */
  lemma OwnsFront(c: State, t: nat)
    requires Inv(c) && Q.Enabled(c.ring, Q.Release(t))
    ensures c.ring.consumers[t].item in c.ep.pool.out
  {
    hide E.Balanced, E.Recorded, E.Sequenced, P.Inv;
    E.InvOwned(c.ep);
    Q.StepRefines(c.ring, Q.Release(t));
  }

  lemma RingQueueIs(c: State, v: Event, c': State)
    requires Inv(c) && Steps(c, v, c') && v.OnRing? && Harmless(c, v)
    ensures |c'.ring.got| <= |c'.ring.put| && Q.Contents(c'.ring) == c'.ep.queue
  {
    hide E.Inv, Q.Inv, P.Step, Q.Contents;
    Q.StepRefines(c.ring, v.q);
    if v.q.Release? {
      OwnsFront(c, v.q.t);
    }
  }

  /** Every step is a step of the processor with an atomic queue, or none at all to it. */
  lemma StepProjects(c: State, v: Event, c': State)
    requires Inv(c) && Steps(c, v, c') && Harmless(c, v)
    ensures Inv(c')
    ensures Projected(c, v).None? ==> c'.ep == c.ep
    ensures Projected(c, v).Some? ==> E.Steps(c.ep, Projected(c, v).value, c'.ep)
  {
    hide Steps, E.Inv, Coupled, E.Steps, Harmless;
    if v.Plain? {
      PlainStep(c, v, c');
      PlainCoupled(c, v, c');
    } else {
      RingProjects(c, v, c');
      RingCoupled(c, v, c');
    }
    if Projected(c, v).Some? {
      E.StepInv(c.ep, Projected(c, v).value, c'.ep);
    }
  }

  lemma PlainStep(c: State, v: Event, c': State)
    requires Steps(c, v, c') && v.Plain?
    ensures E.Steps(c.ep, v.e, c'.ep)
  {
  }

  // ----- runs -----

  ghost predicate Start(c: State) {
    E.Start(c.ep) && Q.Start(c.ring) && c.ep.size + 1 == |c.ring.data|
  }

  ghost predicate Run(states: seq<State>, events: seq<Event>) {
    && |states| == |events| + 1 && Start(states[0])
    && forall i :: 0 <= i < |events| ==> Steps(states[i], events[i], states[i + 1])
  }

  /** Every entry is harmless. */
  ghost predicate Orderly(states: seq<State>, events: seq<Event>) {
    |states| > |events| && forall i :: 0 <= i < |events| ==> Harmless(states[i], events[i])
  }

  lemma StartInv(c: State)
    requires Start(c)
    ensures Inv(c)
  {
    E.StartInv(c.ep);
    Q.StartInv(c.ring);
  }

  /** Every run over the ring in which every entry is harmless is a run of the processor with
      an atomic queue that ends in the same state. */
  lemma {:induction false} RunProjects(states: seq<State>, events: seq<Event>) returns (plain: seq<E.State>, steps: seq<E.Event>)
    requires Run(states, events) && Orderly(states, events)
    ensures Inv(states[|events|])
    ensures E.Run(plain, steps) && plain[|steps|] == states[|events|].ep
  {
    hide Steps, Harmless, Inv, E.Steps, E.Start;
    if events == [] {
      StartInv(states[0]);
      StartProjects(states[0]);
      plain, steps := [states[0].ep], [];
    } else {
      var n := |events| - 1;
      assert Run(states[..n + 1], events[..n]) && Orderly(states[..n + 1], events[..n]);
      plain, steps := RunProjects(states[..n + 1], events[..n]);
      assert Steps(states[n], events[n], states[n + 1]);
      StepProjects(states[n], events[n], states[n + 1]);
      var e := Projected(states[n], events[n]);
      if e.Some? {
        plain, steps := plain + [states[n + 1].ep], steps + [e.value];
      }
    }
  }

  lemma StartProjects(c: State)
    requires Start(c)
    ensures E.Start(c.ep)
  {
  }

  /** So over the ring, as long as every entry is harmless, no event is in two hands, none in
      any hand is free in the pool, and numbers of events differ. */
  lemma OneHandEach(states: seq<State>, events: seq<Event>, h: E.Holder, h': E.Holder)
    requires Run(states, events) && Orderly(states, events)
    requires h != h' && E.InHand(states[|events|].ep, h).Some? && E.InHand(states[|events|].ep, h').Some?
    ensures var s := states[|events|].ep;
            var x, y := E.InHand(s, h).value, E.InHand(s, h').value;
            && x != y && x !in s.pool.free && x !in s.pool.freed
            && (E.Stamped(s, h) && E.Stamped(s, h') ==> x in s.sequence && y in s.sequence && s.sequence[x] != s.sequence[y])
  {
    hide Harmless, Inv, Steps, E.InHand, E.Run;
    var plain, steps := RunProjects(states, events);
    E.OneHandEach(plain, steps, h, h');
  }

  /** What was enqueued is processed, in the ring, in a worker's hands or drained. */
  lemma Accounting(states: seq<State>, events: seq<Event>)
    requires Run(states, events) && Orderly(states, events)
    ensures var c := states[|events|];
            && c.ring.tail < |c.ring.data|
            && c.ep.n.enqueued == c.ep.n.processed + Q.Size(c.ring) + |E.Handlers(c.ep)| + c.ep.n.drained
  {
    hide Harmless, Steps, E.Run, E.Inv, E.Handlers;
    var plain, steps := RunProjects(states, events);
    E.Accounting(plain, steps);
    SizeIs(states[|events|]);
  }

  lemma SizeIs(c: State)
    requires Coupled(c)
    ensures c.ring.tail < |c.ring.data| && Q.Size(c.ring) == |c.ep.queue|
  {
    Q.SizeIs(c.ring);
  }

  /** When the ring is empty after closing, every event made was given back to the heap once. */
  lemma ClosedReleasesAll(states: seq<State>, events: seq<Event>)
    requires Run(states, events) && Orderly(states, events)
    requires states[|events|].ep.closing && states[|events|].ring.head == states[|events|].ring.tail
    ensures var p := states[|events|].ep.pool;
            && p.out == {} && |p.free| == p.capacity
            && forall x: nat :: P.Releases(p, x) == if x < p.made then 1 else 0
  {
    hide Harmless, Steps, E.Run, E.Inv, P.Releases;
    var plain, steps := RunProjects(states, events);
    SizeIs(states[|events|]);
    E.ClosedReleasesAll(plain, steps);
  }
}
