/**
 Submitters and workers of event_processor.c as an interleaving of their atomic steps over
 a bounded first-in first-out queue and the event pool. Threads are known by numbers; any
 number of them run in any order. Counters and the queue change in single atomic steps: for
 the ring behind the queue that is so as long as no thread enters its calls to harm, and not
 otherwise (ProcessorRing, ProcessorOverlap).
 */
module EventProcessor {
  import opened Common
  import P = EventPool

  /** Where a submitting thread is in event_processor_submit. */
  datatype Submitter =
    | Entered                      // about to ask the rate limiter
    | Refused                      // rate limited, not yet counted
    | Holding(event: nat)          // has a pool event
    | Numbered(event: nat)         // the event has its sequence number
    | Queued                       // enqueued, not yet counted
    | Rejecting(event: nat)        // has to give the event back
    | Dropping                     // dropped, not yet counted

  /** Where a worker is in process_event_work. */
  datatype Worker =
    | Handling(event: nat)         // dequeued, running the handlers
    | Finishing(event: nat)        // counted, has to give the event back

  /** Who has an event: a submitter, a place in the queue, or a worker. Places are counted
      from the first event ever enqueued. */
  datatype Holder = BySubmitter(thread: nat) | AtPlace(place: nat) | ByWorker(thread: nat)

  /** The counters of the statistics, then those kept for the statements only. */
  datatype Counts = Counts(
    submitted: nat, processed: nat, dropped: nat, limited: nat,
    begun: nat, enqueued: nat, refused: nat, failed: nat, dequeued: nat, drained: nat)

  /** sequence is the number stored in each event, nextSequence the counter it comes from;
      holder is kept for the statements only. */
  datatype State = State(
    pool: P.Pool, size: nat, queue: seq<nat>,
    submitters: map<nat, Submitter>, workers: map<nat, Worker>, closing: bool,
    sequence: map<nat, nat>, nextSequence: nat,
    n: Counts, holder: map<nat, Holder>)

  datatype Event =
    | Begin(t: nat) | Limit(t: nat) | CountLimited(t: nat)
    | Allocate(t: nat) | AllocateFails(t: nat) | CopyFails(t: nat) | Stamp(t: nat)
    | Enqueue(t: nat) | EnqueueFails(t: nat) | CountSubmitted(t: nat) | GiveBack(t: nat) | CountDropped(t: nat)
    | Dequeue(w: nat) | CountProcessed(w: nat) | Return(w: nat)
    | Close | Drain

  predicate At(s: State, t: nat, pc: Submitter) {
    t in s.submitters && s.submitters[t] == pc
  }

  predicate Has(p: Submitter) {
    p.Holding? || p.Numbered? || p.Rejecting?
  }

  /** Which steps can be taken. */
  predicate Enabled(s: State, e: Event) {
    match e
    case Begin(t) => !s.closing && t !in s.submitters
    case Limit(t) => At(s, t, Entered)
    case CountLimited(t) => At(s, t, Refused)
    case Allocate(t) => At(s, t, Entered)
    case AllocateFails(t) => At(s, t, Entered)
    case CopyFails(t) => t in s.submitters && s.submitters[t].Holding?
    case Stamp(t) => t in s.submitters && s.submitters[t].Holding?
    case Enqueue(t) => t in s.submitters && s.submitters[t].Numbered? && |s.queue| < s.size
    case EnqueueFails(t) => t in s.submitters && s.submitters[t].Numbered?
    case CountSubmitted(t) => At(s, t, Queued)
    case GiveBack(t) => t in s.submitters && s.submitters[t].Rejecting?
    case CountDropped(t) => At(s, t, Dropping)
    case Dequeue(w) => !s.closing && w !in s.workers && s.queue != []
    case CountProcessed(w) => w in s.workers && s.workers[w].Handling?
    case Return(w) => w in s.workers && s.workers[w].Finishing?
    case Close => s.submitters == map[] && s.workers == map[]
    case Drain => s.closing && s.queue != []
  }

  /** An event goes back to the pool. */
  ghost function GivenBack(s: State, event: nat): State
    requires event in s.pool.out
  {
    s.(pool := P.Step(s.pool, P.Give(event)), holder := s.holder - {event}, sequence := s.sequence - {event})
  }

  ghost function Moved(s: State, t: nat, pc: Submitter): State {
    s.(submitters := s.submitters[t := pc])
  }

  ghost function Left(s: State, t: nat): State {
    s.(submitters := s.submitters - {t})
  }

  /** The event a step gives back is out of the pool. */
  ghost predicate Owned(s: State) {
    && (forall t :: t in s.submitters && Has(s.submitters[t]) ==> s.submitters[t].event in s.pool.out)
    && (forall w :: w in s.workers ==> s.workers[w].event in s.pool.out)
    && (forall i :: 0 <= i < |s.queue| ==> s.queue[i] in s.pool.out)
  }

  ghost function Next(s: State, e: Event): State
    requires Enabled(s, e) && Owned(s)
  {
    match e
    case Begin(t) => Moved(s, t, Entered).(n := s.n.(begun := s.n.begun + 1))
    case Limit(t) => Moved(s, t, Refused).(n := s.n.(refused := s.n.refused + 1))
    case CountLimited(t) => Left(s, t).(n := s.n.(limited := s.n.limited + 1))
    case Allocate(t) =>
      var x := P.Taken(s.pool);
      Moved(s, t, Holding(x)).(pool := P.Step(s.pool, P.Take), holder := s.holder[x := BySubmitter(t)])
    case AllocateFails(t) => Moved(s, t, Dropping).(n := s.n.(failed := s.n.failed + 1))
    case CopyFails(t) => Moved(s, t, Rejecting(s.submitters[t].event)).(n := s.n.(failed := s.n.failed + 1))
    case Stamp(t) =>
      var x := s.submitters[t].event;
      Moved(s, t, Numbered(x)).(sequence := s.sequence[x := s.nextSequence], nextSequence := s.nextSequence + 1)
    case Enqueue(t) =>
      var x := s.submitters[t].event;
      Moved(s, t, Queued).(queue := s.queue + [x], n := s.n.(enqueued := s.n.enqueued + 1), holder := s.holder[x := AtPlace(s.n.enqueued)])
    case EnqueueFails(t) => Moved(s, t, Rejecting(s.submitters[t].event)).(n := s.n.(failed := s.n.failed + 1))
    case CountSubmitted(t) => Left(s, t).(n := s.n.(submitted := s.n.submitted + 1))
    case GiveBack(t) => Moved(GivenBack(s, s.submitters[t].event), t, Dropping)
    case CountDropped(t) => Left(s, t).(n := s.n.(dropped := s.n.dropped + 1))
    case Dequeue(w) =>
      s.(queue := s.queue[1..], n := s.n.(dequeued := s.n.dequeued + 1),
         workers := s.workers[w := Handling(s.queue[0])], holder := s.holder[s.queue[0] := ByWorker(w)])
    case CountProcessed(w) =>
      s.(workers := s.workers[w := Finishing(s.workers[w].event)], n := s.n.(processed := s.n.processed + 1))
    case Return(w) =>
      GivenBack(s, s.workers[w].event).(workers := s.workers - {w})
    case Close => s.(closing := true)
    case Drain =>
      GivenBack(s, s.queue[0]).(queue := s.queue[1..], n := s.n.(dequeued := s.n.dequeued + 1, drained := s.n.drained + 1))
  }

  // ----- accounting -----

  ghost function Handlers(s: State): set<nat> {
    set w | w in s.workers && s.workers[w].Handling?
  }

  /** How a submission ends. */
  datatype Fate = Accepted | Limited | Dropped

  /** The fate of a submission is decided at these places, but not yet counted. */
  function FateOf(p: Submitter): Option<Fate> {
    match p
    case Refused => Some(Limited)
    case Queued => Some(Accepted)
    case Rejecting(_) => Some(Dropped)
    case Dropping => Some(Dropped)
    case _ => None
  }

  ghost function Uncounted(s: State, f: Fate): set<nat> {
    set t | t in s.submitters && FateOf(s.submitters[t]) == Some(f)
  }

  /** How many submissions had this fate, and how many are counted as such. */
  function Met(n: Counts, f: Fate): nat {
    match f
    case Accepted => n.enqueued
    case Limited => n.refused
    case Dropped => n.failed
  }

  function Told(n: Counts, f: Fate): nat {
    match f
    case Accepted => n.submitted
    case Limited => n.limited
    case Dropped => n.dropped
  }

  /** What went into the queue is still there or came out. */
  ghost predicate QueueBalance(s: State) {
    s.n.enqueued == s.n.dequeued + |s.queue|
  }

  /** What came out is processed, in a worker's hands or drained. */
  ghost predicate WorkBalance(s: State) {
    s.n.dequeued == s.n.processed + |Handlers(s)| + s.n.drained
  }

  /** A submission that was enqueued, refused or failed is counted as submitted, rate limited
      or dropped, or about to be. */
  ghost predicate SubmitBalance(s: State) {
    forall f :: Met(s.n, f) == Told(s.n, f) + |Uncounted(s, f)|
  }

  /** Every submission begun is counted once, or still going on. */
  ghost predicate CallBalance(s: State) {
    s.n.begun == s.n.submitted + s.n.dropped + s.n.limited + |s.submitters|
  }

  ghost predicate Balanced(s: State) {
    && QueueBalance(s) && WorkBalance(s) && SubmitBalance(s) && CallBalance(s)
    && (s.closing ==> s.submitters == map[] && s.workers == map[])
  }

  // ----- ownership -----

  /** The event in these hands. */
  ghost function InHand(s: State, h: Holder): Option<nat> {
    match h
    case BySubmitter(t) => if t in s.submitters && Has(s.submitters[t]) then Some(s.submitters[t].event) else None
    case ByWorker(w) => if w in s.workers then Some(s.workers[w].event) else None
    case AtPlace(k) => if s.n.dequeued <= k < s.n.dequeued + |s.queue| then Some(s.queue[k - s.n.dequeued]) else None
  }

  /** The record says exactly who has what, so no event is in two hands, and the events in
      hands are exactly those out of the pool. */
  ghost predicate Recorded(s: State) {
    && s.holder.Keys == s.pool.out
    && (forall h :: InHand(s, h).Some? ==> InHand(s, h).value in s.holder && s.holder[InHand(s, h).value] == h)
    && (forall x :: x in s.holder ==> InHand(s, s.holder[x]) == Some(x))
  }

  // ----- sequence numbers -----

  /** In these hands the event has its number. */
  ghost predicate Stamped(s: State, h: Holder) {
    InHand(s, h).Some? && (h.BySubmitter? ==> s.submitters[h.thread].Numbered?)
  }

  /** Numbered events have numbers, no two the same, all below the counter. */
  ghost predicate Sequenced(s: State) {
    && s.sequence.Keys <= s.pool.out
    && (forall x :: x in s.sequence ==> s.sequence[x] < s.nextSequence)
    && (forall x, y :: x in s.sequence && y in s.sequence && x != y ==> s.sequence[x] != s.sequence[y])
    && (forall h :: Stamped(s, h) ==> InHand(s, h).value in s.sequence)
  }

  ghost predicate Inv(s: State) {
    P.Inv(s.pool) && Balanced(s) && Recorded(s) && Sequenced(s)
  }

  lemma InvOwned(s: State)
    requires Recorded(s)
    ensures Owned(s)
  {
    forall t | t in s.submitters && Has(s.submitters[t]) ensures s.submitters[t].event in s.pool.out {
      assert InHand(s, BySubmitter(t)).Some?;
    }
    forall w | w in s.workers ensures s.workers[w].event in s.pool.out {
      assert InHand(s, ByWorker(w)).Some?;
    }
    forall i | 0 <= i < |s.queue| ensures s.queue[i] in s.pool.out {
      assert InHand(s, AtPlace(s.n.dequeued + i)).Some?;
    }
  }

  lemma PoolKept(s: State, e: Event)
    requires Inv(s) && Enabled(s, e) && Owned(s)
    ensures P.Inv(Next(s, e).pool)
    ensures e.Allocate? ==> Next(s, e).pool.out == s.pool.out + {P.Taken(s.pool)} && P.Taken(s.pool) !in s.pool.out
    ensures e.GiveBack? ==> Next(s, e).pool.out == s.pool.out - {s.submitters[e.t].event}
    ensures e.Return? ==> Next(s, e).pool.out == s.pool.out - {s.workers[e.w].event}
    ensures e.Drain? ==> Next(s, e).pool.out == s.pool.out - {s.queue[0]}
    ensures !e.Allocate? && !e.GiveBack? && !e.Return? && !e.Drain? ==> Next(s, e).pool == s.pool
  {
    hide P.Inv, P.Step, P.Taken, Balanced, Recorded, Sequenced;
    match e
    case Allocate(t) => P.TakeInv(s.pool);
    case GiveBack(t) => P.GiveInv(s.pool, s.submitters[t].event);
    case Return(w) => P.GiveInv(s.pool, s.workers[w].event);
    case Drain => P.GiveInv(s.pool, s.queue[0]);
    case _ =>
  }

  lemma QueueKept(s: State, e: Event)
    requires QueueBalance(s) && Enabled(s, e) && Owned(s)
    ensures QueueBalance(Next(s, e))
  {
    hide P.Step, P.Taken, Owned;
  }

  ghost function HandlersAfter(s: State, e: Event): set<nat> {
    if e.Dequeue? then Handlers(s) + {e.w} else if e.CountProcessed? then Handlers(s) - {e.w} else Handlers(s)
  }

  /** The step decides a submission's fate; the step counts it. */
  predicate Meets(e: Event, f: Fate) {
    match f
    case Accepted => e.Enqueue?
    case Limited => e.Limit?
    case Dropped => e.AllocateFails? || e.CopyFails? || e.EnqueueFails?
  }

  predicate Tells(e: Event, f: Fate) {
    match f
    case Accepted => e.CountSubmitted?
    case Limited => e.CountLimited?
    case Dropped => e.CountDropped?
  }

  ghost function UncountedAfter(s: State, e: Event, f: Fate): set<nat> {
    if Meets(e, f) then Uncounted(s, f) + {e.t} else if Tells(e, f) then Uncounted(s, f) - {e.t} else Uncounted(s, f)
  }

  lemma HandlerAt(s: State, e: Event, w: nat)
    requires Enabled(s, e) && Owned(s)
    ensures w in Handlers(Next(s, e)) <==> w in HandlersAfter(s, e)
  {
    hide P.Step, P.Taken, Owned;
  }

  function FateAt(s: State, t: nat): Option<Fate> {
    if t in s.submitters then FateOf(s.submitters[t]) else None
  }

  lemma FateStays(s: State, e: Event, t: nat)
    requires Enabled(s, e) && Owned(s)
    requires e.Dequeue? || e.CountProcessed? || e.Return? || e.Close? || e.Drain? || e.t != t
    ensures FateAt(Next(s, e), t) == FateAt(s, t)
  {
    hide P.Step, P.Taken, Owned, FateOf;
  }

  lemma FateMoves(s: State, e: Event, f: Fate)
    requires Enabled(s, e) && Owned(s)
    requires !(e.Dequeue? || e.CountProcessed? || e.Return? || e.Close? || e.Drain?)
    ensures FateAt(Next(s, e), e.t) == Some(f) <==> Meets(e, f) || (FateAt(s, e.t) == Some(f) && !Tells(e, f))
  {
    hide P.Step, P.Taken, Owned;
  }

  lemma UncountedAt(s: State, e: Event, f: Fate, t: nat)
    requires Enabled(s, e) && Owned(s)
    ensures t in Uncounted(Next(s, e), f) <==> t in UncountedAfter(s, e, f)
  {
    hide Next, Owned, Enabled, FateOf;
    if e.Dequeue? || e.CountProcessed? || e.Return? || e.Close? || e.Drain? || e.t != t {
      FateStays(s, e, t);
    } else {
      FateMoves(s, e, f);
    }
  }

  lemma FatesAfter(s: State, e: Event, f: Fate)
    requires Enabled(s, e) && Owned(s)
    ensures Met(Next(s, e).n, f) == Met(s.n, f) + if Meets(e, f) then 1 else 0
    ensures Told(Next(s, e).n, f) == Told(s.n, f) + if Tells(e, f) then 1 else 0
  {
    hide P.Step, P.Taken, Owned;
  }

  lemma CountsAfter(s: State, e: Event)
    requires Enabled(s, e) && Owned(s)
    ensures var n, n' := s.n, Next(s, e).n;
            && n'.dequeued - n'.drained == n.dequeued - n.drained + (if e.Dequeue? then 1 else 0)
            && n'.processed == n.processed + (if e.CountProcessed? then 1 else 0)
  {
    hide P.Step, P.Taken, Owned;
  }

  lemma HandlersSize(s: State, e: Event)
    requires Enabled(s, e)
    ensures |HandlersAfter(s, e)| == |Handlers(s)| + (if e.Dequeue? then 1 else 0) - (if e.CountProcessed? then 1 else 0)
  {
  }

  /** Before its fate is decided a submission has none, and before it is counted it has it. */
  lemma FateBefore(s: State, e: Event, f: Fate)
    requires Enabled(s, e)
    ensures Meets(e, f) ==> !Tells(e, f) && e.t in s.submitters && FateOf(s.submitters[e.t]) == None
    ensures Tells(e, f) ==> e.t in s.submitters && FateOf(s.submitters[e.t]) == Some(f)
  {
  }

  lemma UncountedSize(s: State, e: Event, f: Fate)
    requires Enabled(s, e)
    ensures |UncountedAfter(s, e, f)| == |Uncounted(s, f)| + (if Meets(e, f) then 1 else 0) - (if Tells(e, f) then 1 else 0)
  {
    hide Enabled, FateOf;
    FateBefore(s, e, f);
  }

  lemma WorkKept(s: State, e: Event)
    requires WorkBalance(s) && Enabled(s, e) && Owned(s)
    ensures WorkBalance(Next(s, e))
  {
    hide Next, Owned, Enabled, Handlers, HandlersAfter;
    CountsAfter(s, e);
    HandlersSize(s, e);
    forall w: nat ensures w in Handlers(Next(s, e)) <==> w in HandlersAfter(s, e) {
      HandlerAt(s, e, w);
    }
    assert Handlers(Next(s, e)) == HandlersAfter(s, e);
  }

  lemma SubmitKept(s: State, e: Event)
    requires SubmitBalance(s) && Enabled(s, e) && Owned(s)
    ensures SubmitBalance(Next(s, e))
  {
    hide Next, Owned, Enabled, Uncounted, UncountedAfter, Met, Told, Meets, Tells;
    forall f ensures Met(Next(s, e).n, f) == Told(Next(s, e).n, f) + |Uncounted(Next(s, e), f)| {
      FatesAfter(s, e, f);
      UncountedSize(s, e, f);
      forall t: nat ensures t in Uncounted(Next(s, e), f) <==> t in UncountedAfter(s, e, f) {
        UncountedAt(s, e, f, t);
      }
      assert Uncounted(Next(s, e), f) == UncountedAfter(s, e, f);
    }
  }

  predicate Leaves(e: Event) {
    e.CountLimited? || e.CountSubmitted? || e.CountDropped?
  }

  lemma ThreadsAfter(s: State, e: Event)
    requires Enabled(s, e) && Owned(s)
    ensures Next(s, e).submitters.Keys ==
              if e.Begin? then s.submitters.Keys + {e.t} else if Leaves(e) then s.submitters.Keys - {e.t} else s.submitters.Keys
  {
    hide P.Step, P.Taken, Owned;
  }

  lemma CallsAfter(s: State, e: Event)
    requires Enabled(s, e) && Owned(s)
    ensures var n, n' := s.n, Next(s, e).n;
            && n'.begun == n.begun + (if e.Begin? then 1 else 0)
            && n'.submitted + n'.dropped + n'.limited == n.submitted + n.dropped + n.limited + if Leaves(e) then 1 else 0
  {
    hide P.Step, P.Taken, Owned;
  }

  lemma CallKept(s: State, e: Event)
    requires CallBalance(s) && Enabled(s, e) && Owned(s)
    ensures CallBalance(Next(s, e))
  {
    hide Next, Owned;
    ThreadsAfter(s, e);
    CallsAfter(s, e);
    assert |Next(s, e).submitters| == |Next(s, e).submitters.Keys| && |s.submitters| == |s.submitters.Keys|;
  }

  lemma BalancedKept(s: State, e: Event)
    requires Balanced(s) && Enabled(s, e) && Owned(s)
    ensures Balanced(Next(s, e))
  {
    hide QueueBalance, WorkBalance, SubmitBalance, CallBalance, P.Step, P.Taken, Owned;
    QueueKept(s, e);
    WorkKept(s, e);
    SubmitKept(s, e);
    CallKept(s, e);
  }

  // ----- ownership is kept -----

  /** An event changes hands: from nobody when new, to nobody when given back. */
  ghost predicate Handed(s: State, s': State, x: nat, from: Option<Holder>, to: Option<Holder>) {
    && (from.Some? ==> InHand(s, from.value) == Some(x))
    && (to.Some? ==> InHand(s, to.value).None?)
    && (forall h :: InHand(s', h) == if to == Some(h) then Some(x) else if from == Some(h) then None else InHand(s, h))
    && s'.holder == (if to.Some? then s.holder[x := to.value] else s.holder - {x})
    && s'.pool.out == s'.holder.Keys
  }

  ghost predicate SameHands(s: State, s': State) {
    && (forall h :: InHand(s', h) == InHand(s, h))
    && s'.holder == s.holder && s'.pool.out == s.pool.out
  }

  lemma HandedRecorded(s: State, s': State, x: nat, from: Option<Holder>, to: Option<Holder>)
    requires Recorded(s) && Handed(s, s', x, from, to) && (from.None? <==> x !in s.holder)
    ensures Recorded(s')
  {
    hide InHand;
  }

  lemma SameRecorded(s: State, s': State)
    requires Recorded(s) && SameHands(s, s')
    ensures Recorded(s')
  {
    hide InHand;
  }

  predicate Passes(e: Event) {
    e.Allocate? || e.Enqueue? || e.Dequeue? || e.GiveBack? || e.Return? || e.Drain?
  }

  lemma StayingHands(s: State, e: Event)
    requires Enabled(s, e) && Owned(s) && !Passes(e)
    ensures SameHands(s, Next(s, e))
  {
    hide Owned;
  }

  lemma AllocateHands(s: State, e: Event)
    requires Inv(s) && Enabled(s, e) && Owned(s) && e.Allocate?
    ensures Handed(s, Next(s, e), P.Taken(s.pool), None, Some(BySubmitter(e.t)))
  {
    hide P.Step, P.Taken, P.Inv, Sequenced, Owned, Balanced;
    PoolKept(s, e);
  }

  lemma EnqueueHands(s: State, e: Event)
    requires Inv(s) && Enabled(s, e) && Owned(s) && e.Enqueue?
    ensures Handed(s, Next(s, e), s.submitters[e.t].event, Some(BySubmitter(e.t)), Some(AtPlace(s.n.enqueued)))
  {
    hide P.Inv, Sequenced, Owned, WorkBalance, SubmitBalance, CallBalance;
    assert InHand(s, BySubmitter(e.t)).Some?;
  }

  lemma DequeueHands(s: State, e: Event)
    requires Inv(s) && Enabled(s, e) && Owned(s) && e.Dequeue?
    ensures Handed(s, Next(s, e), s.queue[0], Some(AtPlace(s.n.dequeued)), Some(ByWorker(e.w)))
  {
    hide P.Inv, Balanced, Sequenced, Owned, Recorded, InHand, Next;
    var s' := Next(s, e);
    forall h ensures InHand(s', h) == if h == ByWorker(e.w) then Some(s.queue[0]) else if h == AtPlace(s.n.dequeued) then None else InHand(s, h) {
      DequeueHand(s, e, h);
    }
    DequeueRecord(s, e);
  }

  lemma DequeueHand(s: State, e: Event, h: Holder)
    requires Enabled(s, e) && Owned(s) && e.Dequeue?
    ensures InHand(Next(s, e), h) == if h == ByWorker(e.w) then Some(s.queue[0]) else if h == AtPlace(s.n.dequeued) then None else InHand(s, h)
  {
    hide Owned;
  }

  lemma DequeueRecord(s: State, e: Event)
    requires Recorded(s) && Enabled(s, e) && Owned(s) && e.Dequeue?
    ensures InHand(s, AtPlace(s.n.dequeued)) == Some(s.queue[0]) && InHand(s, ByWorker(e.w)) == None
    ensures var s' := Next(s, e);
            s'.holder == s.holder[s.queue[0] := ByWorker(e.w)] && s'.pool.out == s'.holder.Keys
  {
    hide Owned;
    assert InHand(s, AtPlace(s.n.dequeued)).Some?;
  }

  lemma GiveBackHands(s: State, e: Event)
    requires Inv(s) && Enabled(s, e) && Owned(s) && e.GiveBack?
    ensures Handed(s, Next(s, e), s.submitters[e.t].event, Some(BySubmitter(e.t)), None)
  {
    hide P.Step, P.Inv, Balanced, Sequenced, Owned;
    PoolKept(s, e);
  }

  lemma ReturnHands(s: State, e: Event)
    requires Inv(s) && Enabled(s, e) && Owned(s) && e.Return?
    ensures Handed(s, Next(s, e), s.workers[e.w].event, Some(ByWorker(e.w)), None)
  {
    hide P.Step, P.Inv, Balanced, Sequenced, Owned;
    PoolKept(s, e);
  }

  lemma DrainHands(s: State, e: Event)
    requires Inv(s) && Enabled(s, e) && Owned(s) && e.Drain?
    ensures Handed(s, Next(s, e), s.queue[0], Some(AtPlace(s.n.dequeued)), None)
  {
    hide P.Step, P.Inv, Balanced, Sequenced, Owned;
    PoolKept(s, e);
  }

  lemma RecordedKept(s: State, e: Event)
    requires Inv(s) && Enabled(s, e) && Owned(s)
    ensures Recorded(Next(s, e))
  {
    hide Next, P.Taken, P.Inv, Balanced, Sequenced, Owned, Handed, SameHands;
    var s' := Next(s, e);
    if !Passes(e) {
      StayingHands(s, e);
      SameRecorded(s, s');
    } else {
      PoolKept(s, e);
      match e
      case Allocate(t) =>
        AllocateHands(s, e);
        HandedRecorded(s, s', P.Taken(s.pool), None, Some(BySubmitter(t)));
      case Enqueue(t) =>
        EnqueueHands(s, e);
        assert InHand(s, BySubmitter(t)).Some?;
        HandedRecorded(s, s', s.submitters[t].event, Some(BySubmitter(t)), Some(AtPlace(s.n.enqueued)));
      case GiveBack(t) =>
        GiveBackHands(s, e);
        assert InHand(s, BySubmitter(t)).Some?;
        HandedRecorded(s, s', s.submitters[t].event, Some(BySubmitter(t)), None);
      case Dequeue(w) =>
        DequeueHands(s, e);
        assert InHand(s, AtPlace(s.n.dequeued)).Some?;
        HandedRecorded(s, s', s.queue[0], Some(AtPlace(s.n.dequeued)), Some(ByWorker(w)));
      case Return(w) =>
        ReturnHands(s, e);
        assert InHand(s, ByWorker(w)).Some?;
        HandedRecorded(s, s', s.workers[w].event, Some(ByWorker(w)), None);
      case Drain =>
        DrainHands(s, e);
        assert InHand(s, AtPlace(s.n.dequeued)).Some?;
        HandedRecorded(s, s', s.queue[0], Some(AtPlace(s.n.dequeued)), None);
    }
  }

  // ----- numbers are kept -----

  /** Hands that hold a numbered event after a step, and are not those it was just passed to,
      held it before. */
  lemma StampedStays(s: State, e: Event, h: Holder)
    requires Enabled(s, e) && Owned(s) && Stamped(Next(s, e), h)
    requires !(e.Enqueue? && h == AtPlace(s.n.dequeued + |s.queue|)) && !(e.Dequeue? && h == ByWorker(e.w)) && !(e.Stamp? && h == BySubmitter(e.t))
    ensures Stamped(s, h) && InHand(Next(s, e), h) == InHand(s, h)
  {
    hide P.Step, P.Taken, Owned;
  }

  lemma StampedPassed(s: State, e: Event)
    requires Enabled(s, e) && Owned(s)
    ensures e.Enqueue? ==> Stamped(s, BySubmitter(e.t)) && InHand(Next(s, e), AtPlace(s.n.dequeued + |s.queue|)) == InHand(s, BySubmitter(e.t))
    ensures e.Dequeue? ==> Stamped(s, AtPlace(s.n.dequeued)) && InHand(Next(s, e), ByWorker(e.w)) == InHand(s, AtPlace(s.n.dequeued))
    ensures e.Stamp? ==> InHand(Next(s, e), BySubmitter(e.t)) == Some(s.submitters[e.t].event)
  {
    hide Owned;
  }

  /** Where a numbered event was before the step. */
  lemma StampedBefore(s: State, e: Event, h: Holder)
    requires Sequenced(s) && Enabled(s, e) && Owned(s) && Stamped(Next(s, e), h)
    ensures InHand(Next(s, e), h).value in s.sequence || (e.Stamp? && InHand(Next(s, e), h).value == s.submitters[e.t].event)
  {
    hide Next, Owned, InHand;
    StampedPassed(s, e);
    if !(e.Enqueue? && h == AtPlace(s.n.dequeued + |s.queue|)) && !(e.Dequeue? && h == ByWorker(e.w)) && !(e.Stamp? && h == BySubmitter(e.t)) {
      StampedStays(s, e, h);
    }
  }

  lemma NumbersAfter(s: State, e: Event)
    requires Enabled(s, e) && Owned(s)
    ensures var s' := Next(s, e);
            && s'.nextSequence == s.nextSequence + (if e.Stamp? then 1 else 0)
            && (e.Stamp? ==> s'.sequence == s.sequence[s.submitters[e.t].event := s.nextSequence])
            && (e.GiveBack? ==> s'.sequence == s.sequence - {s.submitters[e.t].event})
            && (e.Return? ==> s'.sequence == s.sequence - {s.workers[e.w].event})
            && (e.Drain? ==> s'.sequence == s.sequence - {s.queue[0]})
            && (!e.Stamp? && !e.GiveBack? && !e.Return? && !e.Drain? ==> s'.sequence == s.sequence)
  {
    hide P.Step, P.Taken, Owned;
  }

  lemma SequencedKept(s: State, e: Event)
    requires Inv(s) && Enabled(s, e) && Owned(s)
    ensures Sequenced(Next(s, e))
  {
    hide Next, P.Taken, P.Inv, Balanced, InHand;
    var s' := Next(s, e);
    PoolKept(s, e);
    NumbersAfter(s, e);
    RecordedKept(s, e);
    forall h | Stamped(s', h) ensures InHand(s', h).value in s'.sequence {
      StampedBefore(s, e, h);
    }
  }

  // ----- runs -----

  ghost predicate Start(s: State) {
    && s.pool == P.Created(s.pool.capacity)
    && s.queue == [] && s.submitters == map[] && s.workers == map[] && !s.closing
    && s.sequence == map[] && s.holder == map[] && s.n == Counts(0, 0, 0, 0, 0, 0, 0, 0, 0, 0)
  }

  /** One step; were a thread to give back an event that is not out, anything could follow. */
  ghost predicate Steps(s: State, e: Event, s': State) {
    Enabled(s, e) && (Owned(s) ==> s' == Next(s, e))
  }

  ghost predicate Run(states: seq<State>, events: seq<Event>) {
    && |states| == |events| + 1
    && Start(states[0])
    && forall i :: 0 <= i < |events| ==> Steps(states[i], events[i], states[i + 1])
  }

  lemma StartInv(s: State)
    requires Start(s)
    ensures Inv(s)
  {
    P.CreatedInv(s.pool.capacity);
  }

  lemma StepInv(s: State, e: Event, s': State)
    requires Inv(s) && Steps(s, e, s')
    ensures Inv(s')
  {
    hide Next, P.Inv, Balanced, Recorded, Sequenced, Owned, Enabled;
    InvOwned(s);
    PoolKept(s, e);
    BalancedKept(s, e);
    RecordedKept(s, e);
    SequencedKept(s, e);
  }

  lemma {:induction false} EveryRun(states: seq<State>, events: seq<Event>)
    requires Run(states, events)
    ensures Inv(states[|events|])
  {
    hide Inv, Steps, Start;
    if events == [] {
      StartInv(states[0]);
    } else {
      var n := |events| - 1;
      assert Run(states[..n + 1], events[..n]);
      EveryRun(states[..n + 1], events[..n]);
      assert Steps(states[n], events[n], states[n + 1]);
      StepInv(states[n], events[n], states[n + 1]);
    }
  }

  /** In every interleaving: what was enqueued is processed, queued, in a worker's hands or
      drained; the submissions counted as submitted, rate limited and dropped never exceed
      those enqueued, refused and failed, and equal them when no submission is going on; and
      each submission begun and ended is counted exactly once. */
  lemma Accounting(states: seq<State>, events: seq<Event>)
    requires Run(states, events)
    ensures var s := states[|events|];
            && s.n.enqueued == s.n.processed + |s.queue| + |Handlers(s)| + s.n.drained
            && s.n.submitted <= s.n.enqueued && s.n.limited <= s.n.refused && s.n.dropped <= s.n.failed
            && s.n.submitted + s.n.dropped + s.n.limited + |s.submitters| == s.n.begun
            && (s.submitters == map[] ==> s.n.submitted == s.n.enqueued && s.n.limited == s.n.refused && s.n.dropped == s.n.failed)
  {
    hide Steps, P.Inv, Recorded, Sequenced;
    EveryRun(states, events);
    var s := states[|events|];
    assert Met(s.n, Accepted) >= Told(s.n, Accepted) && Met(s.n, Limited) >= Told(s.n, Limited) && Met(s.n, Dropped) >= Told(s.n, Dropped);
    if s.submitters == map[] {
      assert Uncounted(s, Accepted) == Uncounted(s, Limited) == Uncounted(s, Dropped) == {};
    }
  }

  /** In every interleaving no event is in two hands, none in any hand is free in the pool or
      given back to the heap, and no two numbered events have the same number. */
  lemma OneHandEach(states: seq<State>, events: seq<Event>, h: Holder, h': Holder)
    requires Run(states, events) && h != h'
    requires InHand(states[|events|], h).Some? && InHand(states[|events|], h').Some?
    ensures var s := states[|events|];
            var x, y := InHand(s, h).value, InHand(s, h').value;
            && x != y
            && x !in s.pool.free && x !in s.pool.freed
            && (Stamped(s, h) && Stamped(s, h') ==> x in s.sequence && y in s.sequence && s.sequence[x] != s.sequence[y])
  {
    hide Steps, Balanced, InHand;
    EveryRun(states, events);
  }

  lemma {:induction false} CounterGrows(states: seq<State>, events: seq<Event>, i: nat)
    requires Run(states, events) && i <= |events|
    ensures states[i].nextSequence <= states[|events|].nextSequence
    ensures i < |events| && events[i].Stamp? ==> states[i].nextSequence < states[|events|].nextSequence
  {
    hide Inv, Steps, Start;
    if i < |events| {
      var n := |events| - 1;
      assert Run(states[..n + 1], events[..n]);
      CounterGrows(states[..n + 1], events[..n], i);
      EveryRun(states[..n + 1], events[..n]);
      assert Steps(states[n], events[n], states[n + 1]);
      CounterStep(states[n], events[n], states[n + 1]);
    }
  }

  lemma CounterStep(s: State, e: Event, s': State)
    requires Inv(s) && Steps(s, e, s')
    ensures s'.nextSequence == s.nextSequence + if e.Stamp? then 1 else 0
  {
    hide Next, P.Inv, Balanced, Recorded, Sequenced, Owned, Enabled;
    InvOwned(s);
    NumbersAfter(s, e);
  }

  /** No two submissions of a run are ever given the same sequence number. */
  lemma NumbersNeverRepeat(states: seq<State>, events: seq<Event>, i: nat, j: nat)
    requires Run(states, events) && i < j < |events| && events[i].Stamp? && events[j].Stamp?
    ensures states[i].nextSequence != states[j].nextSequence
  {
    hide Steps, Start;
    assert Run(states[..j + 1], events[..j]);
    CounterGrows(states[..j + 1], events[..j], i);
  }

  /** Once closed and drained, every event is back: all slots of the pool are filled, and
      destroying it releases every event ever made exactly once. */
  lemma ClosedReleasesAll(states: seq<State>, events: seq<Event>)
    requires Run(states, events) && states[|events|].closing && states[|events|].queue == []
    ensures var p := states[|events|].pool;
            && p.out == {} && |p.free| == p.capacity
            && forall x: nat :: P.Releases(p, x) == if x < p.made then 1 else 0
  {
    hide Steps, P.Inv, Sequenced;
    EveryRun(states, events);
    var s := states[|events|];
    assert s.holder.Keys == {};
    P.Quiescent(s.pool);
  }
}
