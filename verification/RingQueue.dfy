/**
 The lock-free ring of ring_buffer.c. Enqueueing and dequeueing are modelled by their loads
 and stores, interleaved in any order; each load and store is one step, and an item is
 visible once the head has moved over it. Items are numbers.
 */
module RingQueue {
  import opened Common
  import opened RingBuffer

  // ----- the index arithmetic -----

  /** next_power_of_2 for 64-bit sizes. */
  function NextPowerOf2(n: bv64): bv64 {
    if n == 0 then 1 else Smear(n - 1) + 1
  }

  function Smear(n: bv64): bv64 {
    var a := n | (n >> 1);
    var b := a | (a >> 2);
    var c := b | (b >> 4);
    var d := c | (c >> 8);
    var e := d | (d >> 16);
    e | (e >> 32)
  }

  /** For n = k + 1, the capacity is mask + 1, where mask + 1 is a power of two; it is enough
      for n, and half of it is not. */
  lemma CapacityRounded(k: bv64)
    requires k < 0x8000_0000_0000_0000
    ensures NextPowerOf2(k + 1) == Smear(k) + 1
    ensures var mask := Smear(k); mask & (mask + 1) == 0 && mask + 1 > k && (k > 0 ==> (mask >> 1) < k)
  {
    hide Smear;
    SmearOnes(k);
    SmearCovers(k);
    SmearLeast(k);
  }

  /** Above that there is no power of two, and the capacity comes out as 0. */
  lemma CapacityOverflows(k: bv64)
    requires 0x8000_0000_0000_0000 <= k < 0xFFFF_FFFF_FFFF_FFFF
    ensures NextPowerOf2(k + 1) == 0
  {
    hide Smear;
    SmearAll(k);
  }

  lemma SmearAll(n: bv64)
    requires n >= 0x8000_0000_0000_0000
    ensures Smear(n) == 0xFFFF_FFFF_FFFF_FFFF
  {
  }

  /** Below its highest one, the result has ones only. */
  lemma SmearOnes(n: bv64)
    ensures Smear(n) & (Smear(n) + 1) == 0
  {
  }

  lemma SmearCovers(n: bv64)
    requires n < 0x8000_0000_0000_0000
    ensures Smear(n) + 1 > n
  {
  }

  lemma SmearLeast(n: bv64)
    ensures n > 0 ==> (Smear(n) >> 1) < n
  {
  }

  /** Stepping an index and masking it wraps it at the end. */
  lemma MaskWraps(i: bv64, mask: bv64)
    requires mask & (mask + 1) == 0 && i <= mask
    ensures (i + 1) & mask == if i == mask then 0 else i + 1
  {
    InsideMask(i, mask);
    MaskStep(i, mask);
  }

  lemma InsideMask(i: bv64, mask: bv64)
    requires mask & (mask + 1) == 0 && i <= mask
    ensures i & !mask == 0
  {
  }

  lemma MaskStep(i: bv64, mask: bv64)
    requires mask & (mask + 1) == 0 && i & !mask == 0
    ensures (i + 1) & mask == if i == mask then 0 else i + 1
  {
  }

  function Wrap(i: nat, capacity: nat): (r: nat)
    requires i < capacity
    ensures r < capacity
  {
    if i + 1 == capacity then 0 else i + 1
  }

  // ----- the steps -----

  /** Where a thread is in ring_buffer_enqueue. For the statements only, at is how many items
      had been put when it loaded the head, and since how many had been taken when it loaded
      the tail. */
  datatype Producer =
    | Wants(item: nat)
    | SawHead(item: nat, head: nat, at: nat)
    | SawBoth(item: nat, head: nat, tail: nat, at: nat, since: nat)
    | Wrote(item: nat, head: nat)

  /** Where a thread is in ring_buffer_dequeue. For the statements only, upTo is how many items
      had been put when it loaded the head, and since how many had been taken when it loaded
      the tail. */
  datatype Consumer =
    | Asks
    | KnowsHead(head: nat, upTo: nat)
    | KnowsBoth(head: nat, tail: nat, upTo: nat, since: nat)
    | Fetched(item: nat, tail: nat)

  /** put and got are kept for the statements only: the items the head has moved over, and the
      items returned. */
  datatype State = State(
    data: seq<nat>, head: nat, tail: nat,
    producers: map<nat, Producer>, consumers: map<nat, Consumer>,
    put: seq<nat>, got: seq<nat>)

  datatype Step =
    | Put(t: nat, item: nat) | LoadHead(t: nat) | LoadTail(t: nat) | Reject(t: nat) | Write(t: nat) | Publish(t: nat)
    | Take(t: nat) | PeekHead(t: nat) | PeekTail(t: nat) | Empty(t: nat) | Fetch(t: nat) | Release(t: nat)

  predicate Indexed(s: State) {
    && s.head < |s.data| && s.tail < |s.data|
    && (forall t :: t in s.producers && !s.producers[t].Wants? ==> s.producers[t].head < |s.data|)
    && (forall t :: t in s.consumers && (s.consumers[t].KnowsBoth? || s.consumers[t].Fetched?) ==> s.consumers[t].tail < |s.data|)
  }

  /** A producer that found the ring full: all it can do is leave. */
  predicate Refused(p: Producer, n: nat) {
    p.SawBoth? && p.head < n && Wrap(p.head, n) == p.tail
  }

  /** A consumer that found the ring empty: all it can do is leave. */
  predicate Missed(c: Consumer) {
    c.KnowsBoth? && c.head == c.tail
  }

  predicate Enabled(s: State, e: Step) {
    match e
    case Put(t, _) => t !in s.producers
    case LoadHead(t) => t in s.producers && s.producers[t].Wants?
    case LoadTail(t) => t in s.producers && s.producers[t].SawHead?
    case Reject(t) => t in s.producers && Refused(s.producers[t], |s.data|)
    case Write(t) => t in s.producers && s.producers[t].SawBoth? && !Refused(s.producers[t], |s.data|)
    case Publish(t) => t in s.producers && s.producers[t].Wrote?
    case Take(t) => t !in s.consumers
    case PeekHead(t) => t in s.consumers && s.consumers[t].Asks?
    case PeekTail(t) => t in s.consumers && s.consumers[t].KnowsHead?
    case Empty(t) => t in s.consumers && Missed(s.consumers[t])
    case Fetch(t) => t in s.consumers && s.consumers[t].KnowsBoth? && !Missed(s.consumers[t])
    case Release(t) => t in s.consumers && s.consumers[t].Fetched?
  }

  function Next(s: State, e: Step): State
    requires Indexed(s) && Enabled(s, e)
  {
    match e
    case Put(t, item) => s.(producers := s.producers[t := Wants(item)])
    case LoadHead(t) => s.(producers := s.producers[t := SawHead(s.producers[t].item, s.head, |s.put|)])
    case LoadTail(t) =>
      var p := s.producers[t];
      s.(producers := s.producers[t := SawBoth(p.item, p.head, s.tail, p.at, |s.got|)])
    case Reject(t) => s.(producers := s.producers - {t})
    case Write(t) =>
      var p := s.producers[t];
      s.(data := s.data[p.head := p.item], producers := s.producers[t := Wrote(p.item, p.head)])
    case Publish(t) =>
      var p := s.producers[t];
      s.(head := Wrap(p.head, |s.data|), put := s.put + [p.item], producers := s.producers - {t})
    case Take(t) => s.(consumers := s.consumers[t := Asks])
    case PeekHead(t) => s.(consumers := s.consumers[t := KnowsHead(s.head, |s.put|)])
    case PeekTail(t) =>
      var c := s.consumers[t];
      s.(consumers := s.consumers[t := KnowsBoth(c.head, s.tail, c.upTo, |s.got|)])
    case Empty(t) => s.(consumers := s.consumers - {t})
    case Fetch(t) => s.(consumers := s.consumers[t := Fetched(s.data[s.consumers[t].tail], s.consumers[t].tail)])
    case Release(t) =>
      var c := s.consumers[t];
      s.(tail := Wrap(c.tail, |s.data|), got := s.got + [c.item], consumers := s.consumers - {t})
  }

  lemma IndexedKept(s: State, e: Step)
    requires Indexed(s) && Enabled(s, e)
    ensures Indexed(Next(s, e)) && |Next(s, e).data| == |s.data|
  {
  }

  /** ring_buffer_size. */
  function Size(s: State): nat
    requires s.tail < |s.data|
  {
    if s.head >= s.tail then s.head - s.tail else |s.data| - s.tail + s.head
  }

  // ----- entering a call while others are in it -----

  /** A consumer that loaded the head of an empty ring, into which two items or more have been
      put since. If it loads the tail now it leaves with nothing, and if one item is taken
      first, it takes the next. */
  predicate Late(s: State, c: Consumer)
    requires s.tail < |s.data|
  {
    c.KnowsHead? && c.head == s.tail && Size(s) >= 2
  }

  /** The entries into a call that cannot disturb it: every other thread in it is bound to
      leave with nothing, or is late. Steps inside a call are no entries. */
  predicate Harmless(s: State, e: Step)
    requires s.tail < |s.data|
  {
    && (e.Put? ==> forall t :: t in s.producers ==> Refused(s.producers[t], |s.data|))
    && (e.Take? ==> forall t :: t in s.consumers ==> Missed(s.consumers[t]) || Late(s, s.consumers[t]))
  }

  /** The positions are the numbers of items put and taken, the slots between them hold the
      items put and not taken, and one slot stays free. */
  ghost predicate Queued(s: State)
    requires Indexed(s)
  {
    var n := |s.data|;
    && s.head == |s.put| % n && s.tail == |s.got| % n
    && |s.got| <= |s.put| < |s.got| + n
    && (forall k {:trigger s.put[k]} :: |s.got| <= k < |s.put| ==> s.data[k % n] == s.put[k])
    && s.got <= s.put
  }

  /** What a thread has loaded of both positions, in numbers of items. */
  ghost predicate SawAt(p: Producer, n: nat)
    requires n > 0
  {
    p.SawBoth? ==> p.head == p.at % n && p.tail == p.since % n && p.since <= p.at < p.since + n
  }

  ghost predicate KnewAt(c: Consumer, n: nat)
    requires n > 0
  {
    c.KnowsBoth? ==> c.head == c.upTo % n && c.tail == c.since % n && (c.since <= c.upTo < c.since + n || (c.upTo + 1 == c.since && n > 1))
  }

  /** What a producer has loaded is still so, but for items taken meanwhile. */
  ghost predicate Current(s: State, p: Producer)
    requires Indexed(s)
  {
    match p
    case Wants(_) => true
    case SawHead(_, h, at) => h == s.head && at == |s.put|
    case SawBoth(_, h, _, at, since) => h == s.head && at == |s.put| && since <= |s.got|
    case Wrote(item, h) => h == s.head && |s.put| + 1 < |s.got| + |s.data| && s.data[s.head] == item
  }

  /** What a consumer has loaded is still so, but for items put meanwhile, or one item was
      taken after it loaded the head, and there is another. */
  ghost predicate Timely(s: State, c: Consumer)
    requires Indexed(s)
  {
    match c
    case Asks => true
    case KnowsHead(h, upTo) => h == upTo % |s.data| && (|s.got| <= upTo <= |s.put| || (upTo + 1 == |s.got| && |s.got| < |s.put|))
    case KnowsBoth(h, t, _, since) => since == |s.got| && (h != t ==> |s.got| < |s.put|)
    case Fetched(item, t) => |s.got| < |s.put| && item == s.put[|s.got|] && t == s.tail
  }

  /** Late, in numbers of items. */
  ghost predicate Stale(s: State, c: Consumer) {
    c.KnowsHead? && c.upTo == |s.got| && |s.got| + 2 <= |s.put|
  }

  /** At most one producer is not bound to leave. */
  ghost predicate Producing(s: State)
    requires Indexed(s)
  {
    && (forall t :: t in s.producers ==> SawAt(s.producers[t], |s.data|) && (Refused(s.producers[t], |s.data|) || Current(s, s.producers[t])))
    && (forall t, u :: t in s.producers && u in s.producers && t != u ==> Refused(s.producers[t], |s.data|) || Refused(s.producers[u], |s.data|))
  }

  /** At most one consumer is not bound to leave, but for a late one. */
  ghost predicate Consuming(s: State)
    requires Indexed(s)
  {
    && (forall t :: t in s.consumers ==> KnewAt(s.consumers[t], |s.data|) && (Missed(s.consumers[t]) || Timely(s, s.consumers[t])))
    && (forall t, u :: t in s.consumers && u in s.consumers && t != u ==> Unmixed(s, s.consumers[t], s.consumers[u]))
  }

  ghost predicate Unmixed(s: State, c: Consumer, d: Consumer) {
    Missed(c) || Missed(d) || (Stale(s, c) <==> !Stale(s, d))
  }

  ghost predicate Inv(s: State) {
    Indexed(s) && Queued(s) && Producing(s) && Consuming(s)
  }

  lemma WrapIs(k: nat, n: nat)
    requires 0 < n
    ensures k % n < n && Wrap(k % n, n) == (k + 1) % n
  {
    NextSlot(k, n);
    ModShift(0, n, 1);
  }

  lemma ModAgain(k: nat, n: nat)
    requires 0 < n
    ensures (k + n) % n == k % n
  {
    Division(k, n);
    Division(k + n, n);
    assert (k / n + 1) * n == k / n * n + n;
    Unique(n, (k + n) / n, (k + n) % n, k / n + 1, k % n);
  }

  /** The full and the empty test on current positions are exact. */
  lemma TestsExact(put: nat, got: nat, n: nat)
    requires 0 < n && got <= put < got + n
    ensures Wrap(put % n, n) == got % n <==> put + 1 == got + n
    ensures put % n == got % n <==> put == got
  {
    WrapIs(put, n);
    ModAgain(got, n);
    if put + 1 < got + n {
      SlotsDiffer(n, got, put + 1);
    }
    if got < put {
      SlotsDiffer(n, got, put);
    }
  }

  lemma Distance(put: nat, got: nat, n: nat)
    requires 0 < n && got <= put < got + n
    ensures put - got == if put % n >= got % n then put % n - got % n else n - got % n + put % n
  {
    Division(put, n);
    Division(got, n);
    var a, b := put / n, got / n;
    assert (a - b) * n == a * n - b * n;
    Scale(a - b, n);
    Scale(a - b - 1, n);
    assert (a - b - 1) * n == (a - b) * n - n;
  }

  lemma SizeIs(s: State)
    requires Indexed(s) && Queued(s)
    ensures Size(s) == |s.put| - |s.got|
  {
    Distance(|s.put|, |s.got|, |s.data|);
  }

  lemma LateIs(s: State, c: Consumer)
    requires Indexed(s) && Queued(s) && Timely(s, c)
    ensures Late(s, c) <==> Stale(s, c)
  {
    SizeIs(s);
    if c.KnowsHead? {
      var n, got := |s.data|, |s.got|;
      if got <= c.upTo {
        TestsExact(c.upTo, got, n);
      } else {
        SlotsDiffer(n, c.upTo, got);
      }
    }
  }

  // ----- the steps of producers -----

  /** A producer that found room on the tail it loaded has room now. */
  lemma RoomNow(s: State, p: Producer)
    requires Indexed(s) && Queued(s) && p.SawBoth? && Current(s, p) && SawAt(p, |s.data|) && !Refused(p, |s.data|)
    ensures |s.put| + 1 < |s.got| + |s.data|
  {
    TestsExact(p.at, p.since, |s.data|);
  }

  /** Writing the item of the next put disturbs no item that is queued. */
  lemma WriteKeeps(s: State, item: nat, k: nat)
    requires Indexed(s) && Queued(s) && |s.put| + 1 < |s.got| + |s.data| && |s.got| <= k < |s.put|
    ensures s.data[s.head := item][k % |s.data|] == s.put[k]
  {
    SlotsDiffer(|s.data|, k, |s.put|);
    assert s.data[k % |s.data|] == s.put[k];
  }

  lemma WriteStep(s: State, t: nat)
    requires Indexed(s) && Queued(s) && Producing(s) && Enabled(s, Write(t))
    ensures Indexed(Next(s, Write(t))) && Queued(Next(s, Write(t))) && Producing(Next(s, Write(t)))
  {
    var p := s.producers[t];
    assert Current(s, p) && SawAt(p, |s.data|);
    RoomNow(s, p);
    var s' := Next(s, Write(t));
    forall k | |s'.got| <= k < |s'.put| ensures s'.data[k % |s'.data|] == s'.put[k] {
      WriteKeeps(s, p.item, k);
    }
  }

  lemma PublishStep(s: State, t: nat)
    requires Indexed(s) && Queued(s) && Producing(s) && Enabled(s, Publish(t))
    ensures Indexed(Next(s, Publish(t))) && Queued(Next(s, Publish(t))) && Producing(Next(s, Publish(t)))
  {
    assert Current(s, s.producers[t]);
    WrapIs(|s.put|, |s.data|);
    var s' := Next(s, Publish(t));
    forall k | |s'.got| <= k < |s'.put| ensures s'.data[k % |s'.data|] == s'.put[k] {
      if k < |s.put| {
        assert s.put[k] == s'.put[k];
      }
    }
  }

  lemma LoadStep(s: State, e: Step)
    requires Indexed(s) && Queued(s) && Producing(s) && Enabled(s, e) && Harmless(s, e) && (e.Put? || e.LoadHead? || e.LoadTail? || e.Reject?)
    ensures Indexed(Next(s, e)) && Queued(Next(s, e)) && Producing(Next(s, e))
  {
    if e.LoadTail? {
      assert Current(s, s.producers[e.t]);
    }
  }

  /** Whatever the consumers are doing. */
  lemma ProducerStep(s: State, e: Step)
    requires Indexed(s) && Queued(s) && Producing(s) && Enabled(s, e) && Harmless(s, e)
    requires e.Put? || e.LoadHead? || e.LoadTail? || e.Reject? || e.Write? || e.Publish?
    ensures Indexed(Next(s, e)) && Queued(Next(s, e)) && Producing(Next(s, e))
  {
    hide Indexed, Queued, Producing, Next, Enabled, Harmless;
    if e.Write? {
      WriteStep(s, e.t);
    } else if e.Publish? {
      PublishStep(s, e.t);
    } else {
      LoadStep(s, e);
    }
  }

  lemma ProducerSpares(s: State, e: Step)
    requires Indexed(s) && Queued(s) && Consuming(s) && Enabled(s, e)
    requires e.Put? || e.LoadHead? || e.LoadTail? || e.Reject? || e.Write? || e.Publish?
    ensures Indexed(Next(s, e)) && Consuming(Next(s, e))
  {
    IndexedKept(s, e);
  }

  // ----- the steps of consumers -----

  lemma FetchStep(s: State, t: nat)
    requires Indexed(s) && Queued(s) && Consuming(s) && Enabled(s, Fetch(t))
    ensures Indexed(Next(s, Fetch(t))) && Queued(Next(s, Fetch(t))) && Consuming(Next(s, Fetch(t)))
  {
    assert Timely(s, s.consumers[t]);
    assert s.data[|s.got| % |s.data|] == s.put[|s.got|];
  }

  lemma ReleaseStep(s: State, t: nat)
    requires Indexed(s) && Queued(s) && Consuming(s) && Enabled(s, Release(t))
    ensures Indexed(Next(s, Release(t))) && Queued(Next(s, Release(t))) && Consuming(Next(s, Release(t)))
  {
    assert Timely(s, s.consumers[t]);
    WrapIs(|s.got|, |s.data|);
    assert s.put[..|s.got| + 1] == s.put[..|s.got|] + [s.put[|s.got|]];
    var s' := Next(s, Release(t));
    forall u | u in s'.consumers ensures Missed(s'.consumers[u]) || Timely(s', s'.consumers[u]) {
      assert Unmixed(s, s.consumers[t], s.consumers[u]);
    }
    forall u, v | u in s'.consumers && v in s'.consumers && u != v ensures Unmixed(s', s'.consumers[u], s'.consumers[v]) {
      assert Unmixed(s, s.consumers[t], s.consumers[u]);
      assert Unmixed(s, s.consumers[t], s.consumers[v]);
      assert Unmixed(s, s.consumers[u], s.consumers[v]);
    }
  }

  lemma PeekTailStep(s: State, t: nat)
    requires Indexed(s) && Queued(s) && Consuming(s) && Enabled(s, PeekTail(t))
    ensures Indexed(Next(s, PeekTail(t))) && Queued(Next(s, PeekTail(t))) && Consuming(Next(s, PeekTail(t)))
  {
    var c := s.consumers[t];
    assert Timely(s, c);
    if |s.got| <= c.upTo {
      TestsExact(c.upTo, |s.got|, |s.data|);
    } else {
      SlotsDiffer(|s.data|, c.upTo, |s.got|);
    }
    var s' := Next(s, PeekTail(t));
    forall u, v | u in s'.consumers && v in s'.consumers && u != v ensures Unmixed(s', s'.consumers[u], s'.consumers[v]) {
      assert Unmixed(s, s.consumers[u], s.consumers[v]);
    }
  }

  lemma PeekHeadStep(s: State, t: nat)
    requires Indexed(s) && Queued(s) && Consuming(s) && Enabled(s, PeekHead(t))
    ensures Indexed(Next(s, PeekHead(t))) && Queued(Next(s, PeekHead(t))) && Consuming(Next(s, PeekHead(t)))
  {
    var s' := Next(s, PeekHead(t));
    forall u, v | u in s'.consumers && v in s'.consumers && u != v ensures Unmixed(s', s'.consumers[u], s'.consumers[v]) {
      assert Unmixed(s, s.consumers[u], s.consumers[v]);
    }
  }

  lemma EmptyStep(s: State, t: nat)
    requires Indexed(s) && Queued(s) && Consuming(s) && Enabled(s, Empty(t))
    ensures Indexed(Next(s, Empty(t))) && Queued(Next(s, Empty(t))) && Consuming(Next(s, Empty(t)))
  {
    var s' := Next(s, Empty(t));
    forall u, v | u in s'.consumers && v in s'.consumers && u != v ensures Unmixed(s', s'.consumers[u], s'.consumers[v]) {
      assert Unmixed(s, s.consumers[u], s.consumers[v]);
    }
  }

  lemma TakeStep(s: State, e: Step)
    requires Indexed(s) && Queued(s) && Consuming(s) && Enabled(s, e) && Harmless(s, e) && e.Take?
    ensures Indexed(Next(s, e)) && Queued(Next(s, e)) && Consuming(Next(s, e))
  {
    forall t | t in s.consumers && !Missed(s.consumers[t]) ensures Stale(s, s.consumers[t]) {
      LateIs(s, s.consumers[t]);
    }
  }

  /** Whatever the producers are doing. */
  lemma ConsumerStep(s: State, e: Step)
    requires Indexed(s) && Queued(s) && Consuming(s) && Enabled(s, e) && Harmless(s, e)
    requires e.Take? || e.PeekHead? || e.PeekTail? || e.Empty? || e.Fetch? || e.Release?
    ensures Indexed(Next(s, e)) && Queued(Next(s, e)) && Consuming(Next(s, e))
  {
    hide Indexed, Queued, Consuming, Next, Enabled, Harmless;
    if e.Fetch? {
      FetchStep(s, e.t);
    } else if e.Release? {
      ReleaseStep(s, e.t);
    } else if e.PeekTail? {
      PeekTailStep(s, e.t);
    } else if e.Take? {
      TakeStep(s, e);
    } else if e.PeekHead? {
      PeekHeadStep(s, e.t);
    } else {
      EmptyStep(s, e.t);
    }
  }

  lemma ConsumerSpares(s: State, e: Step)
    requires Indexed(s) && Queued(s) && Producing(s) && Enabled(s, e)
    requires e.Take? || e.PeekHead? || e.PeekTail? || e.Empty? || e.Fetch? || e.Release?
    ensures Indexed(Next(s, e)) && Producing(Next(s, e))
  {
    IndexedKept(s, e);
  }

  lemma StepKeeps(s: State, e: Step)
    requires Inv(s) && Enabled(s, e) && Harmless(s, e)
    ensures Inv(Next(s, e))
  {
    hide Indexed, Queued, Producing, Consuming, Next, Enabled, Harmless;
    if e.Put? || e.LoadHead? || e.LoadTail? || e.Reject? || e.Write? || e.Publish? {
      ProducerStep(s, e);
      ProducerSpares(s, e);
    } else {
      ConsumerStep(s, e);
      ConsumerSpares(s, e);
    }
  }

  // ----- runs -----

  ghost predicate Start(s: State) {
    && s.data != [] && s.head == s.tail == 0
    && s.producers == map[] && s.consumers == map[] && s.put == s.got == []
  }

  ghost predicate Leads(s: State, e: Step, s': State) {
    Indexed(s) && Enabled(s, e) && s' == Next(s, e)
  }

  ghost predicate Run(states: seq<State>, steps: seq<Step>) {
    && |states| == |steps| + 1 && Start(states[0])
    && forall i :: 0 <= i < |steps| ==> Leads(states[i], steps[i], states[i + 1])
  }

  /** Every entry is harmless. */
  ghost predicate Orderly(states: seq<State>, steps: seq<Step>) {
    && |states| > |steps|
    && forall i :: 0 <= i < |steps| ==> Indexed(states[i]) && Harmless(states[i], steps[i])
  }

  lemma {:induction false} RunKeeps(states: seq<State>, steps: seq<Step>)
    requires Run(states, steps) && Orderly(states, steps)
    ensures Inv(states[|steps|])
  {
    hide Next, Enabled, Indexed, Harmless;
    if steps == [] {
      StartInv(states[0]);
    } else {
      hide Inv;
      var n := |steps| - 1;
      assert Run(states[..n + 1], steps[..n]) && Orderly(states[..n + 1], steps[..n]);
      RunKeeps(states[..n + 1], steps[..n]);
      assert Leads(states[n], steps[n], states[n + 1]);
      StepKeeps(states[n], steps[n]);
    }
  }

  lemma StartInv(s: State)
    requires Start(s)
    ensures Inv(s)
  {
    ModShift(0, |s.data|, 0);
  }

  /** The items returned are the items put, each once and in order, up to as many as the ring
      says it holds. */
  ghost predicate Sane(s: State) {
    s.tail < |s.data| && s.got <= s.put && Size(s) == |s.put| - |s.got|
  }

  lemma InvSane(s: State)
    requires Inv(s)
    ensures Sane(s)
  {
    SizeIs(s);
  }

  /** In every interleaving of the loads and stores of any number of threads in which every
      entry is harmless, the items returned are the items put, each once and in order, up to
      those still in the ring, which are fewer than its slots. */
  lemma FirstInFirstOut(states: seq<State>, steps: seq<Step>)
    requires Run(states, steps) && Orderly(states, steps)
    ensures var s := states[|steps|];
            Sane(s) && s.got <= s.put && |s.put| - |s.got| < |s.data|
  {
    RunKeeps(states, steps);
    InvSane(states[|steps|]);
  }

  /** The items queued. */
  function Contents(s: State): seq<nat>
    requires |s.got| <= |s.put|
  {
    s.put[|s.got|..]
  }

  /** Under that condition the loads and stores carry out the steps of an atomic queue: the
      store of the head adds the item at the end, the store of the tail takes the item at the
      front, and nothing else changes what is queued. */
  lemma StepRefines(s: State, e: Step)
    requires Inv(s) && Enabled(s, e)
    ensures |Next(s, e).got| <= |Next(s, e).put|
    ensures e.Publish? ==> Contents(Next(s, e)) == Contents(s) + [s.producers[e.t].item] && |Contents(s)| + 1 < |s.data|
    ensures e.Release? ==> Contents(s) != [] && s.consumers[e.t].item == Contents(s)[0] && Contents(Next(s, e)) == Contents(s)[1..]
    ensures !e.Publish? && !e.Release? ==> Contents(Next(s, e)) == Contents(s)
  {
    if e.Publish? {
      assert Current(s, s.producers[e.t]);
    } else if e.Release? {
      assert Timely(s, s.consumers[e.t]);
    }
  }

  /** Under the same condition an item is refused exactly when the ring was full by the head
      and the tail that were loaded, and none is returned exactly when it was empty by them. */
  lemma RefusedExactly(states: seq<State>, steps: seq<Step>, t: nat)
    requires Run(states, steps) && Orderly(states, steps)
    ensures var s := states[|steps|];
            && (t in s.producers && s.producers[t].SawBoth? ==>
                  var p := s.producers[t];
                  Enabled(s, Reject(t)) <==> p.at + 1 == p.since + |s.data|)
            && (t in s.consumers && s.consumers[t].KnowsBoth? ==>
                  var c := s.consumers[t];
                  Enabled(s, Empty(t)) <==> c.upTo == c.since)
  {
    RunKeeps(states, steps);
    var s := states[|steps|];
    if t in s.producers && s.producers[t].SawBoth? {
      var p := s.producers[t];
      assert SawAt(p, |s.data|);
      TestsExact(p.at, p.since, |s.data|);
    }
    if t in s.consumers && s.consumers[t].KnowsBoth? {
      var c := s.consumers[t];
      assert KnewAt(c, |s.data|);
      if c.since <= c.upTo {
        TestsExact(c.upTo, c.since, |s.data|);
      } else {
        SlotsDiffer(|s.data|, c.upTo, c.since);
      }
    }
  }

  // ----- the calls, undisturbed -----

  class Ring {
    const data: array<nat>
    var head: nat
    var tail: nat
    ghost var put: seq<nat>
    ghost var got: seq<nat>

    constructor (capacity: nat)
      requires capacity > 0
      ensures Valid() && fresh(data) && data.Length == capacity && put == got == []
    {
      data := new nat[capacity](_ => 0);
      head, tail, put, got := 0, 0, [], [];
      new;
      ModShift(0, capacity, 0);
    }

    ghost function Abs(): State
      reads this, data
    {
      State(data[..], head, tail, map[], map[], put, got)
    }

    ghost predicate Valid()
      reads this, data
    {
      Indexed(Abs()) && Queued(Abs())
    }

    /** ring_buffer_enqueue: takes the item unless capacity - 1 items are queued. */
    method Enqueue(item: nat) returns (ok: bool)
      requires Valid()
      modifies this`head, this`put, data
      ensures Valid() && (ok <==> |old(put)| - |got| + 1 < data.Length)
      ensures put == old(put) + if ok then [item] else []
    {
      TestsExact(|put|, |got|, data.Length);
      var next := Wrap(head, data.Length);
      if next == tail {
        return false;
      }
      ghost var before := Abs();
      forall k | |got| <= k < |put| ensures before.data[head := item][k % data.Length] == put[k] {
        WriteKeeps(before, item, k);
      }
      data[head] := item;
      assert data[..] == before.data[head := item];
      WrapIs(|put|, data.Length);
      head := next;
      put := put + [item];
      ok := true;
    }

    /** ring_buffer_dequeue: the oldest item queued, or none when there is none. */
    method Dequeue() returns (item: Option<nat>)
      requires Valid()
      modifies this`tail, this`got
      ensures Valid() && (item.None? <==> |put| == |old(got)|)
      ensures got == old(got) + if item.Some? then [item.value] else []
      ensures item.Some? ==> item.value == put[|old(got)|]
    {
      TestsExact(|put|, |got|, data.Length);
      if head == tail {
        return None;
      }
      assert data[..][|got| % data.Length] == put[|got|];
      item := Some(data[tail]);
      WrapIs(|got|, data.Length);
      tail := Wrap(tail, data.Length);
      got := got + [item.value];
    }

    /** ring_buffer_size. */
    method Size() returns (n: nat)
      requires Valid()
      ensures n == |put| - |got|
    {
      n := if head >= tail then head - tail else data.Length - tail + head;
      Distance(|put|, |got|, data.Length);
    }
  }
}
