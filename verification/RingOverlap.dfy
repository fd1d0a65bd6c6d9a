/**
 What happens in the ring of ring_buffer.c when a thread enters a call that another thread is
 in: the entries that RingQueue calls harmless are exactly those after which the order of the
 items is safe.
 */
module RingOverlap {
  import opened RingBuffer
  import opened RingQueue

  // ----- paths -----

  /** The steps lead from one state to the other, every entry among them harmless. */
  ghost predicate Path(s: State, steps: seq<Step>, s': State)
    decreases |steps|
  {
    if steps == [] then s' == s
    else Indexed(s) && Enabled(s, steps[0]) && Harmless(s, steps[0]) && Path(Next(s, steps[0]), steps[1..], s')
  }

  /** No entry among them. */
  predicate Inside(steps: seq<Step>) {
    forall e :: e in steps ==> !e.Put? && !e.Take?
  }

  lemma {:induction false} Join(s: State, a: seq<Step>, m: State, b: seq<Step>, s': State)
    requires Path(s, a, m) && Path(m, b, s')
    ensures Path(s, a + b, s')
    decreases |a|
  {
    hide Indexed, Enabled, Next, Harmless;
    if a == [] {
      assert a + b == b;
    } else {
      Join(Next(s, a[0]), a[1..], m, b, s');
      assert (a + b)[0] == a[0] && (a + b)[1..] == a[1..] + b;
    }
  }

  lemma One(s: State, e: Step)
    requires Indexed(s) && Enabled(s, e) && Harmless(s, e)
    ensures Path(s, [e], Next(s, e))
  {
    hide Indexed, Enabled, Next, Harmless;
    assert [e][1..] == [];
  }

  /** A path of harmless entries keeps the invariant. */
  lemma {:induction false} PathKeeps(s: State, steps: seq<Step>, s': State)
    requires Inv(s) && Path(s, steps, s')
    ensures Inv(s')
    decreases |steps|
  {
    hide Indexed, Enabled, Next, Harmless, Inv;
    if steps != [] {
      StepKeeps(s, steps[0]);
      PathKeeps(Next(s, steps[0]), steps[1..], s');
    }
  }

  /** A run continued by a path. */
  lemma {:induction false} Continued(states: seq<State>, steps: seq<Step>, more: seq<Step>, s': State) returns (longer: seq<State>)
    requires Run(states, steps) && Path(states[|steps|], more, s')
    ensures Run(longer, steps + more) && states <= longer && longer[|steps + more|] == s'
    ensures forall i :: |steps| <= i < |steps + more| ==> Indexed(longer[i]) && Harmless(longer[i], (steps + more)[i])
    decreases |more|
  {
    hide Indexed, Enabled, Next, Harmless;
    if more == [] {
      longer := states;
      assert steps + more == steps;
    } else {
      var s, e := states[|steps|], more[0];
      assert Leads(s, e, Next(s, e));
      var states', steps' := states + [Next(s, e)], steps + [e];
      forall i | 0 <= i < |steps'| ensures Leads(states'[i], steps'[i], states'[i + 1]) {
        if i < |steps| {
          assert Leads(states[i], steps[i], states[i + 1]);
        }
      }
      assert steps + more == steps' + more[1..];
      longer := Continued(states', steps', more[1..], s');
      assert longer[|steps|] == states'[|steps|] == s;
    }
  }

  // ----- a consumer goes on -----

  /** A consumer that, left alone, takes the item at the tail. */
  predicate Promising(s: State, t: nat)
    requires Indexed(s)
  {
    t in s.consumers &&
    match s.consumers[t]
    case Asks => s.head != s.tail
    case KnowsHead(h, _) => h != s.tail
    case KnowsBoth(h, tail, _, _) => h != tail && tail == s.tail
    case Fetched(item, tail) => item == s.data[s.tail] && tail == s.tail
  }

  function WithConsumer(s: State, t: nat, c: Consumer): State {
    s.(consumers := s.consumers[t := c])
  }

  lemma Fetches(s: State, t: nat)
    requires Indexed(s) && t in s.consumers && s.consumers[t].KnowsBoth? && !Missed(s.consumers[t]) && s.consumers[t].tail == s.tail
    ensures Path(s, [Fetch(t)], WithConsumer(s, t, Fetched(s.data[s.tail], s.tail)))
  {
    One(s, Fetch(t));
  }

  lemma PeeksTail(s: State, t: nat)
    requires Indexed(s) && t in s.consumers && s.consumers[t].KnowsHead?
    ensures Path(s, [PeekTail(t)], WithConsumer(s, t, KnowsBoth(s.consumers[t].head, s.tail, s.consumers[t].upTo, |s.got|)))
  {
    One(s, PeekTail(t));
  }

  lemma PeeksHead(s: State, t: nat)
    requires Indexed(s) && t in s.consumers && s.consumers[t].Asks?
    ensures Path(s, [PeekHead(t)], WithConsumer(s, t, KnowsHead(s.head, |s.put|)))
  {
    One(s, PeekHead(t));
  }

  /** It gets to hold the item. */
  lemma Commits(s: State, t: nat) returns (steps: seq<Step>)
    requires Indexed(s) && Promising(s, t)
    ensures Inside(steps) && Path(s, steps, WithConsumer(s, t, Fetched(s.data[s.tail], s.tail)))
    decreases match s.consumers[t] case Asks => 3 case KnowsHead(_, _) => 2 case KnowsBoth(_, _, _, _) => 1 case _ => 0
  {
    hide Path;
    var c := s.consumers[t];
    var end := WithConsumer(s, t, Fetched(s.data[s.tail], s.tail));
    match c
    case Fetched(_, _) =>
      steps := [];
      assert s.consumers[t := c] == s.consumers;
      Stay(s);
    case KnowsBoth(_, _, _, _) =>
      steps := [Fetch(t)];
      Fetches(s, t);
    case KnowsHead(h, upTo) =>
      PeeksTail(s, t);
      var d := KnowsBoth(h, s.tail, upTo, |s.got|);
      var s1 := WithConsumer(s, t, d);
      steps := Commits(s1, t);
      assert WithConsumer(s1, t, Fetched(s.data[s.tail], s.tail)) == end by { assert s.consumers[t := d][t := Fetched(s.data[s.tail], s.tail)] == s.consumers[t := Fetched(s.data[s.tail], s.tail)]; }
      Join(s, [PeekTail(t)], s1, steps, end);
      steps := [PeekTail(t)] + steps;
    case Asks =>
      PeeksHead(s, t);
      var d := KnowsHead(s.head, |s.put|);
      var s1 := WithConsumer(s, t, d);
      steps := Commits(s1, t);
      assert WithConsumer(s1, t, Fetched(s.data[s.tail], s.tail)) == end by { assert s.consumers[t := d][t := Fetched(s.data[s.tail], s.tail)] == s.consumers[t := Fetched(s.data[s.tail], s.tail)]; }
      Join(s, [PeekHead(t)], s1, steps, end);
      steps := [PeekHead(t)] + steps;
  }

  lemma Stay(s: State)
    ensures Path(s, [], s)
  {
  }

  /** The item at the tail has been returned by this consumer. */
  function Taken(s: State, t: nat): State
    requires Indexed(s)
  {
    s.(tail := Wrap(s.tail, |s.data|), got := s.got + [s.data[s.tail]], consumers := s.consumers - {t})
  }

  lemma Takes(s: State, t: nat) returns (steps: seq<Step>)
    requires Indexed(s) && Promising(s, t)
    ensures Inside(steps) && Path(s, steps, Taken(s, t))
  {
    hide Path, Promising;
    steps := Commits(s, t);
    var s1 := WithConsumer(s, t, Fetched(s.data[s.tail], s.tail));
    IndexedWith(s, t);
    One(s1, Release(t));
    assert s1.consumers - {t} == s.consumers - {t};
    assert Next(s1, Release(t)) == Taken(s, t);
    Join(s, steps, s1, [Release(t)], Taken(s, t));
    steps := steps + [Release(t)];
  }

  lemma IndexedWith(s: State, t: nat)
    requires Indexed(s)
    ensures Indexed(WithConsumer(s, t, Fetched(s.data[s.tail], s.tail)))
  {
  }

  /** The oldest item is what is taken. */
  lemma TakenQueued(s: State, t: nat)
    requires Indexed(s) && Queued(s) && |s.got| < |s.put|
    ensures Indexed(Taken(s, t)) && Queued(Taken(s, t))
  {
    WrapIs(|s.got|, |s.data|);
    assert s.data[|s.got| % |s.data|] == s.put[|s.got|];
    assert s.put[..|s.got| + 1] == s.put[..|s.got|] + [s.put[|s.got|]];
  }

  // ----- a producer goes on -----

  /** A producer that, left alone, puts its item at the head. */
  predicate Able(s: State, t: nat)
    requires Indexed(s)
  {
    && t in s.producers && Wrap(s.head, |s.data|) != s.tail
    && match s.producers[t]
       case Wants(_) => true
       case SawHead(_, h, _) => h == s.head
       case SawBoth(_, h, _, _, _) => h == s.head && !Refused(s.producers[t], |s.data|)
       case Wrote(item, h) => h == s.head && s.data[s.head] == item
  }

  function WithProducer(s: State, t: nat, p: Producer): State {
    s.(producers := s.producers[t := p])
  }

  /** The item is in its slot, and the head not yet moved. */
  function Written(s: State, t: nat): State
    requires Indexed(s) && t in s.producers
  {
    var x := s.producers[t].item;
    s.(data := s.data[s.head := x], producers := s.producers[t := Wrote(x, s.head)])
  }

  lemma LoadsHead(s: State, t: nat)
    requires Indexed(s) && t in s.producers && s.producers[t].Wants?
    ensures Path(s, [LoadHead(t)], WithProducer(s, t, SawHead(s.producers[t].item, s.head, |s.put|)))
  {
    One(s, LoadHead(t));
  }

  lemma LoadsTail(s: State, t: nat)
    requires Indexed(s) && t in s.producers && s.producers[t].SawHead?
    ensures var p := s.producers[t];
            Path(s, [LoadTail(t)], WithProducer(s, t, SawBoth(p.item, p.head, s.tail, p.at, |s.got|)))
  {
    One(s, LoadTail(t));
  }

  lemma WritesSlot(s: State, t: nat)
    requires Indexed(s) && t in s.producers && s.producers[t].SawBoth? && s.producers[t].head == s.head && !Refused(s.producers[t], |s.data|)
    ensures Path(s, [Write(t)], Written(s, t))
  {
    One(s, Write(t));
  }

  lemma Writes(s: State, t: nat) returns (steps: seq<Step>)
    requires Indexed(s) && Able(s, t)
    ensures Inside(steps) && Path(s, steps, Written(s, t))
    decreases match s.producers[t] case Wants(_) => 3 case SawHead(_, _, _) => 2 case SawBoth(_, _, _, _, _) => 1 case _ => 0
  {
    hide Path;
    var p := s.producers[t];
    match p
    case Wrote(x, h) =>
      steps := [];
      assert s.producers[t := p] == s.producers && s.data[s.head := x] == s.data;
      Stay(s);
    case SawBoth(_, _, _, _, _) =>
      steps := [Write(t)];
      WritesSlot(s, t);
    case SawHead(x, h, at) =>
      LoadsTail(s, t);
      var q := SawBoth(x, h, s.tail, at, |s.got|);
      var s1 := WithProducer(s, t, q);
      steps := Writes(s1, t);
      assert Written(s1, t) == Written(s, t) by { assert s.producers[t := q][t := Wrote(x, s.head)] == s.producers[t := Wrote(x, s.head)]; }
      Join(s, [LoadTail(t)], s1, steps, Written(s, t));
      steps := [LoadTail(t)] + steps;
    case Wants(x) =>
      LoadsHead(s, t);
      var q := SawHead(x, s.head, |s.put|);
      var s1 := WithProducer(s, t, q);
      steps := Writes(s1, t);
      assert Written(s1, t) == Written(s, t) by { assert s.producers[t := q][t := Wrote(x, s.head)] == s.producers[t := Wrote(x, s.head)]; }
      Join(s, [LoadHead(t)], s1, steps, Written(s, t));
      steps := [LoadHead(t)] + steps;
  }

  /** The item is in the ring. */
  function Added(s: State, t: nat): State
    requires Indexed(s) && t in s.producers
  {
    var x := s.producers[t].item;
    s.(data := s.data[s.head := x], head := Wrap(s.head, |s.data|), put := s.put + [x], producers := s.producers - {t})
  }

  lemma Adds(s: State, t: nat) returns (steps: seq<Step>)
    requires Indexed(s) && Able(s, t)
    ensures Inside(steps) && Path(s, steps, Added(s, t))
  {
    hide Path;
    steps := Writes(s, t);
    var s1 := Written(s, t);
    One(s1, Publish(t));
    assert s1.producers - {t} == s.producers - {t};
    assert Next(s1, Publish(t)) == Added(s, t);
    Join(s, steps, s1, [Publish(t)], Added(s, t));
    steps := steps + [Publish(t)];
  }

  lemma AddedQueued(s: State, t: nat)
    requires Indexed(s) && Queued(s) && Able(s, t)
    ensures Indexed(Added(s, t)) && Queued(Added(s, t))
  {
    TestsExact(|s.put|, |s.got|, |s.data|);
    WrapIs(|s.put|, |s.data|);
    var s' := Added(s, t);
    forall k | |s'.got| <= k < |s'.put| ensures s'.data[k % |s'.data|] == s'.put[k] {
      if k < |s.put| {
        WriteKeeps(s, s.producers[t].item, k);
      }
    }
  }

  // ----- two in one call -----

  /** Both consumers hold the item at the tail. */
  function BothHold(s: State, c: nat, d: nat): State
    requires Indexed(s)
  {
    var f := Fetched(s.data[s.tail], s.tail);
    WithConsumer(WithConsumer(s, c, f), d, f)
  }

  /** A consumer that goes on, and one that has just entered a ring that is not empty, can come
      to hold the same item. */
  lemma SameItem(s: State, c: nat, d: nat) returns (steps: seq<Step>)
    requires Indexed(s) && c != d && Promising(s, c) && Promising(s, d) && s.consumers[d].Asks?
    ensures Inside(steps) && Path(s, steps, BothHold(s, c, d))
  {
    hide Path;
    steps := Commits(s, c);
    var s1 := WithConsumer(s, c, Fetched(s.data[s.tail], s.tail));
    var rest := Commits(s1, d);
    Join(s, steps, s1, rest, BothHold(s, c, d));
    steps := steps + rest;
  }

  /** Then both return it, and the tail moves over it once. */
  function TwiceTaken(s: State, c: nat, d: nat): State
    requires Indexed(s)
  {
    var x := s.data[s.tail];
    s.(tail := Wrap(s.tail, |s.data|), got := s.got + [x] + [x], consumers := s.consumers - {c} - {d})
  }

  lemma BothRelease(s: State, c: nat, d: nat)
    requires Indexed(s) && c != d && c in s.consumers && d in s.consumers
    ensures Path(BothHold(s, c, d), [Release(c), Release(d)], TwiceTaken(s, c, d))
  {
    hide Path;
    var s1 := BothHold(s, c, d);
    One(s1, Release(c));
    var s2 := Next(s1, Release(c));
    One(s2, Release(d));
    assert s1.consumers - {c} - {d} == s.consumers - {c} - {d};
    assert Next(s2, Release(d)) == TwiceTaken(s, c, d);
    Join(s1, [Release(c)], s2, [Release(d)], TwiceTaken(s, c, d));
    assert [Release(c)] + [Release(d)] == [Release(c), Release(d)];
  }

  lemma TwiceTakenWrong(s: State, c: nat, d: nat)
    requires Indexed(s) && Queued(s) && |s.got| < |s.put|
    ensures !Sane(TwiceTaken(s, c, d))
  {
    WrapIs(|s.got|, |s.data|);
    Distance(|s.put|, |s.got| + 1, |s.data|);
  }

  /** Both producers have moved the head over the slot that only the later one has. */
  function WrittenOver(s: State, p: nat, q: nat): State
    requires Indexed(s) && p in s.producers && q in s.producers
  {
    var x, y := s.producers[p].item, s.producers[q].item;
    s.(data := s.data[s.head := y], head := Wrap(s.head, |s.data|), put := s.put + [x] + [y], producers := s.producers - {p} - {q})
  }

  lemma BothWrite(s: State, p: nat, q: nat) returns (steps: seq<Step>)
    requires Indexed(s) && p != q && Able(s, p) && Able(s, q) && s.producers[q].Wants?
    ensures Inside(steps) && Path(s, steps, Written(Written(s, p), q))
  {
    hide Path;
    steps := Writes(s, p);
    var s1 := Written(s, p);
    var rest := Writes(s1, q);
    Join(s, steps, s1, rest, Written(s1, q));
    steps := steps + rest;
  }

  lemma BothPublish(s: State, p: nat, q: nat)
    requires Indexed(s) && p != q && p in s.producers && q in s.producers
    ensures Path(Written(Written(s, p), q), [Publish(p), Publish(q)], WrittenOver(s, p, q))
  {
    hide Path;
    var s1 := Written(Written(s, p), q);
    var x, y := s.producers[p].item, s.producers[q].item;
    assert s1.data == s.data[s.head := y];
    One(s1, Publish(p));
    var s2 := Next(s1, Publish(p));
    One(s2, Publish(q));
    assert s1.producers - {p} - {q} == s.producers - {p} - {q};
    assert Next(s2, Publish(q)) == WrittenOver(s, p, q);
    Join(s1, [Publish(p)], s2, [Publish(q)], WrittenOver(s, p, q));
    assert [Publish(p)] + [Publish(q)] == [Publish(p), Publish(q)];
  }

  lemma WrittenOverWrong(s: State, p: nat, q: nat)
    requires Indexed(s) && Queued(s) && p in s.producers && q in s.producers && |s.put| + 1 < |s.got| + |s.data|
    ensures !Sane(WrittenOver(s, p, q))
  {
    WrapIs(|s.put|, |s.data|);
    Distance(|s.put| + 1, |s.got|, |s.data|);
  }

  // ----- consumers that overlap -----

  /** A consumer loaded the head of a ring that was empty, and nothing has been taken since. */
  predicate SawEmpty(s: State, c: Consumer) {
    c.KnowsHead? && c.head == s.tail
  }

  lemma SawEmptyIs(s: State, c: Consumer)
    requires Indexed(s) && Queued(s) && Timely(s, c)
    ensures SawEmpty(s, c) <==> c.KnowsHead? && c.upTo == |s.got|
  {
    if c.KnowsHead? {
      if |s.got| <= c.upTo {
        TestsExact(c.upTo, |s.got|, |s.data|);
      } else {
        SlotsDiffer(|s.data|, c.upTo, |s.got|);
      }
    }
  }

  /** Any other that is not bound to leave takes the oldest item, if there is one. */
  lemma GoesOn(s: State, t: nat)
    requires Indexed(s) && Queued(s) && |s.got| < |s.put| && t in s.consumers
    requires var c := s.consumers[t]; Timely(s, c) && KnewAt(c, |s.data|) && !Missed(c) && !SawEmpty(s, c)
    ensures Promising(s, t)
  {
    TestsExact(|s.put|, |s.got|, |s.data|);
    assert s.data[|s.got| % |s.data|] == s.put[|s.got|];
  }

  /** One that has just entered takes the last item, and the other, which saw the ring empty
      before, one that is not there. */
  lemma TakesNothing(s: State, c: nat, d: nat) returns (steps: seq<Step>, s': State)
    requires Indexed(s) && Queued(s) && |s.data| > 1 && |s.put| == |s.got| + 1
    requires c != d && c in s.consumers && d in s.consumers && s.consumers[d].Asks? && SawEmpty(s, s.consumers[c])
    ensures Inside(steps) && Path(s, steps, s') && |s'.got| > |s'.put|
  {
    hide Path;
    TestsExact(|s.put|, |s.got|, |s.data|);
    steps := Takes(s, d);
    var s1 := Taken(s, d);
    TakenQueued(s, d);
    var rest := Takes(s1, c);
    s' := Taken(s1, c);
    Join(s, steps, s1, rest, s');
    steps := steps + rest;
  }

  lemma TakesTwice(s: State, c: nat, d: nat) returns (steps: seq<Step>)
    requires Indexed(s) && c != d && Promising(s, c) && Promising(s, d) && s.consumers[d].Asks?
    ensures Inside(steps) && Path(s, steps, TwiceTaken(s, c, d))
  {
    hide Path, Indexed;
    steps := SameItem(s, c, d);
    BothRelease(s, c, d);
    Join(s, steps, BothHold(s, c, d), [Release(c), Release(d)], TwiceTaken(s, c, d));
    steps := steps + [Release(c), Release(d)];
  }

  /** Consumer c is not bound to leave and not late, and d has just entered. */
  ghost predicate Overlap(s: State, c: nat, d: nat)
    requires Indexed(s)
  {
    && c != d && c in s.consumers && d in s.consumers && s.consumers[d].Asks?
    && Timely(s, s.consumers[c]) && KnewAt(s.consumers[c], |s.data|) && !Missed(s.consumers[c]) && !Late(s, s.consumers[c])
  }

  lemma OverlapBreaks(s: State, c: nat, d: nat) returns (steps: seq<Step>, s': State)
    requires Indexed(s) && Queued(s) && |s.data| > 1 && Overlap(s, c, d) && |s.got| < |s.put|
    ensures Inside(steps) && Path(s, steps, s') && !Sane(s')
  {
    hide Path, Indexed, Queued, Promising;
    if SawEmpty(s, s.consumers[c]) {
      SizeIs(s);
      steps, s' := TakesNothing(s, c, d);
    } else {
      GoesOn(s, c);
      GoesOn(s, d);
      steps := TakesTwice(s, c, d);
      s' := TwiceTaken(s, c, d);
      TwiceTakenWrong(s, c, d);
    }
  }

  /** On an empty ring, once a producer has put an item. */
  lemma OverlapWaits(s: State, c: nat, d: nat, p: nat)
    requires Indexed(s) && Queued(s) && |s.data| > 1 && Overlap(s, c, d) && |s.got| == |s.put| && Able(s, p)
    ensures Indexed(Added(s, p)) && Queued(Added(s, p)) && Overlap(Added(s, p), c, d)
  {
    AddedQueued(s, p);
    SawEmptyIs(s, s.consumers[c]);
    SizeIs(Added(s, p));
  }

  lemma ConsumersBreak(s: State, c: nat, d: nat, p: nat) returns (steps: seq<Step>, s': State)
    requires Indexed(s) && Queued(s) && |s.data| > 1 && Overlap(s, c, d) && (|s.got| < |s.put| || Able(s, p))
    ensures Inside(steps) && Path(s, steps, s') && !Sane(s')
  {
    hide Path, Indexed, Queued, Overlap, Sane;
    if |s.got| < |s.put| {
      steps, s' := OverlapBreaks(s, c, d);
    } else {
      Ordered(s);
      OverlapWaits(s, c, d, p);
      steps := Adds(s, p);
      var rest: seq<Step>;
      rest, s' := OverlapBreaks(Added(s, p), c, d);
      Join(s, steps, Added(s, p), rest, s');
      steps := steps + rest;
    }
  }

  lemma Ordered(s: State)
    requires Indexed(s) && Queued(s)
    ensures |s.got| <= |s.put| < |s.got| + |s.data|
  {
  }

  // ----- producers that overlap -----

  /** Producer p is not bound to leave, and q has just entered. */
  ghost predicate Crossing(s: State, p: nat, q: nat)
    requires Indexed(s)
  {
    && p != q && p in s.producers && q in s.producers && s.producers[q].Wants?
    && Current(s, s.producers[p]) && SawAt(s.producers[p], |s.data|) && !Refused(s.producers[p], |s.data|)
  }

  lemma HasRoom(s: State, t: nat)
    requires Indexed(s) && Queued(s) && |s.put| + 1 < |s.got| + |s.data| && t in s.producers
    requires Current(s, s.producers[t]) && !Refused(s.producers[t], |s.data|)
    ensures Able(s, t)
  {
    TestsExact(|s.put|, |s.got|, |s.data|);
  }

  lemma CrossingBreaks(s: State, p: nat, q: nat) returns (steps: seq<Step>, s': State)
    requires Indexed(s) && Queued(s) && Crossing(s, p, q) && |s.put| + 1 < |s.got| + |s.data|
    ensures Inside(steps) && Path(s, steps, s') && s' == WrittenOver(s, p, q) && !Sane(s')
  {
    hide Path, Queued, Able;
    HasRoom(s, p);
    HasRoom(s, q);
    steps := BothWrite(s, p, q);
    BothPublish(s, p, q);
    s' := WrittenOver(s, p, q);
    Join(s, steps, Written(Written(s, p), q), [Publish(p), Publish(q)], s');
    steps := steps + [Publish(p), Publish(q)];
    WrittenOverWrong(s, p, q);
  }

  /** On a full ring, once a consumer has taken an item. */
  lemma CrossingWaits(s: State, p: nat, q: nat, w: nat)
    requires Indexed(s) && Queued(s) && |s.data| > 1 && Crossing(s, p, q) && |s.put| + 1 == |s.got| + |s.data|
    ensures Indexed(Taken(s, w)) && Queued(Taken(s, w)) && Crossing(Taken(s, w), p, q)
  {
    TakenQueued(s, w);
    if s.producers[p].SawBoth? {
      RoomNow(s, s.producers[p]);
    }
  }

  lemma ProducersBreak(s: State, p: nat, q: nat, w: nat) returns (steps: seq<Step>, s': State)
    requires Indexed(s) && Queued(s) && |s.data| > 1 && Crossing(s, p, q) && (|s.put| + 1 < |s.got| + |s.data| || Promising(s, w))
    ensures Inside(steps) && Path(s, steps, s') && !Sane(s')
  {
    hide Path, Indexed, Queued, Crossing, Promising, Sane;
    Ordered(s);
    if |s.put| + 1 < |s.got| + |s.data| {
      steps, s' := CrossingBreaks(s, p, q);
    } else {
      CrossingWaits(s, p, q, w);
      steps := Takes(s, w);
      var rest: seq<Step>;
      rest, s' := CrossingBreaks(Taken(s, w), p, q);
      Join(s, steps, Taken(s, w), rest, s');
      steps := steps + rest;
    }
  }

  // ----- harmful entries -----

  lemma {:induction false} Beyond(ids: set<nat>) returns (t: nat)
    ensures t !in ids && forall u :: u in ids ==> u < t
    decreases ids
  {
    if ids == {} {
      t := 0;
    } else {
      var x :| x in ids;
      var y := Beyond(ids - {x});
      t := x + y + 1;
      assert forall u :: u in ids ==> u == x || u in ids - {x};
    }
  }

  lemma TakeOverlaps(s: State, c: nat, d: nat)
    requires Inv(s) && Enabled(s, Take(d)) && c in s.consumers && !Missed(s.consumers[c]) && !Late(s, s.consumers[c])
    ensures var s1 := Next(s, Take(d));
            Indexed(s1) && Queued(s1) && Producing(s1) && Overlap(s1, c, d)
  {
    ConsumerSpares(s, Take(d));
  }

  lemma PutCrosses(s: State, p: nat, q: nat, item: nat)
    requires Inv(s) && Enabled(s, Put(q, item)) && p in s.producers && !Refused(s.producers[p], |s.data|)
    ensures var s1 := Next(s, Put(q, item));
            Indexed(s1) && Queued(s1) && Consuming(s1) && Crossing(s1, p, q)
  {
    ProducerSpares(s, Put(q, item));
  }

  /** A producer on an empty ring puts its item. */
  lemma FirstItem(s: State, p: nat)
    requires Indexed(s) && Queued(s) && Producing(s) && |s.data| > 1 && |s.got| == |s.put|
    requires p in s.producers && !Refused(s.producers[p], |s.data|)
    ensures Able(s, p)
  {
    HasRoom(s, p);
  }

  /** If there is none, one can enter without harm. */
  lemma ProducerEnters(s: State, t: nat, item: nat)
    requires Indexed(s) && Queued(s) && Producing(s) && |s.data| > 1 && |s.got| == |s.put| && t !in s.producers
    requires forall p :: p in s.producers ==> Refused(s.producers[p], |s.data|)
    ensures Harmless(s, Put(t, item))
    ensures var s1 := Next(s, Put(t, item));
            Indexed(s1) && Queued(s1) && Able(s1, t) && forall c, d :: Overlap(s, c, d) ==> Overlap(s1, c, d)
  {
    TestsExact(|s.put|, |s.got|, |s.data|);
  }

  lemma TakeBreaks(s: State, c: nat, d: nat) returns (more: seq<Step>, s': State)
    requires Indexed(s) && Queued(s) && Producing(s) && |s.data| > 1 && Overlap(s, c, d)
    ensures Path(s, more, s') && !Sane(s')
  {
    hide Path, Indexed, Queued, Producing, Overlap, Able, Sane, Next, Harmless;
    Ordered(s);
    if |s.got| < |s.put| {
      more, s' := ConsumersBreak(s, c, d, 0);
    } else if p :| p in s.producers && !Refused(s.producers[p], |s.data|) {
      FirstItem(s, p);
      more, s' := ConsumersBreak(s, c, d, p);
    } else {
      var t := Beyond(s.producers.Keys);
      ProducerEnters(s, t, 0);
      One(s, Put(t, 0));
      var s1 := Next(s, Put(t, 0));
      IndexedKept(s, Put(t, 0));
      var rest;
      rest, s' := ConsumersBreak(s1, c, d, t);
      Join(s, [Put(t, 0)], s1, rest, s');
      more := [Put(t, 0)] + rest;
    }
  }

  /** Every consumer is bound to leave. */
  predicate AllMissed(s: State) {
    forall t :: t in s.consumers ==> Missed(s.consumers[t])
  }

  /** When no consumer of a full ring takes an item if left alone, those that are not bound to
      leave yet come to be, and nothing else changes. */
  lemma Clears(s: State) returns (steps: seq<Step>, s': State)
    requires Indexed(s) && Queued(s) && Consuming(s) && |s.data| > 1 && |s.put| + 1 == |s.got| + |s.data|
    requires forall w :: w in s.consumers ==> !Promising(s, w)
    ensures Inside(steps) && Path(s, steps, s') && AllMissed(s') && s' == s.(consumers := s'.consumers) && Indexed(s')
  {
    hide Path, Promising;
    forall t | t in s.consumers && !Missed(s.consumers[t]) ensures SawEmpty(s, s.consumers[t]) {
      if !SawEmpty(s, s.consumers[t]) {
        GoesOn(s, t);
      }
    }
    if w :| w in s.consumers && !Missed(s.consumers[w]) {
      PeeksTail(s, w);
      steps := [PeekTail(w)];
      s' := Next(s, PeekTail(w));
      forall t | t in s.consumers && t != w ensures Missed(s.consumers[t]) {
        NotTwo(s, w, t);
      }
    } else {
      steps, s' := [], s;
      Stay(s);
    }
  }

  lemma NotTwo(s: State, t: nat, u: nat)
    requires Indexed(s) && Queued(s) && Consuming(s) && t != u && t in s.consumers && u in s.consumers
    requires !Missed(s.consumers[t]) && SawEmpty(s, s.consumers[t]) && (!Missed(s.consumers[u]) ==> SawEmpty(s, s.consumers[u]))
    ensures Missed(s.consumers[u])
  {
    assert Unmixed(s, s.consumers[t], s.consumers[u]);
    SawEmptyIs(s, s.consumers[t]);
    if !Missed(s.consumers[u]) {
      SawEmptyIs(s, s.consumers[u]);
    }
  }

  /** Then one can enter without harm, and takes an item. */
  lemma ConsumerEnters(s: State, w: nat)
    requires Indexed(s) && Queued(s) && AllMissed(s) && |s.data| > 1 && |s.put| + 1 == |s.got| + |s.data| && w !in s.consumers
    ensures Harmless(s, Take(w))
    ensures var s1 := Next(s, Take(w));
            Indexed(s1) && Queued(s1) && Promising(s1, w) && forall p, q :: Crossing(s, p, q) ==> Crossing(s1, p, q)
  {
    TestsExact(|s.put|, |s.got|, |s.data|);
  }

  lemma SameButConsumers(s: State, s': State)
    requires Indexed(s) && Indexed(s') && Queued(s) && s' == s.(consumers := s'.consumers)
    ensures Queued(s') && forall p, q :: Crossing(s, p, q) ==> Crossing(s', p, q)
  {
  }

  lemma PutBreaks(s: State, p: nat, q: nat) returns (more: seq<Step>, s': State)
    requires Indexed(s) && Queued(s) && Consuming(s) && |s.data| > 1 && Crossing(s, p, q)
    ensures Path(s, more, s') && !Sane(s')
  {
    hide Path, Indexed, Queued, Consuming, Crossing, Promising, Sane, Next, Harmless, AllMissed;
    Ordered(s);
    if |s.put| + 1 < |s.got| + |s.data| {
      more, s' := ProducersBreak(s, p, q, 0);
    } else if w :| w in s.consumers && Promising(s, w) {
      more, s' := ProducersBreak(s, p, q, w);
    } else {
      var s1;
      more, s1 := Clears(s);
      SameButConsumers(s, s1);
      var w := Beyond(s1.consumers.Keys);
      ConsumerEnters(s1, w);
      var s2 := Next(s1, Take(w));
      IndexedKept(s1, Take(w));
      One(s1, Take(w));
      Join(s, more, s1, [Take(w)], s2);
      var rest;
      rest, s' := ProducersBreak(s2, p, q, w);
      Join(s, more + [Take(w)], s2, rest, s');
      more := more + [Take(w)] + rest;
    }
  }

  /** After a harmful entry there is a way on, without another one, to a state in which an item
      was returned twice, returned without having been put, or put and lost. */
  lemma HarmfulBreaks(s: State, e: Step) returns (more: seq<Step>, s': State)
    requires Inv(s) && |s.data| > 1 && Enabled(s, e) && !Harmless(s, e)
    ensures Path(Next(s, e), more, s') && !Sane(s')
  {
    hide Path, Queued, Producing, Consuming, Crossing, Overlap, Sane, Enabled;
    if e.Take? {
      var c :| c in s.consumers && !Missed(s.consumers[c]) && !Late(s, s.consumers[c]);
      TakeOverlaps(s, c, e.t);
      IndexedKept(s, e);
      more, s' := TakeBreaks(Next(s, e), c, e.t);
    } else {
      var p :| p in s.producers && !Refused(s.producers[p], |s.data|);
      PutCrosses(s, p, e.t, e.item);
      IndexedKept(s, e);
      more, s' := PutBreaks(Next(s, e), p, e.t);
    }
  }

  /** The order can be lost after this entry, with no harmful entry after it. */
  ghost predicate CanBreak(s: State, e: Step)
    requires Indexed(s) && Enabled(s, e)
  {
    exists more: seq<Step>, s' :: Path(Next(s, e), more, s') && !Sane(s')
  }

  /** In a ring of two slots or more, after every run of harmless entries, the entries that can
      lose the order are exactly those that are not harmless. */
  lemma BreaksExactly(states: seq<State>, steps: seq<Step>, e: Step)
    requires Run(states, steps) && Orderly(states, steps) && |states[0].data| > 1
    requires Indexed(states[|steps|]) && Enabled(states[|steps|], e)
    ensures CanBreak(states[|steps|], e) <==> !Harmless(states[|steps|], e)
  {
    hide Path, Sane, Next, Harmless, Inv, Enabled;
    var s := states[|steps|];
    RunKeeps(states, steps);
    Capacity(states, steps);
    if Harmless(s, e) {
      StepKeeps(s, e);
      forall more: seq<Step>, s' | Path(Next(s, e), more, s') ensures Sane(s') {
        PathKeeps(Next(s, e), more, s');
        InvSane(s');
      }
    } else {
      var more, s' := HarmfulBreaks(s, e);
    }
  }

  lemma {:induction false} Capacity(states: seq<State>, steps: seq<Step>)
    requires Run(states, steps)
    ensures |states[|steps|].data| == |states[0].data|
  {
    hide Indexed, Enabled, Next;
    if steps != [] {
      var n := |steps| - 1;
      assert Run(states[..n + 1], steps[..n]);
      Capacity(states[..n + 1], steps[..n]);
      assert Leads(states[n], steps[n], states[n + 1]);
      IndexedKept(states[n], steps[n]);
    }
  }

  /** In a ring of one slot nothing is ever put or returned, whoever enters. */
  lemma {:induction false} OneSlot(states: seq<State>, steps: seq<Step>)
    requires Run(states, steps) && |states[0].data| == 1
    ensures var s := states[|steps|];
            Indexed(s) && |s.data| == 1 && s.put == s.got == []
            && (forall t :: t in s.producers ==> !s.producers[t].Wrote? && (s.producers[t].SawBoth? ==> s.producers[t].tail == 0))
            && (forall t :: t in s.consumers ==> !s.consumers[t].Fetched? && (s.consumers[t].KnowsHead? || s.consumers[t].KnowsBoth? ==> s.consumers[t].head == 0))
  {
    if steps != [] {
      var n := |steps| - 1;
      assert Run(states[..n + 1], steps[..n]);
      OneSlot(states[..n + 1], steps[..n]);
      assert Leads(states[n], steps[n], states[n + 1]);
      IndexedKept(states[n], steps[n]);
    }
  }

  // ----- runs in which it goes wrong -----

  lemma Stepped(states: seq<State>, steps: seq<Step>, e: Step) returns (longer: seq<State>)
    requires Run(states, steps) && Indexed(states[|steps|]) && Enabled(states[|steps|], e)
    ensures Run(longer, steps + [e]) && longer == states + [Next(states[|steps|], e)]
  {
    hide Indexed, Enabled, Next;
    longer := states + [Next(states[|steps|], e)];
    forall i | 0 <= i < |steps + [e]| ensures Leads(longer[i], (steps + [e])[i], longer[i + 1]) {
      if i < |steps| {
        assert Leads(states[i], steps[i], states[i + 1]);
      }
    }
  }

  /** As runs: a harmful entry after a run of harmless ones, and no other harmful entry. */
  lemma HarmfulRun(states: seq<State>, steps: seq<Step>, e: Step) returns (longer: seq<State>, all: seq<Step>)
    requires Run(states, steps) && Orderly(states, steps) && |states[0].data| > 1
    requires Indexed(states[|steps|]) && Enabled(states[|steps|], e) && !Harmless(states[|steps|], e)
    ensures Run(longer, all) && states <= longer && steps + [e] <= all && !Sane(longer[|all|])
    ensures forall i :: 0 <= i < |all| && i != |steps| ==> Indexed(longer[i]) && Harmless(longer[i], all[i])
  {
    hide Path, Sane, Next, Harmless, Inv, Enabled;
    RunKeeps(states, steps);
    Capacity(states, steps);
    var more, s' := HarmfulBreaks(states[|steps|], e);
    var states1 := Stepped(states, steps, e);
    longer := Continued(states1, steps + [e], more, s');
    all := steps + [e] + more;
    forall i | 0 <= i < |steps| ensures Indexed(longer[i]) && Harmless(longer[i], all[i]) {
      assert longer[i] == states1[i] == states[i];
    }
  }

  /** Entering is a harmless step when nobody is in the call. */
  lemma Enters(s: State, e: Step)
    requires Indexed(s) && Enabled(s, e) && ((e.Put? && s.producers == map[]) || (e.Take? && s.consumers == map[]))
    ensures Harmless(s, e) && Path(s, [e], Next(s, e)) && Indexed(Next(s, e))
  {
    hide Path;
    One(s, e);
  }

  /** With two consumers, an item put once can be returned twice. */
  lemma ItemTakenTwice(s: State, x: nat) returns (states: seq<State>, steps: seq<Step>)
    requires Start(s) && |s.data| > 1
    ensures Run(states, steps) && states[0] == s && states[|steps|].put == [x] && states[|steps|].got == [x, x]
  {
    hide Path;
    Enters(s, Put(0, x));
    var s1 := Next(s, Put(0, x));
    var adds := Adds(s1, 0);
    var s2 := Added(s1, 0);
    Enters(s2, Take(1));
    var s3 := Next(s2, Take(1));
    Join(s, [Put(0, x)], s1, adds, s2);
    Join(s, [Put(0, x)] + adds, s2, [Take(1)], s3);
    states, steps := [s], [];
    states := Continued(states, steps, [Put(0, x)] + adds + [Take(1)], s3);
    steps := steps + ([Put(0, x)] + adds + [Take(1)]);
    states := Stepped(states, steps, Take(2));
    steps := steps + [Take(2)];
    var s4 := Next(s3, Take(2));
    IndexedKept(s3, Take(2));
    var takes := TakesTwice(s4, 1, 2);
    states := Continued(states, steps, takes, TwiceTaken(s4, 1, 2));
    steps := steps + takes;
  }

  /** With two producers, both can be told that their items are in, and only one is ever
      returned, from a ring that is then empty. */
  lemma ItemLost(s: State, x: nat, y: nat) returns (states: seq<State>, steps: seq<Step>)
    requires Start(s) && |s.data| > 1
    ensures Run(states, steps) && states[0] == s
    ensures var e := states[|steps|];
            e.put == [x, y] && e.got == [y] && e.head == e.tail && e.producers == map[] && e.consumers == map[]
  {
    hide Path;
    Enters(s, Put(1, x));
    var s1 := Next(s, Put(1, x));
    states, steps := [s], [];
    states := Continued(states, steps, [Put(1, x)], s1);
    steps := [Put(1, x)];
    states := Stepped(states, steps, Put(2, y));
    steps := steps + [Put(2, y)];
    var s2 := Next(s1, Put(2, y));
    IndexedKept(s1, Put(2, y));
    var writes := BothWrite(s2, 1, 2);
    BothPublish(s2, 1, 2);
    var s3 := WrittenOver(s2, 1, 2);
    Join(s2, writes, Written(Written(s2, 1), 2), [Publish(1), Publish(2)], s3);
    states := Continued(states, steps, writes + [Publish(1), Publish(2)], s3);
    steps := steps + (writes + [Publish(1), Publish(2)]);
    Enters(s3, Take(3));
    var s4 := Next(s3, Take(3));
    var takes := Takes(s4, 3);
    Join(s3, [Take(3)], s4, takes, Taken(s4, 3));
    states := Continued(states, steps, [Take(3)] + takes, Taken(s4, 3));
    steps := steps + ([Take(3)] + takes);
  }

  /** A late consumer does come up, without a harmful entry: it loads the head of the empty ring,
      and two items are put. So an entry can be harmless although another thread is in the call
      that may yet take an item. */
  lemma LateReached(s: State, x: nat, y: nat) returns (states: seq<State>, steps: seq<Step>)
    requires Start(s) && |s.data| > 2
    ensures Run(states, steps) && Orderly(states, steps) && states[0] == s
    ensures var e := states[|steps|];
            Indexed(e) && 1 in e.consumers && Late(e, e.consumers[1]) && Harmless(e, Take(2))
  {
    hide Path;
    Enters(s, Take(1));
    var s1 := Next(s, Take(1));
    PeeksHead(s1, 1);
    var s2 := WithConsumer(s1, 1, KnowsHead(0, 0));
    Join(s, [Take(1)], s1, [PeekHead(1)], s2);
    var s3, puts := PutsOne(s2, x);
    Join(s, [Take(1)] + [PeekHead(1)], s2, puts, s3);
    var s4, more := PutsOne(s3, y);
    Join(s, [Take(1)] + [PeekHead(1)] + puts, s3, more, s4);
    steps := [Take(1)] + [PeekHead(1)] + puts + more;
    states := Continued([s], [], steps, s4);
    assert [] + steps == steps;
  }

  lemma PutsOne(s: State, x: nat) returns (s': State, steps: seq<Step>)
    requires Indexed(s) && s.producers == map[] && Wrap(s.head, |s.data|) != s.tail
    ensures Path(s, steps, s') && Indexed(s') && s'.producers == map[] && s'.consumers == s.consumers
    ensures s'.head == Wrap(s.head, |s.data|) && s'.tail == s.tail && |s'.data| == |s.data|
  {
    hide Path;
    Enters(s, Put(0, x));
    var s1 := Next(s, Put(0, x));
    var adds := Adds(s1, 0);
    s', steps := Added(s1, 0), [Put(0, x)] + adds;
    Join(s, [Put(0, x)], s1, adds, s');
  }
}
