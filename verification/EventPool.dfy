/**
 The event object pool (event_processor.c): a stack of free events in a fixed array, with
 the heap behind it. Events are known by handles, numbered in the order the heap made them.
 */
module EventPool {
  import opened Common

  /** The free slots objects[..tail], the events handed out, those given back to the heap,
      and how many events the heap has made. */
  datatype Pool = Pool(capacity: nat, free: seq<nat>, out: set<nat>, freed: set<nat>, made: nat)

  datatype Op = Take | Give(event: nat)

  function Created(capacity: nat): Pool {
    Pool(capacity, seq(capacity, i => i), {}, {}, capacity)
  }

  predicate Enabled(p: Pool, op: Op) {
    op.Give? ==> op.event in p.out
  }

  /** The event the next Take hands out. */
  function Taken(p: Pool): nat {
    if p.free == [] then p.made else p.free[|p.free| - 1]
  }

  function Step(p: Pool, op: Op): Pool
    requires Enabled(p, op)
  {
    match op
    case Take =>
      if p.free == [] then p.(out := p.out + {p.made}, made := p.made + 1)
      else p.(free := p.free[..|p.free| - 1], out := p.out + {Taken(p)})
    case Give(x) =>
      if |p.free| < p.capacity then p.(free := p.free + [x], out := p.out - {x})
      else p.(out := p.out - {x}, freed := p.freed + {x})
  }

  /** Free slots, events handed out and events given back to the heap share nothing and are
      together all events made; no slot repeats; and slots and events out cover the capacity. */
  ghost predicate Inv(p: Pool) {
    && Distinct(p.free)
    && (forall x :: x in p.free ==> x !in p.out && x !in p.freed)
    && p.out !! p.freed
    && (forall x: nat :: x < p.made <==> x in p.free || x in p.out || x in p.freed)
    && |p.free| <= p.capacity <= |p.free| + |p.out|
  }

  lemma CreatedInv(capacity: nat)
    ensures Inv(Created(capacity))
  {
    var p := Created(capacity);
    forall x: nat | x < capacity ensures x in p.free {
      assert p.free[x] == x;
    }
  }

  lemma TakeInv(p: Pool)
    requires Inv(p)
    ensures Inv(Step(p, Take)) && Taken(p) !in p.out && Taken(p) !in p.freed
    ensures Step(p, Take).out == p.out + {Taken(p)}
  {
    if p.free != [] {
      var n := |p.free| - 1;
      assert p.free == p.free[..n] + [p.free[n]];
      assert p.free[n] in p.free;
    }
  }

  lemma GiveInv(p: Pool, x: nat)
    requires Inv(p) && x in p.out
    ensures Inv(Step(p, Give(x))) && Step(p, Give(x)).out == p.out - {x}
  {
    if |p.free| < p.capacity {
      var free := p.free + [x];
      assert forall y :: y in free <==> y in p.free || y == x;
    }
  }

  // ----- runs -----

  ghost predicate Run(pools: seq<Pool>, ops: seq<Op>) {
    && |pools| == |ops| + 1
    && pools[0] == Created(pools[0].capacity)
    && forall i :: 0 <= i < |ops| ==> Enabled(pools[i], ops[i]) && pools[i + 1] == Step(pools[i], ops[i])
  }

  lemma {:induction false} RunInv(pools: seq<Pool>, ops: seq<Op>)
    requires Run(pools, ops)
    ensures Inv(pools[|ops|])
  {
    if ops == [] {
      CreatedInv(pools[0].capacity);
    } else {
      var n := |ops| - 1;
      assert Run(pools[..n + 1], ops[..n]);
      RunInv(pools[..n + 1], ops[..n]);
      if ops[n].Take? {
        TakeInv(pools[n]);
      } else {
        GiveInv(pools[n], ops[n].event);
      }
    }
  }

  /** How often the events in a list are released, with those the heap already has. */
  function Releases(p: Pool, x: nat): nat {
    multiset(p.free)[x] + if x in p.freed then 1 else 0
  }

  /** Whenever nothing is out, every slot is filled, and releasing the slots has released
      every event ever made exactly once and nothing else. */
  lemma Quiescent(p: Pool)
    requires Inv(p) && p.out == {}
    ensures |p.free| == p.capacity
    ensures forall x: nat :: Releases(p, x) == if x < p.made then 1 else 0
  {
    forall x: nat ensures Releases(p, x) == if x < p.made then 1 else 0 {
      DistinctOnce(p.free, x);
    }
  }

  lemma {:induction false} DistinctOnce(s: seq<nat>, x: nat)
    requires Distinct(s)
    ensures multiset(s)[x] == if x in s then 1 else 0
  {
    if s != [] {
      var n := |s| - 1;
      DistinctOnce(s[..n], x);
      assert s == s[..n] + [s[n]];
      assert s[n] !in s[..n];
    }
  }

  class EventPool {
    const objects: array<nat>
    var tail: nat
    var made: nat            // the heap's supply of new events
    ghost var out: set<nat>
    ghost var freed: set<nat>

    constructor (capacity: nat)
      ensures Valid() && fresh(objects) && Abs() == Created(capacity)
    {
      objects := new nat[capacity];
      made := capacity;
      tail := capacity;
      out, freed := {}, {};
      new;
      var i := 0;
      while i < capacity
        invariant i <= capacity == objects.Length == tail == made && out == freed == {}
        invariant forall j :: 0 <= j < i ==> objects[j] == j
      {
        objects[i] := i;
        i := i + 1;
      }
      assert objects[..tail] == Created(capacity).free;
      CreatedInv(capacity);
    }

    ghost function Abs(): Pool
      requires tail <= objects.Length
      reads this, objects
    {
      Pool(objects.Length, objects[..tail], out, freed, made)
    }

    ghost predicate Valid()
      reads this, objects
    {
      tail <= objects.Length && Inv(Abs())
    }

    /** event_pool_alloc: an event nobody else has. */
    method Alloc() returns (event: nat)
      requires Valid()
      modifies this
      ensures Valid() && Abs() == Step(old(Abs()), Take)
      ensures event == Taken(old(Abs())) && event !in old(out) && event in out
    {
      hide Inv;
      TakeInv(Abs());
      if tail > 0 {
        tail := tail - 1;
        event := objects[tail];
      } else {
        event := made;
        made := made + 1;
      }
      out := out + {event};
      assert Abs() == Step(old(Abs()), Take);
    }

    /** event_pool_free: back into a slot, or to the heap when all slots are filled. */
    method Free(event: nat)
      requires Valid() && event in out
      modifies this, objects
      ensures Valid() && Abs() == Step(old(Abs()), Give(event))
    {
      hide Inv;
      GiveInv(Abs(), event);
      out := out - {event};
      if tail < objects.Length {
        objects[tail] := event;
        tail := tail + 1;
      } else {
        freed := freed + {event};
      }
      assert Abs() == Step(old(Abs()), Give(event));
    }

    /** event_pool_destroy: releases what is in every slot, whatever tail is. When nothing is
        out, that together with the earlier releases is each event exactly once. */
    method Destroy() returns (released: seq<nat>)
      requires Valid()
      ensures released == objects[..]
      ensures out == {} ==> forall x: nat :: multiset(released)[x] + (if x in freed then 1 else 0) == if x < made then 1 else 0
    {
      released := [];
      var i := 0;
      while i < objects.Length
        invariant i <= objects.Length && released == objects[..i]
      {
        released := released + [objects[i]];
        i := i + 1;
      }
      if out == {} {
        Quiescent(Abs());
        assert forall x: nat :: multiset(released)[x] + (if x in freed then 1 else 0) == Releases(Abs(), x);
      }
    }
  }
}
