/**
 The history ring and the alert counters of alert_manager.c. Next to the ring the model
 keeps the fates of all alerts ever raised, also of those the ring has overwritten: that is
 what the counters count.
 */
module AlertHistory {
  import opened Common
  import opened RingBuffer

  datatype AlertState = Inactive | Active | Acknowledged

  datatype Instance = Instance(id: nat, state: AlertState)

  /** History slots with write position and fill, the next id, and the counters. */
  datatype Book = Book(
    slots: seq<Instance>, count: nat, index: nat, nextId: nat,
    triggered: nat, active: nat, acknowledged: nat)

  datatype Deed = Raise | Acknowledge(id: nat) | Resolve(id: nat)

  datatype Done = Done(book: Book, found: bool)

  predicate WellFormed(b: Book) {
    0 < |b.slots| && b.count <= |b.slots| && b.index < |b.slots|
  }

  function EmptyBook(capacity: nat): (b: Book)
    requires capacity > 0
    ensures WellFormed(b)
  {
    Book(seq(capacity, _ => Instance(0, Inactive)), 0, 0, 1, 0, 0, 0)
  }

  /** The history part of a trigger. */
  function Raised(b: Book): (r: Book)
    requires WellFormed(b)
    ensures WellFormed(r)
  {
    b.(slots := b.slots[b.index := Instance(b.nextId, Active)],
       nextId := b.nextId + 1,
       index := (b.index + 1) % |b.slots|,
       count := if b.count < |b.slots| then b.count + 1 else b.count,
       triggered := b.triggered + 1,
       active := b.active + 1)
  }

  predicate Fits(s: Instance, d: Deed) {
    match d
    case Raise => false
    case Acknowledge(id) => s.id == id && s.state.Active?
    case Resolve(id) => s.id == id && !s.state.Inactive?
  }

  /** First of the filled slots, from i on, that the deed applies to. */
  function Search(b: Book, d: Deed, i: nat): (r: Option<nat>)
    requires WellFormed(b) && i <= b.count
    ensures r.Some? ==> i <= r.value < b.count && Fits(b.slots[r.value], d)
    ensures r.None? ==> forall j :: i <= j < b.count ==> !Fits(b.slots[j], d)
    decreases b.count - i
  {
    if i == b.count then None
    else if Fits(b.slots[i], d) then Some(i)
    else Search(b, d, i + 1)
  }

  function Drop(n: nat): nat {
    if n > 0 then n - 1 else 0
  }

  /** The state change of a slot the deed applies to, with its counters. */
  function Change(b: Book, d: Deed, j: nat): (r: Book)
    requires WellFormed(b) && j < b.count && Fits(b.slots[j], d)
    ensures WellFormed(r)
  {
    if d.Acknowledge? then
      b.(slots := b.slots[j := b.slots[j].(state := Acknowledged)], active := Drop(b.active), acknowledged := b.acknowledged + 1)
    else if b.slots[j].state.Active? && b.active > 0 then
      b.(slots := b.slots[j := b.slots[j].(state := Inactive)], active := b.active - 1)
    else if b.slots[j].state.Acknowledged? && b.acknowledged > 0 then
      b.(slots := b.slots[j := b.slots[j].(state := Inactive)], acknowledged := b.acknowledged - 1)
    else
      b.(slots := b.slots[j := b.slots[j].(state := Inactive)])
  }

  function Do(b: Book, d: Deed): (r: Done)
    requires WellFormed(b)
    ensures WellFormed(r.book)
  {
    if d.Raise? then Done(Raised(b), true) else
      var j := Search(b, d, 0);
      if j.None? then Done(b, false) else Done(Change(b, d, j.value), true)
  }

  // ----- the reference: the fates of all alerts -----

  /** The deed applies to alert id of those raised, the ring keeping the last capacity. */
  predicate Applies(fates: seq<AlertState>, capacity: nat, d: Deed) {
    match d
    case Raise => true
    case Acknowledge(id) => 1 <= id <= |fates| && id > Oldest(|fates|, capacity) && fates[id - 1].Active?
    case Resolve(id) => 1 <= id <= |fates| && id > Oldest(|fates|, capacity) && !fates[id - 1].Inactive?
  }

  function Fated(fates: seq<AlertState>, capacity: nat, d: Deed): seq<AlertState> {
    if !Applies(fates, capacity, d) then fates else
      match d
      case Raise => fates + [Active]
      case Acknowledge(id) => fates[id - 1 := Acknowledged]
      case Resolve(id) => fates[id - 1 := Inactive]
  }

  function Count(fates: seq<AlertState>, s: AlertState): nat {
    if fates == [] then 0 else Count(fates[..|fates| - 1], s) + if fates[|fates| - 1] == s then 1 else 0
  }

  /** Alert k + 1 with its fate. */
  function Numbered(fates: seq<AlertState>): (r: seq<Instance>)
    ensures |r| == |fates| && forall k :: 0 <= k < |r| ==> r[k] == Instance(k + 1, fates[k])
  {
    seq(|fates|, k requires 0 <= k < |fates| => Instance(k + 1, fates[k]))
  }

  /** The ring has the last alerts with their fates and the counters count all fates. */
  ghost predicate Agrees(b: Book, fates: seq<AlertState>) {
    && WellFormed(b)
    && b.nextId == |fates| + 1
    && b.count == Min(|fates|, |b.slots|)
    && b.index == |fates| % |b.slots|
    && HoldsEnd(b.slots, Numbered(fates))
    && b.triggered == |fates|
    && b.active == Count(fates, Active)
    && b.acknowledged == Count(fates, Acknowledged)
  }

  // ----- counting -----

  lemma {:induction false} CountUpdate(fates: seq<AlertState>, k: nat, to: AlertState, s: AlertState)
    requires k < |fates|
    ensures Count(fates[k := to], s) + (if fates[k] == s then 1 else 0) == Count(fates, s) + if to == s then 1 else 0
  {
    var n := |fates| - 1;
    if k < n {
      CountUpdate(fates[..n], k, to, s);
      assert fates[k := to][..n] == fates[..n][k := to];
    } else {
      assert fates[k := to][..n] == fates[..n];
    }
  }

  lemma {:induction false} CountHas(fates: seq<AlertState>, k: nat)
    requires k < |fates|
    ensures Count(fates, fates[k]) > 0
  {
    var n := |fates| - 1;
    if k < n {
      CountHas(fates[..n], k);
    }
  }

  lemma {:induction false} CountParts(fates: seq<AlertState>)
    ensures |fates| == Count(fates, Active) + Count(fates, Acknowledged) + Count(fates, Inactive)
  {
    if fates != [] {
      CountParts(fates[..|fates| - 1]);
    }
  }

  // ----- one deed -----

  /** A filled slot's instance is one of the kept alerts. */
  lemma SlotIs(b: Book, fates: seq<AlertState>, j: nat) returns (k: nat)
    requires Agrees(b, fates) && j < b.count
    ensures Oldest(|fates|, |b.slots|) <= k < |fates| && k % |b.slots| == j
    ensures b.slots[j] == Instance(k + 1, fates[k])
  {
    hide Count;
    k := EntryAt(|fates|, |b.slots|, j);
    assert Numbered(fates)[k] == Instance(k + 1, fates[k]);
  }

  lemma SlotOf(b: Book, fates: seq<AlertState>, id: nat) returns (j: nat)
    requires Agrees(b, fates) && Oldest(|fates|, |b.slots|) < id <= |fates|
    ensures j < b.count && b.slots[j] == Instance(id, fates[id - 1])
  {
    hide Count;
    j := (id - 1) % |b.slots|;
    assert Numbered(fates)[id - 1] == Instance(id, fates[id - 1]);
    if |fates| <= |b.slots| {
      ModShift(id - 1, |b.slots|, 0);
    }
  }

  /** The search succeeds exactly on kept alerts in a fitting state. */
  lemma SearchFinds(b: Book, fates: seq<AlertState>, d: Deed)
    requires Agrees(b, fates) && !d.Raise?
    ensures Search(b, d, 0).Some? <==> Applies(fates, |b.slots|, d)
  {
    hide Count, HoldsEnd;
    var r := Search(b, d, 0);
    if Applies(fates, |b.slots|, d) {
      var j := SlotOf(b, fates, d.id);
      assert Fits(b.slots[j], d);
    } else if r.Some? {
      var k := SlotIs(b, fates, r.value);
    }
  }

  lemma AmendAgrees(b: Book, fates: seq<AlertState>, j: nat, to: AlertState) returns (k: nat)
    requires Agrees(b, fates) && j < b.count
    ensures k < |fates| && b.slots[j] == Instance(k + 1, fates[k])
    ensures HoldsEnd(b.slots[j := b.slots[j].(state := to)], Numbered(fates[k := to]))
  {
    hide Count, HoldsEnd;
    k := SlotIs(b, fates, j);
    Amend(b.slots, Numbered(fates), k, Instance(k + 1, to));
    assert Numbered(fates)[k := Instance(k + 1, to)] == Numbered(fates[k := to]);
  }

  lemma ChangeAgrees(b: Book, fates: seq<AlertState>, d: Deed)
    requires Agrees(b, fates) && !d.Raise? && Search(b, d, 0).Some? && Applies(fates, |b.slots|, d)
    ensures Agrees(Change(b, d, Search(b, d, 0).value), Fated(fates, |b.slots|, d))
  {
    hide Count, HoldsEnd, Search, Oldest;
    var j := Search(b, d, 0).value;
    var to := if d.Acknowledge? then Acknowledged else Inactive;
    var k := AmendAgrees(b, fates, j, to);
    CountHas(fates, k);
    CountUpdate(fates, k, to, Active);
    CountUpdate(fates, k, to, Acknowledged);
  }

  lemma RaiseAgrees(b: Book, fates: seq<AlertState>)
    requires Agrees(b, fates)
    ensures Agrees(Raised(b), fates + [Active])
  {
    hide HoldsEnd;
    Append(b.slots, Numbered(fates), Instance(|fates| + 1, Active));
    assert Numbered(fates + [Active]) == Numbered(fates) + [Instance(|fates| + 1, Active)];
    NextSlot(|fates|, |b.slots|);
    assert (fates + [Active])[..|fates|] == fates;
  }

  /** Raising, acknowledging and resolving follow the fates, and an acknowledgement or a
      resolution is found exactly when the alert is still in the ring in a fitting state. */
  lemma DoAgrees(b: Book, fates: seq<AlertState>, d: Deed)
    requires Agrees(b, fates)
    ensures Agrees(Do(b, d).book, Fated(fates, |b.slots|, d))
    ensures Do(b, d).found <==> Applies(fates, |b.slots|, d)
    ensures |Do(b, d).book.slots| == |b.slots|
  {
    hide Count, HoldsEnd, Search;
    if d.Raise? {
      RaiseAgrees(b, fates);
    } else {
      SearchFinds(b, fates, d);
      if Search(b, d, 0).Some? {
        ChangeAgrees(b, fates, d);
      }
    }
  }

  // ----- runs -----

  function Run(capacity: nat, deeds: seq<Deed>): (b: Book)
    requires capacity > 0
    ensures WellFormed(b)
  {
    if deeds == [] then EmptyBook(capacity) else Do(Run(capacity, deeds[..|deeds| - 1]), deeds[|deeds| - 1]).book
  }

  function Fates(capacity: nat, deeds: seq<Deed>): seq<AlertState> {
    if deeds == [] then [] else Fated(Fates(capacity, deeds[..|deeds| - 1]), capacity, deeds[|deeds| - 1])
  }

  /** How many resolutions of the run were reported as successful. */
  function Resolved(capacity: nat, deeds: seq<Deed>): nat
    requires capacity > 0
  {
    if deeds == [] then 0 else
      var n := |deeds| - 1;
      Resolved(capacity, deeds[..n]) + if deeds[n].Resolve? && Do(Run(capacity, deeds[..n]), deeds[n]).found then 1 else 0
  }

  lemma {:induction false} RunAgrees(capacity: nat, deeds: seq<Deed>)
    requires capacity > 0
    ensures Agrees(Run(capacity, deeds), Fates(capacity, deeds)) && |Run(capacity, deeds).slots| == capacity
  {
    hide Do, Fated;
    if deeds == [] {
      ModShift(0, capacity, 0);
    } else {
      hide Agrees;
      var n := |deeds| - 1;
      RunAgrees(capacity, deeds[..n]);
      DoAgrees(Run(capacity, deeds[..n]), Fates(capacity, deeds[..n]), deeds[n]);
    }
  }

  lemma FatedResolves(fates: seq<AlertState>, capacity: nat, d: Deed)
    ensures Count(Fated(fates, capacity, d), Inactive) ==
            Count(fates, Inactive) + if d.Resolve? && Applies(fates, capacity, d) then 1 else 0
  {
    if Applies(fates, capacity, d) {
      match d
      case Raise =>
        assert (fates + [Active])[..|fates|] == fates;
      case Acknowledge(id) =>
        CountUpdate(fates, id - 1, Acknowledged, Inactive);
      case Resolve(id) =>
        CountUpdate(fates, id - 1, Inactive, Inactive);
    }
  }

  lemma {:induction false} ResolvedCounts(capacity: nat, deeds: seq<Deed>)
    requires capacity > 0
    ensures Resolved(capacity, deeds) == Count(Fates(capacity, deeds), Inactive)
  {
    hide Do, Fated, Agrees;
    if deeds != [] {
      var n := |deeds| - 1;
      ResolvedCounts(capacity, deeds[..n]);
      RunAgrees(capacity, deeds[..n]);
      DoAgrees(Run(capacity, deeds[..n]), Fates(capacity, deeds[..n]), deeds[n]);
      FatedResolves(Fates(capacity, deeds[..n]), capacity, deeds[n]);
    }
  }

  /** In every run the alerts triggered are those counted active, those counted acknowledged
      and those successfully resolved. */
  lemma Conservation(capacity: nat, deeds: seq<Deed>)
    requires capacity > 0
    ensures var b := Run(capacity, deeds);
            b.triggered == b.active + b.acknowledged + Resolved(capacity, deeds)
  {
    hide Run, Fates, Resolved, Count, HoldsEnd;
    RunAgrees(capacity, deeds);
    ResolvedCounts(capacity, deeds);
    CountParts(Fates(capacity, deeds));
  }

  /** The alert is among the last that the ring has slots for. */
  predicate Kept(b: Book, id: nat) {
    Oldest(b.triggered, |b.slots|) < id <= b.triggered
  }

  /** The ring holds the last capacity alerts, the alert with id k in slot (k - 1) mod capacity,
      and nothing else. */
  ghost predicate HoldsLast(b: Book, id: nat)
    requires WellFormed(b)
  {
    && (Kept(b, id) ==> (id - 1) % |b.slots| < b.count && b.slots[(id - 1) % |b.slots|].id == id)
    && (forall j :: 0 <= j < b.count ==> Kept(b, b.slots[j].id))
  }

  lemma AgreesHoldsLast(b: Book, fates: seq<AlertState>, id: nat)
    requires Agrees(b, fates)
    ensures HoldsLast(b, id)
  {
    hide Count, HoldsEnd, Oldest;
    if Kept(b, id) {
      var j := SlotOf(b, fates, id);
      SlotUnique(b, fates, id, j);
    }
    forall j | 0 <= j < b.count ensures Kept(b, b.slots[j].id) {
      var k := SlotIs(b, fates, j);
    }
  }

  lemma FoundExactly(b: Book, fates: seq<AlertState>, d: Deed)
    requires Agrees(b, fates) && !d.Raise?
    ensures Do(b, d).found <==> Kept(b, d.id) && Fits(b.slots[(d.id - 1) % |b.slots|], d)
  {
    hide Count, HoldsEnd, Oldest, Search;
    DoAgrees(b, fates, d);
    if Kept(b, d.id) {
      var j := SlotOf(b, fates, d.id);
      SlotUnique(b, fates, d.id, j);
    }
  }

  /** In every run the ring holds the last capacity alerts. */
  lemma RingHoldsLast(capacity: nat, deeds: seq<Deed>, id: nat)
    requires capacity > 0
    ensures |Run(capacity, deeds).slots| == capacity && HoldsLast(Run(capacity, deeds), id)
  {
    hide Run, Fates, HoldsLast, Agrees;
    RunAgrees(capacity, deeds);
    AgreesHoldsLast(Run(capacity, deeds), Fates(capacity, deeds), id);
  }

  lemma SlotUnique(b: Book, fates: seq<AlertState>, id: nat, j: nat)
    requires Agrees(b, fates) && j < b.count && b.slots[j].id == id
    ensures id > 0 && (id - 1) % |b.slots| == j
  {
    hide Count, HoldsEnd, Agrees;
    var k := SlotIs(b, fates, j);
  }
}
