/**
 Who owns which local port (libnl/socket.c): sockets are allocated, freed and given ports
 while the bitmap of NetlinkPorts records the generated numbers. Sockets are known by a
 handle; a run is any sequence of calls with any handles, ports and process ids.
 */
module NetlinkSockets {
  import opened Common
  import opened NetlinkPorts

  /** s_local.nl_pid, and whether NL_OWN_PORT is set. */
  datatype Sock = Sock(port: bv32, own: bool)

  datatype State = State(used: iset<bv32>, socks: map<nat, Sock>)

  datatype Call =
    | Alloc(id: nat, pid: bv32)
    | Free(id: nat)
    | SetPort(id: nat, port: bv32, pid: bv32)

  /** The socket's port is a generated one. */
  predicate Holds(k: Sock) {
    !k.own && k.port != UINT_MAX
  }

  /** Outcome of generate_local_port. */
  ghost predicate Generated(used: iset<bv32>, pid: bv32, port: bv32, used': iset<bv32>) {
    if AllTaken(used) then
      port == UINT_MAX && used' == used
    else
      exists nr: bv32 :: Takes(used, nr, used') && port == PortOf(pid, nr)
  }

  /** What release_local_port leaves, when the socket does not own its port. */
  ghost function Returned(used: iset<bv32>, k: Sock): iset<bv32> {
    if Holds(k) then used - iset{NumberOf(k.port)} else used
  }

  ghost predicate Next(s: State, c: Call, s': State) {
    match c
    case Alloc(id, pid) =>
      && id !in s.socks
      && exists port: bv32 ::
        && Generated(s.used, pid, port, s'.used)
        && s'.socks == if port == UINT_MAX then s.socks else s.socks[id := Sock(port, false)]
    case Free(id) =>
      && id in s.socks
      && s'.used == Returned(s.used, s.socks[id])
      && s'.socks == s.socks - {id}
    case SetPort(id, port, pid) =>
      && id in s.socks
      && if port == 0 then
           exists made: bv32 ::
             && Generated(s.used, pid, made, s'.used)
             && s'.socks == s.socks[id := Sock(made, false)]
         else
           && s'.used == Returned(s.used, s.socks[id])
           && s'.socks == s.socks[id := Sock(port, true)]
  }

  ghost predicate Live(socks: map<nat, Sock>, nr: bv32) {
    exists id :: id in socks && Holds(socks[id]) && NumberOf(socks[id].port) == nr
  }

  /** Every live generated number has its bit set, and no two sockets share one. */
  ghost predicate Inv(s: State) {
    && (forall id :: id in s.socks && Holds(s.socks[id]) ==> NumberOf(s.socks[id].port) in s.used)
    && (forall id, id' :: id in s.socks && id' in s.socks && id != id' && Holds(s.socks[id]) && Holds(s.socks[id']) ==>
          NumberOf(s.socks[id].port) != NumberOf(s.socks[id'].port))
  }

  /** Only live generated numbers have their bit set. */
  ghost predicate Exact(s: State) {
    forall nr: bv32 :: nr in s.used ==> Live(s.socks, nr)
  }

  /** The calls after which a bit stays set that no socket will ever clear: asking for a
      generated port on a socket that already has one, or generating a port that looks like
      the failure marker. */
  ghost predicate Leaks(s: State, c: Call) {
    match c
    case Alloc(_, pid) => Mistaken(s.used, pid)
    case Free(_) => false
    case SetPort(id, port, pid) =>
      port == 0 && (Mistaken(s.used, pid) || (id in s.socks && Holds(s.socks[id])))
  }

  /** Number 1023 is the only one free and the low 22 bits of the process id are all ones. */
  ghost predicate Mistaken(used: iset<bv32>, pid: bv32) {
    && pid & PID_MASK == PID_MASK
    && PORTS - 1 !in used
    && forall nr: bv32 :: nr < PORTS - 1 ==> nr in used
  }

  // ----- one call -----

  /** What generating does: nothing, a number lost, or a number the new port carries. */
  lemma GeneratedCases(used: iset<bv32>, pid: bv32, port: bv32, used': iset<bv32>) returns (nr: bv32)
    requires Generated(used, pid, port, used')
    ensures AllTaken(used) ==> port == UINT_MAX && used' == used
    ensures !AllTaken(used) ==> nr < PORTS && nr !in used && used' == used + iset{nr}
    ensures !AllTaken(used) ==> (port == UINT_MAX <==> Mistaken(used, pid))
    ensures port != UINT_MAX ==> !AllTaken(used) && NumberOf(port) == nr
    ensures AllTaken(used) ==> !Mistaken(used, pid)
  {
    hide PortOf, NumberOf;
    nr := 0;
    if !AllTaken(used) {
      nr :| Takes(used, nr, used') && port == PortOf(pid, nr);
      PortCarriesNumber(pid, nr);
    }
  }

  /** The invariant survives giving a socket a number that no bit was set for. */
  lemma Grant(s: State, id: nat, port: bv32, used': iset<bv32>)
    requires Inv(s) && used' >= s.used
    requires port != UINT_MAX ==> NumberOf(port) !in s.used && NumberOf(port) in used'
    ensures Inv(State(used', s.socks[id := Sock(port, false)]))
  {
    hide NumberOf;
  }

  /** The invariant survives a socket giving up its number. */
  lemma GiveUp(s: State, id: nat, rest: map<nat, Sock>)
    requires Inv(s) && id in s.socks
    requires forall j :: j in rest && Holds(rest[j]) ==> j in s.socks && j != id && rest[j] == s.socks[j]
    ensures Inv(State(Returned(s.used, s.socks[id]), rest))
  {
    hide NumberOf;
  }

  lemma NextKeepsInv(s: State, c: Call, s': State)
    requires Inv(s) && Next(s, c, s')
    ensures Inv(s')
  {
    hide NumberOf, PortOf, Generated, Inv, Takes;
    match c
    case Alloc(id, pid) =>
      var port: bv32 :| Generated(s.used, pid, port, s'.used) && s'.socks == if port == UINT_MAX then s.socks else s.socks[id := Sock(port, false)];
      var nr := GeneratedCases(s.used, pid, port, s'.used);
      if port == UINT_MAX {
        Widen(s, s'.used);
      } else {
        Grant(s, id, port, s'.used);
      }
    case Free(id) =>
      GiveUp(s, id, s'.socks);
    case SetPort(id, port, pid) =>
      if port == 0 {
        var made: bv32 :| Generated(s.used, pid, made, s'.used) && s'.socks == s.socks[id := Sock(made, false)];
        var nr := GeneratedCases(s.used, pid, made, s'.used);
        Grant(s, id, made, s'.used);
      } else {
        GiveUp(s, id, s'.socks);
      }
  }

  lemma Widen(s: State, used': iset<bv32>)
    requires Inv(s) && used' >= s.used
    ensures Inv(State(used', s.socks))
  {
  }

  // ----- lost numbers -----

  /** A number whose bit is set although no socket carries it. */
  ghost predicate Lost(s: State, nr: bv32) {
    nr in s.used && !Live(s.socks, nr)
  }

  /** The three things a call can do to the bits and the sockets. */
  ghost predicate Grants(s: State, id: nat, port: bv32, s': State) {
    && s'.socks == s.socks[id := Sock(port, false)]
    && (port == UINT_MAX ==> s'.used == s.used)
    && (port != UINT_MAX ==> NumberOf(port) !in s.used && s'.used == s.used + iset{NumberOf(port)})
  }

  ghost predicate GivesUp(s: State, id: nat, s': State) {
    && id in s.socks
    && s'.used == Returned(s.used, s.socks[id])
    && (forall j :: j in s'.socks && Holds(s'.socks[j]) ==> j in s.socks && j != id && s'.socks[j] == s.socks[j])
    && (forall j :: j in s.socks && j != id ==> j in s'.socks && s'.socks[j] == s.socks[j])
  }

  /** A number is marked that the socket, if there is one, does not get. */
  ghost predicate Misses(s: State, s': State) {
    && PORTS - 1 !in s.used && s'.used == s.used + iset{PORTS - 1}
    && (s'.socks == s.socks || exists id: nat :: id in s.socks && s'.socks == s.socks[id := Sock(UINT_MAX, false)])
  }

  lemma GrantsExact(s: State, id: nat, port: bv32, s': State)
    requires Inv(s) && Exact(s) && Grants(s, id, port, s')
    ensures Exact(s') <==> !(id in s.socks && Holds(s.socks[id]))
  {
    hide NumberOf;
    if id in s.socks && Holds(s.socks[id]) {
      assert Lost(s', NumberOf(s.socks[id].port));
    } else {
      forall nr: bv32 | nr in s'.used ensures Live(s'.socks, nr) {
        if nr in s.used {
          var j :| j in s.socks && Holds(s.socks[j]) && NumberOf(s.socks[j].port) == nr;
          assert j in s'.socks && s'.socks[j] == s.socks[j];
        } else {
          assert id in s'.socks;
        }
      }
    }
  }

  lemma GivesUpExact(s: State, id: nat, s': State)
    requires Inv(s) && Exact(s) && GivesUp(s, id, s')
    ensures Exact(s')
  {
    hide NumberOf;
    forall nr: bv32 | nr in s'.used ensures Live(s'.socks, nr) {
      var j :| j in s.socks && Holds(s.socks[j]) && NumberOf(s.socks[j].port) == nr;
      assert j in s'.socks && s'.socks[j] == s.socks[j];
    }
  }

  lemma MissesExact(s: State, s': State)
    requires Inv(s) && Misses(s, s')
    ensures !Exact(s')
  {
    hide NumberOf;
    assert !Live(s.socks, PORTS - 1);
    assert Lost(s', PORTS - 1);
  }

  lemma LostStays(s: State, s': State, id: nat, port: bv32, nr: bv32)
    requires Inv(s) && Lost(s, nr)
    requires Grants(s, id, port, s') || GivesUp(s, id, s') || Misses(s, s') || s' == s
    ensures Lost(s', nr)
  {
    hide NumberOf;
    forall j | j in s'.socks && Holds(s'.socks[j]) ensures NumberOf(s'.socks[j].port) != nr {
    }
  }

  /** Every call is one of those things, and which one it is says whether it leaks. */
  lemma NextIs(s: State, c: Call, s': State) returns (port: bv32)
    requires Next(s, c, s')
    ensures Leaks(s, c) ==> Misses(s, s') || (Grants(s, c.id, port, s') && c.id in s.socks && Holds(s.socks[c.id]))
    ensures !Leaks(s, c) ==> s' == s || GivesUp(s, c.id, s') || (Grants(s, c.id, port, s') && !(c.id in s.socks && Holds(s.socks[c.id])))
  {
    hide NumberOf, PortOf, Generated, Mistaken;
    port := 0;
    match c
    case Alloc(id, pid) =>
      port :| Generated(s.used, pid, port, s'.used) && s'.socks == if port == UINT_MAX then s.socks else s.socks[id := Sock(port, false)];
      GeneratedIs(s.used, pid, port, s'.used);
    case Free(id) =>
    case SetPort(id, p, pid) =>
      if p == 0 {
        port :| Generated(s.used, pid, port, s'.used) && s'.socks == s.socks[id := Sock(port, false)];
        GeneratedIs(s.used, pid, port, s'.used);
      }
  }

  lemma GeneratedIs(used: iset<bv32>, pid: bv32, port: bv32, used': iset<bv32>)
    requires Generated(used, pid, port, used')
    ensures Mistaken(used, pid) ==> port == UINT_MAX && PORTS - 1 !in used && used' == used + iset{PORTS - 1}
    ensures !Mistaken(used, pid) && port == UINT_MAX ==> used' == used
    ensures port != UINT_MAX ==> !Mistaken(used, pid) && NumberOf(port) !in used && used' == used + iset{NumberOf(port)}
  {
    hide NumberOf, PortOf;
    var nr := GeneratedCases(used, pid, port, used');
  }

  /** Starting from exact bits, a call leaves them exact exactly when it does not leak. */
  lemma NextExact(s: State, c: Call, s': State)
    requires Inv(s) && Exact(s) && Next(s, c, s')
    ensures Exact(s') <==> !Leaks(s, c)
  {
    hide Next, Inv, Exact, Leaks, Grants, GivesUp, Misses, Holds;
    var port := NextIs(s, c, s');
    if Leaks(s, c) && Misses(s, s') {
      MissesExact(s, s');
    } else if !Leaks(s, c) && GivesUp(s, c.id, s') {
      GivesUpExact(s, c.id, s');
    } else if Grants(s, c.id, port, s') {
      GrantsExact(s, c.id, port, s');
    }
  }

  /** No call ever repairs the bits. */
  lemma NeverRepaired(s: State, c: Call, s': State)
    requires Inv(s) && !Exact(s) && Next(s, c, s')
    ensures !Exact(s')
  {
    hide Next, Inv, Leaks, Grants, GivesUp, Misses, Holds, Live;
    var port := NextIs(s, c, s');
    var nr: bv32 :| nr in s.used && !Live(s.socks, nr);
    LostStays(s, s', c.id, port, nr);
  }

  // ----- runs -----

  /** states[i] is the state before calls[i]; nothing is allocated at the start. */
  ghost predicate Run(states: seq<State>, calls: seq<Call>) {
    && |states| == |calls| + 1
    && states[0] == State(iset{}, map[])
    && forall i :: 0 <= i < |calls| ==> Next(states[i], calls[i], states[i + 1])
  }

  /** In every run: no two sockets ever share a generated number, every generated number is
      marked, and the marks are exactly the live generated numbers if and only if no call of
      the run leaked. */
  lemma {:induction false} EveryRun(states: seq<State>, calls: seq<Call>)
    requires Run(states, calls)
    ensures Inv(states[|calls|])
    ensures Exact(states[|calls|]) <==> forall i :: 0 <= i < |calls| ==> !Leaks(states[i], calls[i])
  {
    hide Next, Leaks;
    if calls != [] {
      var n := |calls| - 1;
      assert Run(states[..n + 1], calls[..n]);
      EveryRun(states[..n + 1], calls[..n]);
      assert Next(states[n], calls[n], states[n + 1]);
      NextKeepsInv(states[n], calls[n], states[n + 1]);
      LastCall(states, calls);
    }
  }

  lemma LastCall(states: seq<State>, calls: seq<Call>)
    requires calls != [] && Run(states, calls) && Inv(states[|calls| - 1])
    requires Exact(states[|calls| - 1]) <==> forall i :: 0 <= i < |calls| - 1 ==> !Leaks(states[i], calls[i])
    ensures Exact(states[|calls|]) <==> forall i :: 0 <= i < |calls| ==> !Leaks(states[i], calls[i])
  {
    hide Next, Leaks, Inv, Exact;
    var n := |calls| - 1;
    assert Next(states[n], calls[n], states[n + 1]);
    if Exact(states[n]) {
      NextExact(states[n], calls[n], states[n + 1]);
    } else {
      NeverRepaired(states[n], calls[n], states[n + 1]);
    }
  }

  /** A leak: process 1 allocates a socket and asks for a generated port on it. Number 0 stays
      marked although the only socket now carries number 1. */
  lemma LeakExample()
    ensures exists states: seq<State>, calls: seq<Call> :: Run(states, calls) && Inv(states[|calls|]) && Lost(states[|calls|], 0)
  {
    var p0, p1 := PortOf(1, 0), PortOf(1, 1);
    var s0 := State(iset{}, map[]);
    var s1 := State(iset{0}, map[0 := Sock(p0, false)]);
    var s2 := State(iset{0, 1}, map[0 := Sock(p1, false)]);
    var calls := [Alloc(0, 1), SetPort(0, 0, 1)];
    assert Takes(s0.used, 0, s1.used) && Takes(s1.used, 1, s2.used);
    assert Generated(s0.used, 1, p0, s1.used) && Generated(s1.used, 1, p1, s2.used);
    assert Run([s0, s1, s2], calls);
    assert Lost(s2, 0);
  }

  /** The first n numbers. */
  ghost function Below(n: bv32): iset<bv32> {
    iset nr: bv32 | Less(nr, n)
  }

  predicate Less(nr: bv32, n: bv32) {
    nr < n
  }

  lemma LessStep(nr: bv32, n: bv32)
    requires n < PORTS
    ensures Less(nr, n + 1) <==> Less(nr, n) || nr == n
  {
  }

  lemma TakesNext(n: bv32)
    requires n < PORTS
    ensures Takes(Below(n), n, Below(n + 1)) && !AllTaken(Below(n))
  {
    hide Less;
    forall nr: bv32 ensures nr in Below(n + 1) <==> nr in Below(n) + iset{n} {
      LessStep(nr, n);
    }
    BelowIs(n);
  }

  lemma BelowIs(n: bv32)
    ensures n !in Below(n) && forall k: bv32 :: k < n ==> k in Below(n)
  {
  }

  /** A process whose id has ones in its low 22 bits allocates on n marked numbers. */
  lemma AllocNext(s: State, n: bv32, id: nat) returns (s': State)
    requires n < PORTS && s.used == Below(n) && id !in s.socks
    ensures Next(s, Alloc(id, PID_MASK), s') && s'.used == Below(n + 1)
    ensures s'.socks == if n == PORTS - 1 then s.socks else s.socks[id := Sock(PortOf(PID_MASK, n), false)]
    ensures Leaks(s, Alloc(id, PID_MASK)) <==> n == PORTS - 1
  {
    hide PortOf, Takes, AllTaken;
    TakesNext(n);
    var port := PortOf(PID_MASK, n);
    PortCarriesNumber(PID_MASK, n);
    s' := State(Below(n + 1), if port == UINT_MAX then s.socks else s.socks[id := Sock(port, false)]);
    assert Generated(s.used, PID_MASK, port, s'.used);
    assert n < PORTS - 1 ==> PORTS - 2 !in Below(n);
  }

  lemma AllocRun(states: seq<State>, calls: seq<Call>, n: bv32) returns (s': State)
    requires Run(states, calls) && n < PORTS && states[|calls|].used == Below(n) && |calls| !in states[|calls|].socks
    ensures Run(states + [s'], calls + [Alloc(|calls|, PID_MASK)]) && s'.used == Below(n + 1)
    ensures s'.socks.Keys <= states[|calls|].socks.Keys + {|calls|} && (n == PORTS - 1 ==> s'.socks == states[|calls|].socks)
    ensures Leaks(states[|calls|], Alloc(|calls|, PID_MASK)) <==> n == PORTS - 1
  {
    hide Next, Leaks, Below;
    s' := AllocNext(states[|calls|], n, |calls|);
    var states', calls' := states + [s'], calls + [Alloc(|calls|, PID_MASK)];
    forall i | 0 <= i < |calls'| ensures Next(states'[i], calls'[i], states'[i + 1]) {
      if i < |calls| {
        assert Next(states[i], calls[i], states[i + 1]);
      }
    }
  }

  /** The other leak: 1023 allocations by such a process leave the marks exact, and the next
      one fails and marks number 1023 for nobody. */
  lemma MarkerLeakExample() returns (states: seq<State>, calls: seq<Call>)
    ensures Run(states, calls) && calls != [] && calls[|calls| - 1] == Alloc(|calls| - 1, PID_MASK)
    ensures Exact(states[|calls| - 1]) && states[|calls|].socks == states[|calls| - 1].socks
    ensures Inv(states[|calls|]) && Lost(states[|calls|], PORTS - 1)
  {
    hide Next, Leaks, Below, Exact, Inv;
    states, calls := [State(iset{}, map[])], [];
    var n: bv32 := 0;
    BelowNone();
    while n < PORTS - 1
      invariant n <= PORTS - 1 && Run(states, calls) && states[|calls|].used == Below(n)
      invariant forall id :: id in states[|calls|].socks ==> id < |calls|
      invariant forall i :: 0 <= i < |calls| ==> !Leaks(states[i], calls[i])
      decreases PORTS - 1 - n
    {
      var s' := AllocRun(states, calls, n);
      states, calls := states + [s'], calls + [Alloc(|calls|, PID_MASK)];
      n := n + 1;
    }
    EveryRun(states, calls);
    var before := states[|calls|];
    var s' := AllocRun(states, calls, PORTS - 1);
    states, calls := states + [s'], calls + [Alloc(|calls|, PID_MASK)];
    EveryRun(states, calls);
    MarkedForNobody(before, s');
  }

  lemma BelowNone()
    ensures Below(0) == iset{}
  {
  }

  lemma MarkedForNobody(s: State, s': State)
    requires Inv(s) && s.used == Below(PORTS - 1) && s'.used == Below(PORTS) && s'.socks == s.socks
    ensures Lost(s', PORTS - 1)
  {
    hide NumberOf;
  }

  /** Releasing a generated port undoes generating it, for every port but the failure marker. */
  lemma ReleaseUndoesGenerate(used: iset<bv32>, pid: bv32, port: bv32, used': iset<bv32>)
    requires Generated(used, pid, port, used') && !Mistaken(used, pid)
    ensures Returned(used', Sock(port, false)) == used
  {
    hide NumberOf, PortOf, Mistaken, Generated;
    GeneratedIs(used, pid, port, used');
  }

  // ----- the calls -----

  class SocketTable {
    const ports: PortMap
    var socks: map<nat, Sock>

    constructor ()
      ensures Valid() && fresh(ports) && fresh(ports.words) && Abs() == State(iset{}, map[])
    {
      ports := new PortMap();
      socks := map[];
    }

    ghost predicate Valid() {
      ports.Valid()
    }

    ghost function Abs(): State
      requires Valid()
      reads this, ports.words
    {
      State(ports.Used(), socks)
    }

    /** __alloc_socket; fails exactly when no port could be generated. */
    method Alloc(id: nat, pid: bv32) returns (ok: bool)
      requires Valid() && id !in socks
      modifies this, ports.words
      ensures Next(old(Abs()), Call.Alloc(id, pid), Abs())
      ensures ok <==> id in socks
      ensures ok <==> !AllTaken(old(Abs()).used) && !Mistaken(old(Abs()).used, pid)
    {
      hide PortOf, NumberOf, Takes, Mistaken, AllTaken, UsedOf;
      var port, got := ports.Generate(pid);
      assert Generated(old(Abs()).used, pid, port, ports.Used()) by { GenerateIs(old(Abs()).used, pid, port, got, ports.Used()); }
      ghost var nr := GeneratedCases(old(Abs()).used, pid, port, ports.Used());
      ok := port != UINT_MAX;
      if ok {
        socks := socks[id := Sock(port, false)];
      } else {
        ports.Release(port);
      }
    }

    /** nl_socket_free. */
    method Free(id: nat)
      requires Valid() && id in socks
      modifies this, ports.words
      ensures Next(old(Abs()), Call.Free(id), Abs())
    {
      hide NumberOf, UsedOf;
      if !socks[id].own {
        ports.Release(socks[id].port);
      }
      socks := socks - {id};
    }

    /** nl_socket_set_local_port. */
    method SetLocalPort(id: nat, port: bv32, pid: bv32)
      requires Valid() && id in socks
      modifies this, ports.words
      ensures Next(old(Abs()), SetPort(id, port, pid), Abs())
    {
      hide PortOf, NumberOf, Takes, AllTaken, UsedOf;
      if port == 0 {
        var made, got := ports.Generate(pid);
        GenerateIs(old(Abs()).used, pid, made, got, ports.Used());
        socks := socks[id := Sock(made, false)];
      } else {
        if !socks[id].own {
          ports.Release(socks[id].port);
        }
        socks := socks[id := Sock(port, true)];
      }
    }
  }

  lemma GenerateIs(used: iset<bv32>, pid: bv32, port: bv32, got: Option<bv32>, used': iset<bv32>)
    requires got.None? <==> AllTaken(used)
    requires got.None? ==> port == UINT_MAX && used' == used
    requires got.Some? ==> Takes(used, got.value, used') && port == PortOf(pid, got.value)
    ensures Generated(used, pid, port, used')
  {
  }
}
