/**
 Local port numbers of netlink sockets (libnl/socket.c): a bitmap of 32 words of 32 bits
 from which a socket takes the first free number, and a port made of that number and the
 low 22 bits of the process id. Numbers, ports and words are 32-bit vectors.
 */
module NetlinkPorts {
  import opened Common

  const UINT_MAX: bv32 := 0xFFFF_FFFF
  const PID_MASK: bv32 := 0x3F_FFFF
  const PORTS: bv32 := 1024

  // ----- bits -----

  predicate Bit(w: bv32, n: bv32)
    requires n < 32
  {
    (w >> n) & 1 == 1
  }

  /** The n lowest bits are ones. */
  predicate LowOnes(w: bv32, n: bv32)
    requires n <= 32
  {
    if n == 32 then w == UINT_MAX else w & ((1 << n) - 1) == (1 << n) - 1
  }

  lemma LowOnesStep(w: bv32, n: bv32)
    requires n < 32 && LowOnes(w, n) && Bit(w, n)
    ensures LowOnes(w, n + 1)
  {
  }

  lemma LowOnesBit(w: bv32, n: bv32, k: bv32)
    requires k < n <= 32 && LowOnes(w, n)
    ensures Bit(w, k)
  {
  }

  function WithBit(w: bv32, n: bv32): bv32
    requires n < 32
  {
    w | (1 << n)
  }

  function WithoutBit(w: bv32, n: bv32): bv32
    requires n < 32
  {
    w & !(1 << n)
  }

  lemma SetBit(w: bv32, n: bv32, k: bv32)
    requires n < 32 && k < 32
    ensures Bit(WithBit(w, n), k) <==> Bit(w, k) || k == n
  {
  }

  lemma ClearBit(w: bv32, n: bv32, k: bv32)
    requires n < 32 && k < 32
    ensures Bit(WithoutBit(w, n), k) <==> Bit(w, k) && k != n
  {
  }

  lemma Numbering(i: bv32, n: bv32)
    requires i < 32 && n < 32
    ensures (i * 32 + n) / 32 == i && (i * 32 + n) % 32 == n && i * 32 + n < PORTS
  {
  }

  lemma NumberParts(nr: bv32)
    requires nr < PORTS
    ensures nr / 32 < 32 && nr % 32 < 32 && nr / 32 * 32 + nr % 32 == nr
  {
  }

  lemma WordIndex(i: bv32, j: bv32)
    requires i < 32 && j < 32
    ensures i as int < 32 && (i as int == j as int <==> i == j)
  {
  }

  // ----- ports -----

  function PortOf(pid: bv32, nr: bv32): bv32 {
    (pid & PID_MASK) + (nr << 22)
  }

  function NumberOf(port: bv32): bv32 {
    port >> 22
  }

  /** A port carries its number, and equals the failure marker only for the last number and
      a process id whose low 22 bits are all ones. */
  lemma PortCarriesNumber(pid: bv32, nr: bv32)
    requires nr < PORTS
    ensures NumberOf(PortOf(pid, nr)) == nr
    ensures PortOf(pid, nr) == UINT_MAX <==> pid & PID_MASK == PID_MASK && nr == PORTS - 1
  {
  }

  lemma NumberInRange(port: bv32)
    ensures NumberOf(port) < PORTS
  {
  }

  ghost predicate AllTaken(used: iset<bv32>) {
    forall nr: bv32 :: nr < PORTS ==> nr in used
  }

  /** Taking the first free number. */
  ghost predicate Takes(used: iset<bv32>, nr: bv32, used': iset<bv32>) {
    && nr < PORTS && nr !in used && used' == used + iset{nr}
    && forall k: bv32 :: k < nr ==> k in used
  }

  // ----- the bitmap -----

  /** The word a number's bit is in. */
  function WordOf(nr: bv32): (i: int)
    requires nr < PORTS
    ensures 0 <= i < 32
  {
    NumberParts(nr);
    WordIndex(nr / 32, nr / 32);
    (nr / 32) as int
  }

  predicate Taken(words: seq<bv32>, nr: bv32)
    requires |words| == 32 && nr < PORTS
  {
    NumberParts(nr);
    Bit(words[WordOf(nr)], nr % 32)
  }

  ghost function UsedOf(words: seq<bv32>): (s: iset<bv32>)
    requires |words| == 32
    ensures forall nr: bv32 :: nr in s <==> nr < PORTS && Taken(words, nr)
  {
    iset nr: bv32 | nr < PORTS && Taken(words, nr)
  }

  /** Index of word i. */
  function At(i: bv32): (k: int)
    requires i < 32
    ensures 0 <= k < 32
  {
    WordIndex(i, i);
    i as int
  }

  function Number(i: bv32, n: bv32): (nr: bv32)
    requires i < 32 && n < 32
    ensures nr < PORTS
  {
    Numbering(i, n);
    i * 32 + n
  }

  lemma SameNumber(i: bv32, n: bv32, nr: bv32)
    requires i < 32 && n < 32 && nr < PORTS
    ensures nr % 32 < 32
    ensures WordOf(nr) == At(i) && nr % 32 == n <==> nr == Number(i, n)
  {
    NumberParts(nr);
    Numbering(i, n);
    WordIndex(nr / 32, i);
  }

  lemma TakenSet(words: seq<bv32>, i: bv32, n: bv32)
    requires |words| == 32 && i < 32 && n < 32
    ensures UsedOf(words[At(i) := WithBit(words[At(i)], n)]) == UsedOf(words) + iset{Number(i, n)}
  {
    hide Taken, WithBit, Number, At;
    var words' := words[At(i) := WithBit(words[At(i)], n)];
    forall nr: bv32 | nr < PORTS ensures nr in UsedOf(words') <==> nr in UsedOf(words) || nr == Number(i, n) {
      TakenSetAt(words, i, n, nr);
    }
  }

  lemma TakenSetAt(words: seq<bv32>, i: bv32, n: bv32, nr: bv32)
    requires |words| == 32 && i < 32 && n < 32 && nr < PORTS
    ensures Taken(words[At(i) := WithBit(words[At(i)], n)], nr) <==> Taken(words, nr) || nr == Number(i, n)
  {
    hide Bit, WithBit, Number, At, WordOf;
    SameNumber(i, n, nr);
    SetBit(words[At(i)], n, nr % 32);
  }

  lemma TakenClear(words: seq<bv32>, i: bv32, n: bv32)
    requires |words| == 32 && i < 32 && n < 32
    ensures UsedOf(words[At(i) := WithoutBit(words[At(i)], n)]) == UsedOf(words) - iset{Number(i, n)}
  {
    hide Taken, WithoutBit, Number, At;
    var words' := words[At(i) := WithoutBit(words[At(i)], n)];
    forall nr: bv32 | nr < PORTS ensures nr in UsedOf(words') <==> nr in UsedOf(words) && nr != Number(i, n) {
      TakenClearAt(words, i, n, nr);
    }
  }

  lemma TakenClearAt(words: seq<bv32>, i: bv32, n: bv32, nr: bv32)
    requires |words| == 32 && i < 32 && n < 32 && nr < PORTS
    ensures Taken(words[At(i) := WithoutBit(words[At(i)], n)], nr) <==> Taken(words, nr) && nr != Number(i, n)
  {
    hide Bit, WithoutBit, Number, At, WordOf;
    SameNumber(i, n, nr);
    ClearBit(words[At(i)], n, nr % 32);
  }

  /** The first k words are full. */
  ghost predicate FullUpTo(words: seq<bv32>, k: bv32)
    requires |words| == 32 && k <= 32
  {
    forall nr: bv32 :: nr < PORTS && nr / 32 < k ==> Taken(words, nr)
  }

  lemma FullStep(words: seq<bv32>, k: bv32)
    requires |words| == 32 && k < 32 && FullUpTo(words, k)
    requires words[At(k)] == UINT_MAX
    ensures FullUpTo(words, k + 1)
  {
    forall nr: bv32 | nr < PORTS && nr / 32 < k + 1 ensures Taken(words, nr) {
      NumberParts(nr);
      if nr / 32 == k {
        LowOnesBit(words[At(k)], 32, nr % 32);
      } else {
        assert nr / 32 < k;
      }
    }
  }

  lemma FullAll(words: seq<bv32>)
    requires |words| == 32 && FullUpTo(words, 32)
    ensures AllTaken(UsedOf(words))
  {
    forall nr: bv32 | nr < PORTS ensures Taken(words, nr) {
      NumberParts(nr);
    }
  }

  lemma FirstFree(words: seq<bv32>, i: bv32, n: bv32)
    requires |words| == 32 && i < 32 && n < 32 && FullUpTo(words, i)
    requires LowOnes(words[At(i)], n) && !Bit(words[At(i)], n)
    ensures Number(i, n) !in UsedOf(words)
    ensures forall k: bv32 :: k < Number(i, n) ==> k in UsedOf(words)
  {
    hide Taken, Bit, LowOnes, Number, At, FullUpTo;
    NumberParts(Number(i, n));
    SameNumber(i, n, Number(i, n));
    TakenAt(words, i, n, Number(i, n));
    forall k: bv32 | k < Number(i, n) ensures k in UsedOf(words) {
      NumberBelow(i, n, k);
      BelowTaken(words, i, n, k);
    }
  }

  lemma TakenAt(words: seq<bv32>, i: bv32, n: bv32, nr: bv32)
    requires |words| == 32 && i < 32 && n < 32 && nr < PORTS && WordOf(nr) == At(i) && nr % 32 == n
    ensures Taken(words, nr) <==> Bit(words[At(i)], n)
  {
    hide Bit, At, WordOf;
  }

  lemma BelowTaken(words: seq<bv32>, i: bv32, n: bv32, k: bv32)
    requires |words| == 32 && i < 32 && n < 32 && FullUpTo(words, i) && LowOnes(words[At(i)], n)
    requires k < PORTS && (k / 32 < i || (k / 32 == i && k % 32 < n))
    ensures Taken(words, k)
  {
    hide Bit, LowOnes;
    NumberParts(k);
    if k / 32 == i {
      LowOnesBit(words[At(i)], n, k % 32);
    }
  }

  lemma NumberBelow(i: bv32, n: bv32, k: bv32)
    requires i < 32 && n < 32 && k < Number(i, n)
    ensures k < PORTS && (k / 32 < i || (k / 32 == i && k % 32 < n))
  {
  }

  lemma NoBits(words: seq<bv32>)
    requires |words| == 32 && forall i :: 0 <= i < 32 ==> words[i] == 0
    ensures UsedOf(words) == iset{}
  {
    forall nr: bv32 | nr < PORTS ensures !Taken(words, nr) {
      NumberParts(nr);
      ZeroBit(nr % 32);
    }
  }

  lemma ZeroBit(n: bv32)
    requires n < 32
    ensures !Bit(0, n)
  {
  }

  class PortMap {
    const words: array<bv32>

    constructor ()
      ensures Valid() && fresh(words) && Used() == iset{}
    {
      words := new bv32[32](_ => 0);
      new;
      NoBits(words[..]);
    }

    ghost predicate Valid() {
      words.Length == 32
    }

    ghost function Used(): iset<bv32>
      requires Valid()
      reads words
    {
      UsedOf(words[..])
    }

    /** The first clear bit of a word that has one. */
    method FirstClear(w: bv32) returns (n: bv32)
      requires w != UINT_MAX
      ensures n < 32 && !Bit(w, n) && LowOnes(w, n)
    {
      n := 0;
      while n < 32 && Bit(w, n)
        invariant n <= 32 && LowOnes(w, n)
        decreases 32 - n
      {
        LowOnesStep(w, n);
        n := n + 1;
      }
    }

    /** generate_local_port: the port of the first free number, or UINT_MAX when all 1024
        are taken, and then nothing changes. */
    method Generate(pid: bv32) returns (port: bv32, ghost got: Option<bv32>)
      requires Valid()
      modifies words
      ensures got.None? <==> AllTaken(old(Used()))
      ensures got.None? ==> port == UINT_MAX && Used() == old(Used())
      ensures got.Some? ==> Takes(old(Used()), got.value, Used()) && port == PortOf(pid, got.value)
    {
      hide Bit, LowOnes, UsedOf, Taken, FullUpTo, PortOf, WithBit, Number, At;
      ghost var was := words[..];
      var i: bv32 := 0;
      FullNone(was);
      while i < 32
        invariant i <= 32 && words[..] == was && FullUpTo(was, i)
        decreases 32 - i
      {
        if words[At(i)] != UINT_MAX {
          var n := FirstClear(words[At(i)]);
          FirstFree(was, i, n);
          TakenSet(was, i, n);
          words[At(i)] := WithBit(words[At(i)], n);
          assert words[..] == was[At(i) := WithBit(was[At(i)], n)];
          return PortOf(pid, Number(i, n)), Some(Number(i, n));
        }
        FullStep(was, i);
        i := i + 1;
      }
      FullAll(was);
      return UINT_MAX, None;
    }

    /** release_local_port: clears the number of the port, unless it is the failure marker. */
    method Release(port: bv32)
      requires Valid()
      modifies words
      ensures Used() == if port == UINT_MAX then old(Used()) else old(Used()) - iset{NumberOf(port)}
    {
      hide UsedOf, Taken, NumberOf, WithoutBit, Number, At;
      if port == UINT_MAX {
        return;
      }
      var i, n := PartsOf(port);
      TakenClear(words[..], i, n);
      ghost var was := words[..];
      words[At(i)] := WithoutBit(words[At(i)], n);
      assert words[..] == was[At(i) := WithoutBit(was[At(i)], n)];
    }

    /** Word and bit of a port's number. */
    method PartsOf(port: bv32) returns (i: bv32, n: bv32)
      ensures i < 32 && n < 32 && Number(i, n) == NumberOf(port)
    {
      var nr := NumberOf(port);
      NumberInRange(port);
      NumberParts(nr);
      i, n := nr / 32, nr % 32;
    }
  }

  lemma FullNone(words: seq<bv32>)
    requires |words| == 32
    ensures FullUpTo(words, 0)
  {
  }
}
