/**
 Netlink attribute streams (libnl/attr.c): encoding, iteration, policy validation, indexing
 and search. A stream is a sequence of bytes; 16-bit fields are little-endian.
 */
module NetlinkAttr {
  import opened Common

  type byte = x: int | 0 <= x < 256

  const NLA_HDRLEN := 4
  const NLA_TYPE_MASK_SIZE := 0x4000   // nla_type keeps the low 14 bits
  const MAX_PAYLOAD := 65531           // header and payload share a 16-bit length
  const NLE_INVAL := 7
  const NLE_RANGE := 8

  /** NLA_ALIGN and NLMSG_ALIGN: up to the next multiple of 4. */
  function Align(n: nat): (r: nat)
    ensures r % 4 == 0 && n <= r < n + 4
  {
    (n + 3) / 4 * 4
  }

  function Le16(n: int): (b: seq<byte>)
    ensures |b| == 2
  {
    var m := n % 0x1_0000;
    [m % 256, m / 256]
  }

  function U16(b: seq<byte>, pos: nat): (n: nat)
    requires pos + 2 <= |b|
    ensures n < 0x1_0000
  {
    b[pos] as int + 256 * (b[pos + 1] as int)
  }

  lemma Le16RoundTrip(n: int)
    ensures U16(Le16(n), 0) == n % 0x1_0000
  {
    var m := n % 0x1_0000;
    assert m == 256 * (m / 256) + m % 256;
  }

  function Zeros(n: nat): (z: seq<byte>)
    ensures |z| == n && forall i :: 0 <= i < n ==> z[i] == 0
  {
    seq(n, _ => 0)
  }

  datatype Attr = Attr(kind: nat, payload: seq<byte>)

  /** An attribute that the 16-bit length and the 14-bit type can hold. */
  predicate Encodable(a: Attr) {
    1 <= a.kind < NLA_TYPE_MASK_SIZE && |a.payload| <= MAX_PAYLOAD
  }

  /** Header, payload and zero padding. The header fields keep 16 bits of what they get. */
  function Encode(a: Attr): (b: seq<byte>)
    ensures |b| == Align(NLA_HDRLEN + |a.payload|)
  {
    var n := NLA_HDRLEN + |a.payload|;
    Le16(n) + Le16(a.kind) + a.payload + Zeros(Align(n) - n)
  }

  function Area(attrs: seq<Attr>): (b: seq<byte>)
    ensures |b| % 4 == 0
  {
    if attrs == [] then [] else Encode(attrs[0]) + Area(attrs[1..])
  }

  // ----- iteration -----

  /** nla_ok with pos + remaining at the end of the stream. */
  predicate NlaOk(b: seq<byte>, pos: nat) {
    pos + NLA_HDRLEN <= |b| && NLA_HDRLEN <= U16(b, pos) <= |b| - pos
  }

  /** Distance to the next attribute. */
  function Step(b: seq<byte>, pos: nat): (n: nat)
    requires NlaOk(b, pos)
    ensures n >= 4 && n % 4 == 0
    ensures (|b| - pos) % 4 == 0 ==> pos + n <= |b|
  {
    Align(U16(b, pos))
  }

  function AttrAt(b: seq<byte>, pos: nat): Attr
    requires NlaOk(b, pos)
  {
    Attr(U16(b, pos + 2) % NLA_TYPE_MASK_SIZE, b[pos + NLA_HDRLEN..pos + U16(b, pos)])
  }

  /** The walk over a stream of any length never steps past its end. */
  predicate StaysInside(b: seq<byte>, pos: nat)
    requires pos <= |b|
    decreases |b| - pos
  {
    NlaOk(b, pos) ==> pos + Step(b, pos) <= |b| && StaysInside(b, pos + Step(b, pos))
  }

  lemma {:induction false} AlignedStaysInside(b: seq<byte>, pos: nat)
    requires pos <= |b| && (|b| - pos) % 4 == 0
    ensures StaysInside(b, pos)
    decreases |b| - pos
  {
    if NlaOk(b, pos) {
      AlignedStaysInside(b, pos + Step(b, pos));
    }
  }

  /** Where the attributes start, from pos on, of a stream the walk does not leave. */
  function Positions(b: seq<byte>, pos: nat): (ps: seq<nat>)
    requires pos <= |b| && StaysInside(b, pos)
    ensures forall i :: 0 <= i < |ps| ==> pos <= ps[i] && NlaOk(b, ps[i])
    decreases |b| - pos
  {
    if NlaOk(b, pos) then [pos] + Positions(b, pos + Step(b, pos)) else []
  }

  function Attrs(b: seq<byte>): (r: seq<Attr>)
    requires StaysInside(b, 0)
    ensures |r| == |Positions(b, 0)|
    ensures forall i :: 0 <= i < |r| ==> r[i] == AttrAt(b, Positions(b, 0)[i])
  {
    var ps := Positions(b, 0);
    seq(|ps|, i requires 0 <= i < |ps| => AttrAt(b, ps[i]))
  }

  /** k empty attributes and then one whose padding does not fit. */
  function Overrunning(k: nat, extra: nat): (b: seq<byte>)
    requires 0 < extra < 4
    ensures |b| == 4 * k + 4 + extra
  {
    if k == 0 then [4 + extra, 0, 0, 0] + Zeros(extra) else [4, 0, 0, 0] + Overrunning(k - 1, extra)
  }

  lemma {:induction false} OverrunningLeaves(k: nat, extra: nat, before: seq<byte>)
    requires 0 < extra < 4
    ensures !StaysInside(before + Overrunning(k, extra), |before|)
    decreases k
  {
    var b := before + Overrunning(k, extra);
    var pos := |before|;
    if k == 0 {
      assert b[pos] == 4 + extra && b[pos + 1] == 0;
    } else {
      assert b[pos] == 4 && b[pos + 1] == 0;
      assert b == (before + [4, 0, 0, 0]) + Overrunning(k - 1, extra);
      OverrunningLeaves(k - 1, extra, before + [4, 0, 0, 0]);
    }
  }

  /** Iteration over streams of length n stays inside them, whatever their bytes, exactly
      when n is a multiple of 4 or too short for any attribute. */
  lemma StaysInsideExactly(n: nat)
    ensures (forall b: seq<byte> :: |b| == n ==> StaysInside(b, 0)) <==> n % 4 == 0 || n < 4
  {
    if n % 4 == 0 {
      forall b: seq<byte> | |b| == n ensures StaysInside(b, 0) {
        AlignedStaysInside(b, 0);
      }
    } else if n > 4 {
      var b := Overrunning(n / 4 - 1, n % 4);
      OverrunningLeaves(n / 4 - 1, n % 4, []);
      assert [] + b == b && |b| == n;
    }
  }

  // ----- building, then iterating -----

  lemma EncodeFields(a: Attr)
    requires Encodable(a)
    ensures var n := NLA_HDRLEN + |a.payload|;
            U16(Encode(a), 0) == n && U16(Encode(a), 2) == a.kind && Encode(a)[4..n] == a.payload
  {
    var n := NLA_HDRLEN + |a.payload|;
    var len, kind := Le16(n), Le16(a.kind);
    var e := Encode(a);
    Le16RoundTrip(n);
    Le16RoundTrip(a.kind);
    assert e[0] == len[0] && e[1] == len[1] && e[2] == kind[0] && e[3] == kind[1];
  }

  lemma EncodeHeader(before: seq<byte>, a: Attr, after: seq<byte>)
    requires Encodable(a)
    ensures var b := before + Encode(a) + after;
            var pos := |before|;
            && NlaOk(b, pos) && Step(b, pos) == |Encode(a)| && AttrAt(b, pos) == a
  {
    hide Encode;
    var e := Encode(a);
    var b := before + e + after;
    var pos, n := |before|, NLA_HDRLEN + |a.payload|;
    EncodeFields(a);
    assert b[pos..pos + |e|] == e;
    assert b[pos] == e[0] && b[pos + 1] == e[1] && b[pos + 2] == e[2] && b[pos + 3] == e[3];
    assert b[pos + 4..pos + n] == e[4..n];
  }

  lemma NotOkAtEnd(b: seq<byte>)
    ensures !NlaOk(b, |b|)
  {
  }

  lemma {:induction false} PositionsOfArea(before: seq<byte>, attrs: seq<Attr>)
    requires forall a | a in attrs :: Encodable(a)
    ensures StaysInside(before + Area(attrs), |before|)
    ensures var b := before + Area(attrs);
            var ps := Positions(b, |before|);
            |ps| == |attrs| && forall i :: 0 <= i < |ps| ==> AttrAt(b, ps[i]) == attrs[i]
    decreases |attrs|
  {
    hide Encode, AttrAt, NlaOk, Step, StaysInside;
    var b := before + Area(attrs);
    AlignedStaysInside(b, |before|);
    if attrs == [] {
      NotOkAtEnd(b);
    } else {
      var e := Encode(attrs[0]);
      assert b == before + e + Area(attrs[1..]);
      EncodeHeader(before, attrs[0], Area(attrs[1..]));
      assert b == (before + e) + Area(attrs[1..]);
      PositionsOfArea(before + e, attrs[1..]);
    }
  }

  /** Iterating over a built area finds exactly the attributes put into it, in order. */
  lemma AreaRoundTrip(attrs: seq<Attr>)
    requires forall a | a in attrs :: Encodable(a)
    ensures StaysInside(Area(attrs), 0) && Attrs(Area(attrs)) == attrs
  {
    PositionsOfArea([], attrs);
    assert [] + Area(attrs) == Area(attrs);
  }

  // ----- policies -----

  datatype NlaType =
    | Unspec | U8 | U16Type | U32 | U64 | StringType | Flag | Msecs | Nested | NestedArray
    | NulString | Binary | S8 | S16 | S32 | S64

  datatype Policy = Policy(kind: NlaType, minlen: nat, maxlen: nat)

  function DefaultMinlen(kind: NlaType): nat {
    match kind
    case U8 => 1
    case U16Type => 2
    case U32 => 4
    case U64 => 8
    case StringType => 1
    case S8 => 1
    case S16 => 2
    case S32 => 4
    case S64 => 8
    case _ => 0
  }

  function Minlen(pt: Policy): nat {
    if pt.minlen != 0 then pt.minlen
    else if pt.kind != Unspec then DefaultMinlen(pt.kind)
    else 0
  }

  /** validate_nla. The policy has maxtype + 1 entries. The last byte of a string payload is
      read only after the length test, which no empty payload passes. */
  function ValidateNla(a: Attr, policy: seq<Policy>): int {
    if a.kind <= 0 || a.kind >= |policy| then 0 else
      var pt := policy[a.kind];
      var len := |a.payload|;
      if pt.kind == Flag && len > 0 then -NLE_RANGE
      else if len < Minlen(pt) then -NLE_RANGE
      else if pt.maxlen != 0 && len > pt.maxlen then -NLE_RANGE
      else if pt.kind == StringType && a.payload[len - 1] != 0 then -NLE_INVAL
      else 0
  }

  /** The lengths a policy entry allows. */
  predicate LengthOk(pt: Policy, len: nat) {
    && (pt.kind == Flag ==> len == 0)
    && (if pt.minlen != 0 then pt.minlen <= len else DefaultMinlen(pt.kind) <= len)
    && (pt.maxlen != 0 ==> len <= pt.maxlen)
  }

  predicate Meets(a: Attr, policy: seq<Policy>) {
    1 <= a.kind < |policy| ==>
      var pt := policy[a.kind];
      && LengthOk(pt, |a.payload|)
      && (pt.kind == StringType ==> a.payload != [] && a.payload[|a.payload| - 1] == 0)
  }

  /** Validation accepts exactly the attributes that meet the policy, and its code tells a
      wrong length from a string without its final NUL. */
  lemma ValidateNlaExact(a: Attr, policy: seq<Policy>)
    ensures ValidateNla(a, policy) == 0 <==> Meets(a, policy)
    ensures ValidateNla(a, policy) == -NLE_INVAL <==>
              1 <= a.kind < |policy| && policy[a.kind].kind == StringType &&
              LengthOk(policy[a.kind], |a.payload|) && a.payload[|a.payload| - 1] != 0
    ensures ValidateNla(a, policy) in {0, -NLE_INVAL, -NLE_RANGE}
    ensures !(1 <= a.kind < |policy|) ==> ValidateNla(a, policy) == 0
  {
  }

  /** Code of the first attribute that fails, or 0. */
  function StreamCode(attrs: seq<Attr>, policy: seq<Policy>): (c: int) {
    if attrs == [] then 0
    else if ValidateNla(attrs[0], policy) < 0 then ValidateNla(attrs[0], policy)
    else StreamCode(attrs[1..], policy)
  }

  lemma {:induction false} StreamCodeExact(attrs: seq<Attr>, policy: seq<Policy>)
    ensures StreamCode(attrs, policy) == 0 <==> forall a | a in attrs :: Meets(a, policy)
  {
    if attrs != [] {
      ValidateNlaExact(attrs[0], policy);
      StreamCodeExact(attrs[1..], policy);
      assert forall a :: a in attrs <==> a == attrs[0] || a in attrs[1..];
    }
  }

  lemma {:induction false} StreamCodeFirst(attrs: seq<Attr>, policy: seq<Policy>, k: nat)
    requires k < |attrs| && forall i :: 0 <= i < k ==> ValidateNla(attrs[i], policy) == 0
    ensures ValidateNla(attrs[k], policy) != 0 ==> StreamCode(attrs, policy) == ValidateNla(attrs[k], policy)
    decreases k
  {
    ValidateNlaExact(attrs[0], policy);
    if k > 0 {
      StreamCodeFirst(attrs[1..], policy, k - 1);
    }
  }

  lemma {:induction false} StreamCodeNone(attrs: seq<Attr>, policy: seq<Policy>)
    requires forall i :: 0 <= i < |attrs| ==> ValidateNla(attrs[i], policy) == 0
    ensures StreamCode(attrs, policy) == 0
  {
    if attrs != [] {
      StreamCodeNone(attrs[1..], policy);
    }
  }

  // ----- the loops -----

  /** Index of the last attribute of a type, or -1. */
  function LastWith(attrs: seq<Attr>, kind: int): (i: int)
    ensures -1 <= i < |attrs|
    ensures i >= 0 ==> attrs[i].kind == kind
    ensures forall j :: i < j < |attrs| ==> attrs[j].kind != kind
  {
    if attrs == [] then -1
    else if attrs[|attrs| - 1].kind == kind then |attrs| - 1
    else LastWith(attrs[..|attrs| - 1], kind)
  }

  lemma LastWithSnoc(attrs: seq<Attr>, k: nat, kind: int)
    requires k < |attrs|
    ensures LastWith(attrs[..k + 1], kind) == if attrs[k].kind == kind then k else LastWith(attrs[..k], kind)
  {
    assert attrs[..k + 1][..k] == attrs[..k];
  }

  /** The walk of nla_for_each_attr: k attributes done, standing at pos with rem bytes. */
  ghost predicate WalkAt(b: seq<byte>, k: nat, pos: nat, rem: int)
    requires StaysInside(b, 0)
  {
    var ps := Positions(b, 0);
    && k <= |ps|
    && pos + rem == |b| && rem >= 0 && StaysInside(b, pos)
    && Positions(b, pos) == ps[k..]
  }

  lemma WalkStart(b: seq<byte>)
    requires StaysInside(b, 0)
    ensures WalkAt(b, 0, 0, |b|)
  {
  }

  lemma WalkNext(b: seq<byte>, k: nat, pos: nat, rem: int)
    requires StaysInside(b, 0) && WalkAt(b, k, pos, rem) && NlaOk(b, pos)
    ensures k < |Positions(b, 0)| && Positions(b, 0)[k] == pos && Attrs(b)[k] == AttrAt(b, pos)
    ensures WalkAt(b, k + 1, pos + Step(b, pos), rem - Step(b, pos))
    ensures 0 <= rem - Step(b, pos) < rem
  {
    assert Positions(b, pos)[0] == pos;
    assert Positions(b, pos)[1..] == Positions(b, 0)[k + 1..];
  }

  lemma WalkEnd(b: seq<byte>, k: nat, pos: nat, rem: int)
    requires StaysInside(b, 0) && WalkAt(b, k, pos, rem) && !NlaOk(b, pos)
    ensures k == |Positions(b, 0)|
  {
  }

  /** nla_validate: the code of the first attribute that fails. */
  method NlaValidate(b: seq<byte>, policy: seq<Policy>) returns (err: int)
    requires StaysInside(b, 0)
    ensures err == StreamCode(Attrs(b), policy)
  {
    var pos, rem, k := 0, |b|, 0;
    while NlaOk(b, pos)
      invariant WalkAt(b, k, pos, rem)
      invariant forall i :: 0 <= i < k ==> ValidateNla(Attrs(b)[i], policy) == 0
      decreases rem
    {
      WalkNext(b, k, pos, rem);
      err := ValidateNla(AttrAt(b, pos), policy);
      if err < 0 {
        StreamCodeFirst(Attrs(b), policy, k);
        return;
      }
      ValidateNlaExact(AttrAt(b, pos), policy);
      var totlen := Step(b, pos);
      pos, rem, k := pos + totlen, rem - totlen, k + 1;
    }
    WalkEnd(b, k, pos, rem);
    StreamCodeNone(Attrs(b), policy);
    err := 0;
  }

  /** What nla_parse has indexed after k attributes: for every type from 1 to maxtype the
      position of its last attribute among them. */
  ghost predicate Indexed(tb: seq<Option<nat>>, b: seq<byte>, k: nat)
    requires StaysInside(b, 0) && k <= |Positions(b, 0)|
  {
    forall t :: 0 <= t < |tb| ==>
      var i := if t == 0 then -1 else LastWith(Attrs(b)[..k], t);
      tb[t] == if i < 0 then None else Some(Positions(b, 0)[i])
  }

  lemma IndexedNext(tb: seq<Option<nat>>, b: seq<byte>, k: nat)
    requires StaysInside(b, 0) && k < |Positions(b, 0)| && Indexed(tb, b, k)
    ensures var t := Attrs(b)[k].kind;
            Indexed(if 0 < t < |tb| then tb[t := Some(Positions(b, 0)[k])] else tb, b, k + 1)
  {
    hide LastWith, Positions, Attrs;
    var attrs, ps := Attrs(b), Positions(b, 0);
    var kind := attrs[k].kind;
    var tb' := if 0 < kind < |tb| then tb[kind := Some(ps[k])] else tb;
    forall t | 0 < t < |tb'|
      ensures var i := LastWith(attrs[..k + 1], t); tb'[t] == if i < 0 then None else Some(ps[i])
    {
      LastWithSnoc(attrs, k, t);
    }
  }

  lemma IndexedNone(tb: seq<Option<nat>>, b: seq<byte>)
    requires StaysInside(b, 0) && forall t :: 0 <= t < |tb| ==> tb[t] == None
    ensures Indexed(tb, b, 0)
  {
  }

  /**
   nla_parse. With a policy it returns the same code as nla_validate, without one 0. On
   success the index holds, for every type up to maxtype, the last attribute of that type,
   and nothing else; on an error it holds what came before the failing attribute.
   */
  method NlaParse(tb: array<Option<nat>>, b: seq<byte>, policy: Option<seq<Policy>>) returns (err: int)
    requires StaysInside(b, 0) && (policy.Some? ==> tb.Length == |policy.value|)
    modifies tb
    ensures err == if policy.None? then 0 else StreamCode(Attrs(b), policy.value)
    ensures err == 0 ==> Indexed(tb[..], b, |Positions(b, 0)|)
    ensures err != 0 ==> exists k :: 0 <= k < |Positions(b, 0)| && ValidateNla(Attrs(b)[k], policy.value) == err &&
                                     Indexed(tb[..], b, k)
  {
    hide Indexed, WalkAt, ValidateNla, AttrAt, Step, NlaOk, Positions, StreamCode;
    forall t | 0 <= t < tb.Length {
      tb[t] := None;
    }
    IndexedNone(tb[..], b);
    var pos, rem, k := 0, |b|, 0;
    WalkStart(b);
    while NlaOk(b, pos)
      invariant WalkAt(b, k, pos, rem) && k <= |Positions(b, 0)|
      invariant Indexed(tb[..], b, k)
      invariant policy.Some? ==> forall i :: 0 <= i < k ==> ValidateNla(Attrs(b)[i], policy.value) == 0
      decreases rem
    {
      WalkNext(b, k, pos, rem);
      IndexedNext(tb[..], b, k);
      ghost var was := tb[..];
      var attr := AttrAt(b, pos);
      if policy.Some? {
        ValidateNlaExact(attr, policy.value);
      }
      if attr.kind != 0 && attr.kind < tb.Length {
        if policy.Some? {
          err := ValidateNla(attr, policy.value);
          if err < 0 {
            StreamCodeFirst(Attrs(b), policy.value, k);
            return;
          }
        }
        tb[attr.kind] := Some(pos);
        assert tb[..] == was[attr.kind := Some(pos)];
      }
      var totlen := Step(b, pos);
      pos, rem, k := pos + totlen, rem - totlen, k + 1;
    }
    WalkEnd(b, k, pos, rem);
    if policy.Some? {
      StreamCodeNone(Attrs(b), policy.value);
    }
    err := 0;
  }

  /** nla_find: the first attribute of a type. */
  method NlaFind(b: seq<byte>, kind: int) returns (found: Option<nat>)
    requires StaysInside(b, 0)
    ensures found.None? <==> forall a | a in Attrs(b) :: a.kind != kind
    ensures found.Some? ==> exists k :: 0 <= k < |Positions(b, 0)| && found.value == Positions(b, 0)[k] &&
                                        Attrs(b)[k].kind == kind && forall i :: 0 <= i < k ==> Attrs(b)[i].kind != kind
  {
    var pos, rem, k := 0, |b|, 0;
    while NlaOk(b, pos)
      invariant WalkAt(b, k, pos, rem)
      invariant forall i :: 0 <= i < k ==> Attrs(b)[i].kind != kind
      decreases rem
    {
      WalkNext(b, k, pos, rem);
      if AttrAt(b, pos).kind == kind {
        assert Attrs(b)[k] in Attrs(b);
        return Some(pos);
      }
      var totlen := Step(b, pos);
      pos, rem, k := pos + totlen, rem - totlen, k + 1;
    }
    WalkEnd(b, k, pos, rem);
    found := None;
  }
}
