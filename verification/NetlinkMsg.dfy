/**
 Netlink message building (libnl/msg.c, libnl/attr.c): a fixed buffer whose used length
 grows by reservations. The header fields other than the length are not part of the model,
 and the buffer is no larger than a 32-bit length can count.
 */
module NetlinkMsg {
  import opened Common
  import opened NetlinkAttr

  const NLMSG_HDRLEN := 16
  const UINT32_MAX := 0xffff_ffff

  predicate PowerOf2(n: nat) {
    n == 1 || (n > 0 && n % 2 == 0 && PowerOf2(n / 2))
  }

  /** (n + (pad - 1)) & ~(pad - 1), for a power of two. */
  function RoundUp(n: nat, pad: nat): (r: nat)
    requires pad == 0 || PowerOf2(pad)
    ensures r >= n && (pad > 0 ==> r < n + pad)
  {
    if pad == 0 then n else
      assert (n + (pad - 1)) == (n + (pad - 1)) / pad * pad + (n + (pad - 1)) % pad;
      (n + (pad - 1)) / pad * pad
  }

  lemma Le16Keeps16(n: int)
    ensures Le16(n) == Le16(n % 0x1_0000)
  {
  }

  lemma AlignedAlign(n: nat)
    requires n % 4 == 0
    ensures Align(n) == n
  {
  }

  function Overwrite(b: seq<byte>, at: nat, data: seq<byte>): (r: seq<byte>)
    requires at + |data| <= |b|
    ensures |r| == |b|
  {
    b[..at] + data + b[at + |data|..]
  }

  /** A slice that does not meet the data is as before. */
  lemma OverwriteKeeps(b: seq<byte>, at: nat, data: seq<byte>, i: nat, j: nat)
    requires at + |data| <= |b| && i <= j <= |b| && (j <= at || at + |data| <= i)
    ensures Overwrite(b, at, data)[i..j] == b[i..j]
  {
    var r := Overwrite(b, at, data);
    forall k | i <= k < j ensures r[k] == b[k] {
    }
  }

  lemma OverwriteWrites(b: seq<byte>, at: nat, data: seq<byte>)
    requires at + |data| <= |b|
    ensures Overwrite(b, at, data)[at..at + |data|] == data
  {
  }

  lemma Pieces(b: seq<byte>, i: nat, j: nat, k: nat)
    requires i <= j <= k <= |b|
    ensures b[i..k] == b[i..j] + b[j..k]
  {
  }

  /** Data at the end of what is used, then padding. */
  lemma AppendedBytes(b: seq<byte>, at: nat, data: seq<byte>, zeros: seq<byte>)
    requires at + |data| + |zeros| <= |b|
    ensures var r := Overwrite(Overwrite(b, at + |data|, zeros), at, data);
            var end := at + |data| + |zeros|;
            r[..end] == b[..at] + (data + zeros) && r[end..] == b[end..]
  {
    hide Overwrite;
    var mid, end := at + |data|, at + |data| + |zeros|;
    var b1 := Overwrite(b, mid, zeros);
    var r := Overwrite(b1, at, data);
    OverwriteWrites(b1, at, data);
    OverwriteWrites(b, mid, zeros);
    OverwriteKeeps(b1, at, data, mid, end);
    OverwriteKeeps(b1, at, data, 0, at);
    OverwriteKeeps(b, mid, zeros, 0, at);
    OverwriteKeeps(b1, at, data, end, |b|);
    OverwriteKeeps(b, mid, zeros, end, |b|);
    Pieces(r, 0, at, end);
    Pieces(r, at, mid, end);
    assert r[..end] == r[0..end] && b[..at] == b[0..at];
    assert r[end..] == r[end..|b|] && b[end..] == b[end..|b|];
  }

  /** Header, then padding where the 16-bit length puts it. */
  lemma ReservedBytes(b: seq<byte>, p: nat, n: nat, head: seq<byte>) returns (r: seq<byte>)
    requires |head| == 4 <= n && p + Align(n) <= |b|
    ensures p + n % 0x1_0000 + (Align(n) - n) <= |b|
    ensures r == Overwrite(Overwrite(b, p, head), p + n % 0x1_0000, Zeros(Align(n) - n))
    ensures |r| == |b| && r[..p] == b[..p] && r[p + Align(n)..] == b[p + Align(n)..]
    ensures n < 0x1_0000 ==> r[p..p + 4] == head && r[p + n..p + Align(n)] == Zeros(Align(n) - n)
  {
    hide Overwrite;
    var b1 := Overwrite(b, p, head);
    var at, zeros := p + n % 0x1_0000, Zeros(Align(n) - n);
    r := Overwrite(b1, at, zeros);
    OverwriteKeeps(b, p, head, 0, p);
    OverwriteKeeps(b, p, head, p + Align(n), |b|);
    OverwriteKeeps(b1, at, zeros, 0, p);
    OverwriteKeeps(b1, at, zeros, p + Align(n), |b|);
    var q := p + Align(n);
    assert r[..p] == r[0..p] == b1[0..p] == b[0..p] == b[..p];
    assert r[q..] == r[q..|b|] == b1[q..|b|] == b[q..|b|] == b[q..];
    if n < 0x1_0000 {
      OverwriteWrites(b, p, head);
      OverwriteKeeps(b1, at, zeros, p, p + 4);
      OverwriteWrites(b1, at, zeros);
    }
  }

  /** A reserved attribute with its payload filled in. */
  lemma FilledBytes(b: seq<byte>, p: nat, kind: int, data: seq<byte>) returns (r: seq<byte>)
    requires var n := NLA_HDRLEN + |data|; p + Align(n) <= |b|
    ensures var n := NLA_HDRLEN + |data|;
            && r == Overwrite(b, p + NLA_HDRLEN, data)
            && |r| == |b| && r[..p] == b[..p] && r[p + Align(n)..] == b[p + Align(n)..]
            && (b[p..p + 4] == Le16(n) + Le16(kind) && b[p + n..p + Align(n)] == Zeros(Align(n) - n) ==>
                  r[p..p + Align(n)] == Encode(Attr(kind % 0x1_0000, data)))
  {
    hide Overwrite, Le16;
    var n := NLA_HDRLEN + |data|;
    r := Overwrite(b, p + NLA_HDRLEN, data);
    OverwriteKeeps(b, p + 4, data, 0, p);
    OverwriteKeeps(b, p + 4, data, p + Align(n), |b|);
    OverwriteKeeps(b, p + 4, data, p, p + 4);
    OverwriteKeeps(b, p + 4, data, p + n, p + Align(n));
    OverwriteWrites(b, p + 4, data);
    Pieces(r, p, p + 4, p + n);
    Pieces(r, p, p + n, p + Align(n));
    Le16Keeps16(kind);
  }

  /** The buffer after nla_reserve wrote the header and then the padding at p, the padding
      where the 16-bit length puts it, which may be over the header. */
  function ReservedImage(b: seq<byte>, p: nat, n: nat, kind: int): (r: seq<byte>)
    requires 4 <= n && p + Align(n) <= |b|
    ensures |r| == |b|
  {
    Overwrite(Overwrite(b, p, Le16(n) + Le16(kind)), p + n % 0x1_0000, Zeros(Align(n) - n))
  }

  /** The buffer after nla_put copied the payload behind that header. */
  function FilledImage(b: seq<byte>, p: nat, kind: int, data: seq<byte>): (r: seq<byte>)
    requires p + Align(NLA_HDRLEN + |data|) <= |b|
    ensures |r| == |b|
  {
    Overwrite(ReservedImage(b, p, NLA_HDRLEN + |data|, kind), p + NLA_HDRLEN, data)
  }

  lemma EncodesImage(b: seq<byte>, p: nat, kind: int, data: seq<byte>)
    requires p + Align(NLA_HDRLEN + |data|) <= |b| && |data| <= MAX_PAYLOAD
    ensures var e := Encode(Attr(kind % 0x1_0000, data));
            FilledImage(b, p, kind, data) == b[..p] + e + b[p + |e|..]
  {
    hide Overwrite, Le16, Align, Encode;
    var n := NLA_HDRLEN + |data|;
    var r := ReservedBytes(b, p, n, Le16(n) + Le16(kind));
    var f := FilledBytes(r, p, kind, data);
    Pieces(f, 0, p, p + Align(n));
    Pieces(f, 0, p + Align(n), |f|);
  }

  /** Whatever was in the buffer, an attribute that was put reads back as itself if and only if
      its payload has at most 65531 bytes. */
  lemma ReadsBackExactly(b: seq<byte>, p: nat, kind: int, data: seq<byte>)
    requires p + Align(NLA_HDRLEN + |data|) <= |b| && 1 <= kind < NLA_TYPE_MASK_SIZE
    ensures var r := FilledImage(b, p, kind, data);
            NlaOk(r, p) && AttrAt(r, p) == Attr(kind, data) <==> |data| <= MAX_PAYLOAD
  {
    hide FilledImage, Encode, Align;
    if |data| <= MAX_PAYLOAD {
      EncodesImage(b, p, kind, data);
      EncodeHeader(b[..p], Attr(kind, data), b[p + Align(NLA_HDRLEN + |data|)..]);
    }
  }

  class NlMsg {
    const buf: array<byte>
    var len: nat

    constructor (size: nat)
      requires NLMSG_HDRLEN <= size <= UINT32_MAX
      ensures fresh(buf) && Valid() && buf.Length == size && len == NLMSG_HDRLEN
    {
      buf := new byte[size];
      len := NLMSG_HDRLEN;
    }

    ghost predicate Valid()
      reads this
    {
      NLMSG_HDRLEN <= len <= buf.Length <= UINT32_MAX
    }

    ghost function Bytes(): seq<byte>
      requires Valid()
      reads this, buf
    {
      buf[..][..len]
    }

    /** memcpy and memset into the buffer. */
    method Copy(at: nat, data: seq<byte>)
      requires at + |data| <= buf.Length
      modifies buf
      ensures buf[..] == Overwrite(old(buf[..]), at, data)
    {
      forall i | 0 <= i < |data| {
        buf[at + i] := data[i];
      }
      assert forall i :: 0 <= i < |data| ==> buf[at + i] == data[i];
    }

    /** nlmsg_reserve and nlmsg_append: the data and zero padding go to the end of the
        message, or nothing changes when they do not fit. */
    method Append(data: seq<byte>, pad: nat) returns (ok: bool)
      requires Valid() && (pad == 0 || PowerOf2(pad))
      modifies this, buf
      ensures Valid()
      ensures ok <==> old(len) + RoundUp(|data|, pad) <= buf.Length
      ensures Bytes() == old(Bytes()) + (if ok then data + Zeros(RoundUp(|data|, pad) - |data|) else [])
      ensures buf[len..] == old(buf[..])[len..]
    {
      var tlen := RoundUp(|data|, pad);
      if tlen + len > buf.Length {
        return false;
      }
      hide Overwrite;
      var at := len;
      AppendedBytes(buf[..], at, data, Zeros(tlen - |data|));
      len := len + tlen;
      Copy(at + |data|, Zeros(tlen - |data|));
      Copy(at, data);
      ok := true;
    }

    /** nla_reserve: the header of an attribute behind the aligned end of the message, and
        zeros where the 16-bit length says its payload ends. */
    method Reserve(kind: int, attrlen: nat) returns (at: Option<nat>)
      requires Valid()
      modifies this, buf
      ensures Valid()
      ensures at.Some? <==> Align(old(len)) + Align(NLA_HDRLEN + attrlen) <= buf.Length
      ensures at.None? ==> len == old(len) && buf[..] == old(buf[..])
      ensures at.Some? ==>
                var n, p := NLA_HDRLEN + attrlen, Align(old(len));
                && at.value == p && len == p + Align(n)
                && buf[..][..p] == old(buf[..])[..p] && buf[..][len..] == old(buf[..])[len..]
                && buf[..] == ReservedImage(old(buf[..]), p, n, kind)
                && (attrlen <= MAX_PAYLOAD ==>
                      buf[..][p..p + 4] == Le16(n) + Le16(kind) && buf[..][p + n..len] == Zeros(Align(n) - n))
    {
      hide Overwrite, Le16, Align;
      var n := NLA_HDRLEN + attrlen;
      var p := Align(len);
      var tlen := p + Align(n);
      if tlen > buf.Length || tlen > UINT32_MAX {
        return None;
      }
      ghost var _ := ReservedBytes(buf[..], p, n, Le16(n) + Le16(kind));
      Copy(p, Le16(n) + Le16(kind));
      var nlaLen := n % 0x1_0000;
      Copy(p + nlaLen, Zeros(Align(n) - n));
      len := tlen;
      at := Some(p);
    }

    /**
     nla_put: an attribute behind the aligned end of the message, or nothing when it does
     not fit. What lies before and behind stays. Up to the largest payload a 16-bit length
     can describe, the new bytes are the encoding of the attribute.
     */
    method Put(kind: int, data: seq<byte>) returns (ok: bool)
      requires Valid()
      modifies this, buf
      ensures Valid()
      ensures ok <==> Align(old(len)) + Align(NLA_HDRLEN + |data|) <= buf.Length
      ensures !ok ==> len == old(len) && buf[..] == old(buf[..])
      ensures ok ==> len == Align(old(len)) + Align(NLA_HDRLEN + |data|)
      ensures ok ==> buf[..] == FilledImage(old(buf[..]), Align(old(len)), kind, data)
      ensures ok ==> buf[..][..Align(old(len))] == old(buf[..])[..Align(old(len))] && buf[..][len..] == old(buf[..])[len..]
      ensures ok && |data| <= MAX_PAYLOAD ==> buf[..][Align(old(len))..len] == Encode(Attr(kind % 0x1_0000, data))
      ensures old(len) % 4 == 0 && |data| <= MAX_PAYLOAD ==>
                Bytes() == PutBytes(old(Bytes()), buf.Length, Attr(kind % 0x1_0000, data))
    {
      hide Le16, Overwrite, Align, Encode, PutBytes;
      ghost var a := Attr(kind % 0x1_0000, data);
      var at := Reserve(kind, |data|);
      if at.None? {
        if old(len) % 4 == 0 {
          AlignedAlign(old(len));
          PutRefused(buf[..], len, a);
        }
        return false;
      }
      var p := at.value;
      ghost var _ := FilledBytes(buf[..], p, kind, data);
      Copy(p + NLA_HDRLEN, data);
      ok := true;
      if old(len) % 4 == 0 && |data| <= MAX_PAYLOAD {
        AlignedAlign(old(len));
        PutAccepted(old(buf[..]), buf[..], p, len, a);
      }
    }
  }

  // ----- any sequence of puts -----

  /** What Put does to a message of aligned length. */
  function PutBytes(bytes: seq<byte>, size: nat, a: Attr): seq<byte> {
    if |bytes| + |Encode(a)| <= size then bytes + Encode(a) else bytes
  }

  lemma PutRefused(b: seq<byte>, len: nat, a: Attr)
    requires len <= |b| < len + |Encode(a)|
    ensures b[..len] == PutBytes(b[..len], |b|, a)
  {
    hide Encode;
  }

  lemma PutAccepted(b: seq<byte>, r: seq<byte>, p: nat, len: nat, a: Attr)
    requires |r| == |b| && p <= len == p + |Encode(a)| <= |b| && r[..p] == b[..p] && r[p..len] == Encode(a)
    ensures r[..len] == PutBytes(b[..p], |b|, a)
  {
    hide Encode;
    Pieces(r, 0, p, len);
    assert r[..len] == r[0..len] && r[..p] == r[0..p];
  }

  function PutAll(bytes: seq<byte>, size: nat, puts: seq<Attr>): (r: seq<byte>)
    ensures bytes <= r
    decreases puts
  {
    if puts == [] then bytes else PutAll(PutBytes(bytes, size, puts[0]), size, puts[1..])
  }

  /** The puts that fit. */
  function Kept(used: nat, size: nat, puts: seq<Attr>): (kept: seq<Attr>)
    ensures forall a | a in kept :: a in puts
    decreases puts
  {
    if puts == [] then []
    else if used + |Encode(puts[0])| <= size then [puts[0]] + Kept(used + |Encode(puts[0])|, size, puts[1..])
    else Kept(used, size, puts[1..])
  }

  lemma AreaNone()
    ensures Area([]) == []
  {
  }

  lemma AreaCons(a: Attr, rest: seq<Attr>)
    ensures Area([a] + rest) == Encode(a) + Area(rest)
  {
    assert ([a] + rest)[1..] == rest;
  }

  lemma {:induction false} PutAllKept(bytes: seq<byte>, size: nat, puts: seq<Attr>)
    requires |bytes| <= size
    ensures PutAll(bytes, size, puts) == bytes + Area(Kept(|bytes|, size, puts))
    ensures |PutAll(bytes, size, puts)| <= size
    decreases |puts|
  {
    hide Encode, Area;
    if puts == [] {
      AreaNone();
      assert bytes + [] == bytes;
    } else {
      var a := puts[0];
      var next := PutBytes(bytes, size, a);
      PutAllKept(next, size, puts[1..]);
      if |bytes| + |Encode(a)| <= size {
        var rest := Kept(|next|, size, puts[1..]);
        AreaCons(a, rest);
        assert bytes + Encode(a) + Area(rest) == bytes + (Encode(a) + Area(rest));
      }
    }
  }

  /**
   For any sequence of puts into a message, iterating over the attribute area finds exactly
   the puts that fitted, in order; and an index nla_parse built over it holds, for each
   type, the position of the last of them with that type.
   */
  lemma BuiltStream(bytes: seq<byte>, size: nat, puts: seq<Attr>, tb: seq<Option<nat>>)
    requires |bytes| <= size && |bytes| % 4 == 0
    requires forall a | a in puts :: Encodable(a)
    ensures var kept := Kept(|bytes|, size, puts);
            var area := PutAll(bytes, size, puts)[|bytes|..];
            && |area| % 4 == 0 && StaysInside(area, 0) && Attrs(area) == kept
            && (Indexed(tb, area, |kept|) ==>
                  forall t :: 0 < t < |tb| ==>
                    var i := LastWith(kept, t);
                    && (i < 0 ==> tb[t] == None && forall a | a in kept :: a.kind != t)
                    && (i >= 0 ==> tb[t].Some? && NlaOk(area, tb[t].value) && AttrAt(area, tb[t].value) == kept[i]))
  {
    var kept := Kept(|bytes|, size, puts);
    var area := PutAll(bytes, size, puts)[|bytes|..];
    PutAllKept(bytes, size, puts);
    assert area == Area(kept);
    AreaRoundTrip(kept);
    assert kept[..|kept|] == kept;
  }
}
