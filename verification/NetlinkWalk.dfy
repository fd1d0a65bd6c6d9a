/**
 The walk over the bytes of a datagram (nlmsg_ok and nlmsg_next of libnl/msg.c, with the
 message layout of section 2.3.2 of RFC 3549), and the messages that the receive loop of
 NetlinkRecv finds in it. Fields are little-endian. Lengths are such that, rounded up, they
 are still signed 32-bit numbers.
 */
module NetlinkWalk {
  import opened NetlinkAttr
  import R = NetlinkRecv

  const NLMSG_HDRLEN := 16
  const ERROR_LEN := 36              // header, error code and the header it answers
  const LIMIT := 0x7FFF_FFFC
  const NLMSG_NOOP := 1
  const NLMSG_ERROR := 2
  const NLMSG_DONE := 3
  const NLMSG_OVERRUN := 4
  const NLM_F_MULTI := 2
  const NLM_F_ACK := 4

  function Le32(n: int): (b: seq<byte>)
    ensures |b| == 4
  {
    Le16(n) + Le16(n / 0x1_0000)
  }

  function U32(b: seq<byte>, pos: nat): (n: nat)
    requires pos + 4 <= |b|
  {
    U16(b, pos) + 0x1_0000 * U16(b, pos + 2)
  }

  /** Nothing but the bytes in place decides a field. */
  lemma U16At(b: seq<byte>, pos: nat, c: seq<byte>, at: nat)
    requires pos + 2 <= |b| && at + 2 <= |c| && b[pos..pos + 2] == c[at..at + 2]
    ensures U16(b, pos) == U16(c, at)
  {
    assert b[pos] == b[pos..pos + 2][0] == c[at] && b[pos + 1] == b[pos..pos + 2][1] == c[at + 1];
  }

  lemma U32At(b: seq<byte>, pos: nat, c: seq<byte>, at: nat)
    requires pos + 4 <= |b| && at + 4 <= |c| && b[pos..pos + 4] == c[at..at + 4]
    ensures U32(b, pos) == U32(c, at)
  {
    hide U16;
    assert b[pos..pos + 2] == b[pos..pos + 4][..2] == c[at..at + 4][..2] == c[at..at + 2];
    assert b[pos + 2..pos + 4] == b[pos..pos + 4][2..] == c[at..at + 4][2..] == c[at + 2..at + 4];
    U16At(b, pos, c, at);
    U16At(b, pos + 2, c, at + 2);
  }

  lemma Le32RoundTrip(n: nat)
    requires n < 0x1_0000_0000
    ensures U32(Le32(n), 0) == n
  {
    hide U16, Le16;
    var b := Le32(n);
    Le16RoundTrip(n);
    Le16RoundTrip(n / 0x1_0000);
    assert b[0..2] == Le16(n)[0..2] && b[2..4] == Le16(n / 0x1_0000)[0..2];
    U16At(b, 0, Le16(n), 0);
    U16At(b, 2, Le16(n / 0x1_0000), 0);
    assert n == n / 0x1_0000 * 0x1_0000 + n % 0x1_0000;
  }

  // ----- the walk -----

  /** nlmsg_ok with pos + remaining at the end of the datagram. */
  predicate MsgOk(b: seq<byte>, pos: nat) {
    pos + NLMSG_HDRLEN <= |b| && NLMSG_HDRLEN <= U32(b, pos) <= |b| - pos
  }

  /** Distance to the next message. */
  function MsgStep(b: seq<byte>, pos: nat): (n: nat)
    requires MsgOk(b, pos)
    ensures n >= 16 && n % 4 == 0
    ensures (|b| - pos) % 4 == 0 ==> pos + n <= |b|
  {
    AlignFits(U32(b, pos), |b| - pos);
    Align(U32(b, pos))
  }

  lemma AlignFits(n: nat, m: nat)
    requires n <= m
    ensures m % 4 == 0 ==> Align(n) <= m
    ensures n >= 16 ==> Align(n) >= 16
  {
  }

  /** The walk never steps past the end, where the remaining length would wrap. */
  predicate Stays(b: seq<byte>, pos: nat)
    requires pos <= |b|
    decreases |b| - pos
  {
    MsgOk(b, pos) ==> pos + MsgStep(b, pos) <= |b| && Stays(b, pos + MsgStep(b, pos))
  }

  lemma {:induction false} AlignedStays(b: seq<byte>, pos: nat)
    requires pos <= |b| && (|b| - pos) % 4 == 0
    ensures Stays(b, pos)
    decreases |b| - pos
  {
    hide U32;
    if MsgOk(b, pos) {
      AlignedStays(b, pos + MsgStep(b, pos));
    }
  }

  /** One message that fills a datagram whose length is not a multiple of 4. */
  lemma UnalignedLeaves(n: nat)
    requires NLMSG_HDRLEN <= n <= LIMIT && n % 4 != 0
    ensures |Le32(n) + Zeros(n - 4)| == n && !Stays(Le32(n) + Zeros(n - 4), 0)
  {
    hide Le32, U32;
    var b := Le32(n) + Zeros(n - 4);
    Le32RoundTrip(n);
    assert b[0..4] == Le32(n)[0..4];
    U32At(b, 0, Le32(n), 0);
    assert MsgOk(b, 0) && MsgStep(b, 0) > n;
  }

  /** The walk over datagrams of length n stays inside them, whatever their bytes, exactly when
      n is a multiple of 4 or too short for any message. */
  lemma StaysExactly(n: nat)
    requires n <= LIMIT
    ensures (forall b: seq<byte> :: |b| == n ==> Stays(b, 0)) <==> n % 4 == 0 || n < NLMSG_HDRLEN
  {
    hide Stays, Le32;
    if n % 4 == 0 {
      forall b: seq<byte> | |b| == n ensures Stays(b, 0) {
        AlignedStays(b, 0);
      }
    } else if n >= NLMSG_HDRLEN {
      UnalignedLeaves(n);
    } else {
      forall b: seq<byte> | |b| == n ensures Stays(b, 0) {
        ShortStays(b);
      }
    }
  }

  lemma ShortStays(b: seq<byte>)
    requires |b| < NLMSG_HDRLEN
    ensures Stays(b, 0)
  {
  }

  // ----- the messages -----

  /** A message on the wire; its length is that of header and payload. */
  datatype Wire = Wire(kind: nat, flags: nat, seq_: nat, pid: nat, payload: seq<byte>)

  predicate Fits(w: Wire) {
    w.kind < 0x1_0000 && w.flags < 0x1_0000 && w.seq_ < 0x1_0000_0000 && w.pid < 0x1_0000_0000 && NLMSG_HDRLEN + |w.payload| <= LIMIT
  }

  function Encoded(w: Wire): (b: seq<byte>)
    ensures |b| == Align(NLMSG_HDRLEN + |w.payload|)
  {
    var n := NLMSG_HDRLEN + |w.payload|;
    Le32(n) + Le16(w.kind) + Le16(w.flags) + Le32(w.seq_) + Le32(w.pid) + w.payload + Zeros(Align(n) - n)
  }

  function Joined(ws: seq<Wire>): (b: seq<byte>)
    ensures |b| % 4 == 0
  {
    if ws == [] then [] else
      var first, rest := Encoded(ws[0]), Joined(ws[1..]);
      Fours(|first|, |rest|);
      first + rest
  }

  lemma Fours(a: nat, b: nat)
    requires a % 4 == 0 && b % 4 == 0
    ensures (a + b) % 4 == 0
  {
  }

  function WireAt(b: seq<byte>, pos: nat): Wire
    requires MsgOk(b, pos)
  {
    Wire(U16(b, pos + 4), U16(b, pos + 6), U32(b, pos + 8), U32(b, pos + 12), b[pos + NLMSG_HDRLEN..pos + U32(b, pos)])
  }

  /** What the loop finds, from pos on. */
  function Found(b: seq<byte>, pos: nat): seq<Wire>
    requires pos <= |b| && Stays(b, pos)
    decreases |b| - pos
  {
    if MsgOk(b, pos) then [WireAt(b, pos)] + Found(b, pos + MsgStep(b, pos)) else []
  }

  /** Field by field. */
  lemma EncodedParts(w: Wire)
    ensures var e, n := Encoded(w), NLMSG_HDRLEN + |w.payload|;
            && e[0..4] == Le32(n) && e[4..6] == Le16(w.kind) && e[6..8] == Le16(w.flags)
            && e[8..12] == Le32(w.seq_) && e[12..16] == Le32(w.pid) && e[16..n] == w.payload
  {
    hide Le32, Le16;
  }

  lemma EncodedFields(w: Wire)
    requires Fits(w)
    ensures var e, n := Encoded(w), NLMSG_HDRLEN + |w.payload|;
            && U32(e, 0) == n && U16(e, 4) == w.kind && U16(e, 6) == w.flags
            && U32(e, 8) == w.seq_ && U32(e, 12) == w.pid && e[16..n] == w.payload
  {
    hide Encoded, Le32, Le16, U32, U16;
    var e, n := Encoded(w), NLMSG_HDRLEN + |w.payload|;
    EncodedParts(w);
    Field32(e, 0, n);
    Field16(e, 4, w.kind);
    Field16(e, 6, w.flags);
    Field32(e, 8, w.seq_);
    Field32(e, 12, w.pid);
  }

  lemma Field16(e: seq<byte>, pos: nat, n: nat)
    requires pos + 2 <= |e| && n < 0x1_0000 && e[pos..pos + 2] == Le16(n)
    ensures U16(e, pos) == n
  {
    hide Le16, U16;
    Le16RoundTrip(n);
    assert Le16(n)[0..2] == Le16(n);
    U16At(e, pos, Le16(n), 0);
  }

  lemma Field32(e: seq<byte>, pos: nat, n: nat)
    requires pos + 4 <= |e| && n < 0x1_0000_0000 && e[pos..pos + 4] == Le32(n)
    ensures U32(e, pos) == n
  {
    hide Le32, U32;
    Le32RoundTrip(n);
    assert Le32(n)[0..4] == Le32(n);
    U32At(e, pos, Le32(n), 0);
  }

  lemma Shift16(before: seq<byte>, e: seq<byte>, after: seq<byte>, i: nat)
    requires i + 2 <= |e|
    ensures U16(before + e + after, |before| + i) == U16(e, i)
  {
  }

  lemma Shift32(before: seq<byte>, e: seq<byte>, after: seq<byte>, i: nat)
    requires i + 4 <= |e|
    ensures U32(before + e + after, |before| + i) == U32(e, i)
  {
    hide U16;
    Shift16(before, e, after, i);
    Shift16(before, e, after, i + 2);
  }

  lemma EncodedThere(before: seq<byte>, w: Wire, after: seq<byte>)
    requires Fits(w)
    ensures var b := before + Encoded(w) + after;
            MsgOk(b, |before|) && MsgStep(b, |before|) == |Encoded(w)| && WireAt(b, |before|) == w
  {
    hide Encoded, U32, U16;
    var e, n := Encoded(w), NLMSG_HDRLEN + |w.payload|;
    var b, pos := before + e + after, |before|;
    EncodedFields(w);
    Shift32(before, e, after, 0);
    Shift16(before, e, after, 4);
    Shift16(before, e, after, 6);
    Shift32(before, e, after, 8);
    Shift32(before, e, after, 12);
    assert b[pos + 16..pos + n] == e[16..n];
  }

  lemma JoinedStays(before: seq<byte>, ws: seq<Wire>)
    ensures Stays(before + Joined(ws), |before|)
  {
    hide Joined, Stays;
    var b := before + Joined(ws);
    assert |b| - |before| == |Joined(ws)|;
    AlignedStays(b, |before|);
  }

  lemma Assoc(a: seq<byte>, b: seq<byte>, c: seq<byte>)
    ensures a + (b + c) == a + b + c
  {
  }

  lemma FoundFirst(b: seq<byte>, pos: nat)
    requires pos <= |b| && Stays(b, pos) && MsgOk(b, pos)
    ensures var next := pos + MsgStep(b, pos);
            next <= |b| && Stays(b, next) && Found(b, pos) == [WireAt(b, pos)] + Found(b, next)
  {
    hide MsgStep, WireAt, MsgOk;
  }

  lemma {:induction false} FoundJoined(before: seq<byte>, ws: seq<Wire>)
    requires forall w | w in ws :: Fits(w)
    ensures Stays(before + Joined(ws), |before|) && Found(before + Joined(ws), |before|) == ws
    decreases |ws|
  {
    hide Encoded, WireAt, MsgOk, MsgStep, Stays, Found, Fits;
    var b := before + Joined(ws);
    JoinedStays(before, ws);
    if ws == [] {
      assert b == before;
      FoundNone(b);
    } else {
      var e, rest := Encoded(ws[0]), Joined(ws[1..]);
      Assoc(before, e, rest);
      EncodedThere(before, ws[0], rest);
      FoundFirst(b, |before|);
      FoundJoined(before + e, ws[1..]);
      assert ws == [ws[0]] + ws[1..];
    }
  }

  lemma FoundNone(b: seq<byte>)
    requires Stays(b, |b|)
    ensures Found(b, |b|) == []
  {
    hide MsgOk;
    NothingAtEnd(b);
  }

  lemma NothingAtEnd(b: seq<byte>)
    ensures !MsgOk(b, |b|)
  {
  }

  /** Walking a datagram of encoded messages finds exactly these messages, in order. */
  lemma WireRoundTrip(ws: seq<Wire>)
    requires forall w | w in ws :: Fits(w)
    ensures Stays(Joined(ws), 0) && Found(Joined(ws), 0) == ws
  {
    FoundJoined([], ws);
    assert [] + Joined(ws) == Joined(ws);
  }

  /** The loop over a datagram that it does not leave. */
  method Walk(b: seq<byte>) returns (ws: seq<Wire>)
    requires Stays(b, 0)
    ensures ws == Found(b, 0)
  {
    hide WireAt, MsgOk, MsgStep;
    ws := [];
    var pos, remaining := 0, |b|;
    while MsgOk(b, pos)
      invariant pos + remaining == |b| && remaining >= 0 && Stays(b, pos)
      invariant ws + Found(b, pos) == Found(b, 0)
      decreases remaining
    {
      var total := MsgStep(b, pos);
      ghost var before := ws;
      ws := ws + [WireAt(b, pos)];
      assert Found(b, pos) == [WireAt(b, pos)] + Found(b, pos + total);
      assert before + ([WireAt(b, pos)] + Found(b, pos + total)) == ws + Found(b, pos + total);
      remaining := remaining - total;
      pos := pos + total;
    }
  }

  // ----- as the receive loop sees them -----

  predicate Flag(flags: nat, f: nat)
    requires f > 0
  {
    flags / f % 2 == 1
  }

  /** The 32-bit number as a signed one. */
  function Signed(n: nat): int {
    if n < 0x8000_0000 then n else n - 0x1_0000_0000
  }

  function KindOf(w: Wire): R.MsgKind {
    if w.kind == NLMSG_NOOP then R.Noop
    else if w.kind == NLMSG_ERROR then R.Error(if |w.payload| >= 4 then Signed(U32(w.payload, 0)) else 0, NLMSG_HDRLEN + |w.payload| < ERROR_LEN)
    else if w.kind == NLMSG_DONE then R.Done
    else if w.kind == NLMSG_OVERRUN then R.Overrun
    else R.Data
  }

  function Seen(ws: seq<Wire>): (d: R.Datagram)
    ensures |d| == |ws|
  {
    seq(|ws|, i requires 0 <= i < |ws| => R.Msg(KindOf(ws[i]), ws[i].seq_, Flag(ws[i].flags, NLM_F_MULTI), Flag(ws[i].flags, NLM_F_ACK)))
  }

  /** From the bytes of a reply to the callbacks: encoded messages that answer the expected
      request are all found, read to the end of the reply, and its data comes to VALID, message
      by message. */
  lemma ReplyBytes(s: R.Sock, cb: R.Callbacks, ws: seq<Wire>, multipart: bool)
    requires (forall w | w in ws :: Fits(w)) && R.Quiet(cb) && R.AnswerTo(Seen(ws), s.seqExpect)
    ensures Stays(Joined(ws), 0)
    ensures var h := R.HandleAll(s, cb, Seen(Found(Joined(ws), 0)), multipart);
            && h.flow != R.Mismatch
            && h.sk.seqExpect == (if R.Ends(Seen(ws)) then R.Plus(s.seqExpect, 1) else s.seqExpect)
            && h.sk.delivered == s.delivered + R.DataOf(Seen(ws))
  {
    hide R.HandleAll, R.AnswerTo, R.Quiet, Seen, Found, Joined, Stays;
    WireRoundTrip(ws);
    R.HandleAnswer(s, cb, Seen(ws), multipart);
  }
}
