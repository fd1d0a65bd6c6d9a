/**
 Requests and replies on a netlink socket (libnl/nl.c): sequence numbers given out by
 nl_send_auto_complete, and the receive loop of recvmsgs with its callbacks and multipart
 series (sections 2.3.2 and 2.3.2.2 of RFC 3549).

 A datagram is the sequence of messages that iteration finds in it. A callback is an
 arbitrary function of the message and of the number of messages seen so far, so that its
 answers may change over time. The table from errno values to library errors is arbitrary.
 */
module NetlinkRecv {
  import opened Common

  const SEQ_SPACE := 0x1_0000_0000   // sequence numbers are 32 bits wide
  const NLE_SEQ_MISMATCH := 16
  const NLE_MSG_OVERFLOW := 17
  const NLE_MSG_TRUNC := 18

  datatype MsgKind = Noop | Error(code: int, truncated: bool) | Done | Overrun | Data

  datatype Msg = Msg(kind: MsgKind, seq_: nat, multi: bool, ack: bool)

  type Datagram = seq<Msg>

  datatype CbType = OnValid | OnFinish | OnOverrun | OnSkipped | OnAck | OnMsgIn | OnInvalid | OnSeqCheck | OnSendAck

  /** NL_OK, NL_SKIP, NL_STOP, or any other number. */
  datatype Action = Proceed | Skip | Stop | Other(code: int)

  datatype Callbacks = Callbacks(
    isSet: CbType -> bool,
    answer: (CbType, Msg, nat) -> Action,
    onError: Option<(Msg, nat) -> Action>,
    sysError: int -> int)

  /** A message that came to VALID, whose callback is then called if it is set, with the
      sequence number expected then. */
  datatype Delivery = Delivery(msg: Msg, expected: nat)

  datatype Sock = Sock(
    seqNext: nat,
    seqExpect: nat,
    inbox: seq<Datagram>,
    seen: nat,
    delivered: seq<Delivery>)

  /** Where the loop goes after a message. */
  datatype Flow = Next | StopAll | Fail(err: int) | Mismatch

  function FlowOf(a: Action): Flow {
    match a
    case Proceed => Next
    case Skip => Next
    case Stop => StopAll
    case Other(code) => Fail(code)
  }

  function ErrOf(f: Flow): int {
    match f
    case Fail(err) => err
    case Mismatch => -NLE_SEQ_MISMATCH
    case _ => 0
  }

  predicate EndsRequest(k: MsgKind) {
    !k.Data?
  }

  // ----- one message -----

  datatype Handled = Handled(sk: Sock, multipart: bool, flow: Flow)

  /** The steps before the sequence number is accepted: None when the message is accepted. */
  function Refused(sk: Sock, cb: Callbacks, m: Msg): Option<Flow> {
    var first := if cb.isSet(OnMsgIn) then cb.answer(OnMsgIn, m, sk.seen) else Proceed;
    if first != Proceed then Some(FlowOf(first))
    else if cb.isSet(OnSeqCheck) then
      var check := cb.answer(OnSeqCheck, m, sk.seen);
      if check != Proceed then Some(FlowOf(check)) else None
    else if m.seq_ != sk.seqExpect then
      if !cb.isSet(OnInvalid) then Some(Mismatch)
      else
        var invalid := cb.answer(OnInvalid, m, sk.seen);
        if invalid != Proceed then Some(FlowOf(invalid)) else None
    else None
  }

  /** What is done with an accepted message, by its type. */
  function Dispatch(cb: Callbacks, m: Msg, at: nat): Flow {
    match m.kind
    case Done => if cb.isSet(OnFinish) then FlowOf(cb.answer(OnFinish, m, at)) else Next
    case Noop => if cb.isSet(OnSkipped) then FlowOf(cb.answer(OnSkipped, m, at)) else Next
    case Overrun => if cb.isSet(OnOverrun) then FlowOf(cb.answer(OnOverrun, m, at)) else Fail(-NLE_MSG_OVERFLOW)
    case Error(code, truncated) =>
      if truncated then
        if cb.isSet(OnInvalid) then FlowOf(cb.answer(OnInvalid, m, at)) else Fail(-NLE_MSG_TRUNC)
      else if code != 0 then
        match cb.onError
        case None => Fail(-cb.sysError(code))
        case Some(f) =>
          (match f(m, at)
           case Proceed => Next
           case Skip => Next
           case Stop => Fail(-cb.sysError(code))
           case Other(e) => if e < 0 then Fail(e) else Next)
      else if cb.isSet(OnAck) then FlowOf(cb.answer(OnAck, m, at))
      else Next
    case Data => if cb.isSet(OnValid) then FlowOf(cb.answer(OnValid, m, at)) else Next
  }

  function Handle(s: Sock, cb: Callbacks, m: Msg, multipart: bool): Handled {
    var seen := s.(seen := s.seen + 1);
    match Refused(s, cb, m)
    case Some(flow) => Handled(seen, multipart, flow)
    case None =>
      var sk := if EndsRequest(m.kind) then seen.(seqExpect := Plus(s.seqExpect, 1)) else seen;
      var multi := multipart || m.multi;
      var ack := if m.ack && cb.isSet(OnSendAck) then cb.answer(OnSendAck, m, s.seen) else Proceed;
      if ack != Proceed then Handled(sk, multi, FlowOf(ack))
      else
        var told := if m.kind.Data? then sk.(delivered := sk.delivered + [Delivery(m, s.seqExpect)]) else sk;
        Handled(told, multi && !m.kind.Done?, Dispatch(cb, m, s.seen))
  }

  /** The messages of one datagram, until one of them ends the loop. */
  function HandleAll(s: Sock, cb: Callbacks, d: Datagram, multipart: bool): (r: Handled)
    ensures r.sk.inbox == s.inbox
    decreases |d|
  {
    if d == [] then Handled(s, multipart, Next) else
      var h := Handle(s, cb, d[0], multipart);
      if h.flow != Next then h else HandleAll(h.sk, cb, d[1..], h.multipart)
  }

  datatype Received = Received(sk: Sock, flow: Flow)

  /** recvmsgs: datagram after datagram while a multipart series is open. An empty inbox
      ends the call. */
  function Receive(s: Sock, cb: Callbacks, multipart: bool): (r: Received)
    decreases |s.inbox|
  {
    if s.inbox == [] then Received(s, Next) else
      var h := HandleAll(s.(inbox := s.inbox[1..]), cb, s.inbox[0], multipart);
      if h.flow != Next || !h.multipart then Received(h.sk, h.flow) else Receive(h.sk, cb, true)
  }

  /** nl_send_auto_complete on a message without a sequence number. */
  function Send(s: Sock): Sock {
    s.(seqNext := Plus(s.seqNext, 1))
  }

  // ----- the other side -----

  /** All messages answer request q; only the last may end the reply, and then with DONE or
      ERROR. */
  ghost predicate AnswerTo(d: Datagram, q: nat) {
    && d != []
    && (forall i :: 0 <= i < |d| ==> d[i].seq_ == q)
    && (forall i :: 0 <= i < |d| - 1 ==> d[i].kind.Data?)
    && var last := d[|d| - 1].kind; last.Data? || last.Done? || last.Error?
  }

  predicate Ends(d: Datagram) {
    d != [] && EndsRequest(d[|d| - 1].kind)
  }

  function EndCount(ds: seq<Datagram>): (n: nat)
    ensures n <= |ds|
  {
    if ds == [] then 0 else (if Ends(ds[0]) then 1 else 0) + EndCount(ds[1..])
  }

  /** Socket and kernel: requests the kernel has yet to finish answering, requests whose
      reply the socket has yet to finish reading, and every datagram ever sent back. */
  datatype World = World(sk: Sock, kernel: seq<nat>, pending: seq<nat>, sent: seq<Datagram>)

  datatype Step = SendStep | ReplyStep(d: Datagram) | ReceiveStep(cb: Callbacks)

  function Take(w: World, step: Step): World {
    match step
    case SendStep =>
      w.(sk := Send(w.sk), kernel := w.kernel + [w.sk.seqNext], pending := w.pending + [w.sk.seqNext])
    case ReplyStep(d) =>
      w.(sk := w.sk.(inbox := w.sk.inbox + [d]), sent := w.sent + [d],
         kernel := if Ends(d) && w.kernel != [] then w.kernel[1..] else w.kernel)
    case ReceiveStep(cb) =>
      var r := Receive(w.sk, cb, false);
      var read := EndCount(w.sk.inbox) - EndCount(r.sk.inbox);
      w.(sk := r.sk, pending := if 0 <= read <= |w.pending| then w.pending[read..] else w.pending)
  }

  /** The callback is not set, or answers NL_OK. */
  predicate Passes(cb: Callbacks, c: CbType, m: Msg, n: nat) {
    cb.isSet(c) ==> cb.answer(c, m, n) == Proceed
  }

  /** MSG_IN, SEQ_CHECK and SEND_ACK callbacks, if there are any, let messages be handled, and
      a VALID callback, if there is one, lets the loop go on. */
  ghost predicate Quiet(cb: Callbacks) {
    && (forall m, n :: Passes(cb, OnMsgIn, m, n))
    && (forall m, n :: Passes(cb, OnSeqCheck, m, n))
    && (forall m: Msg, n: nat :: m.ack ==> Passes(cb, OnSendAck, m, n))
    && (cb.isSet(OnValid) ==> forall m, n :: cb.answer(OnValid, m, n) == Proceed || cb.answer(OnValid, m, n) == Skip)
  }

  lemma QuietPasses(cb: Callbacks, m: Msg, n: nat)
    requires Quiet(cb)
    ensures Passes(cb, OnMsgIn, m, n) && Passes(cb, OnSeqCheck, m, n) && (m.ack ==> Passes(cb, OnSendAck, m, n))
    ensures cb.isSet(OnValid) ==> FlowOf(cb.answer(OnValid, m, n)) == Next
  {
  }

  /** The kernel answers requests in order. */
  ghost predicate Allowed(w: World, step: Step) {
    match step
    case SendStep => true
    case ReplyStep(d) => w.kernel != [] && AnswerTo(d, w.kernel[0])
    case ReceiveStep(cb) => Quiet(cb)
  }

  // ----- what every run keeps -----

  /** The n-th sequence number from q on. */
  function Plus(q: nat, n: nat): (r: nat)
    ensures r < SEQ_SPACE
  {
    (q + n) % SEQ_SPACE
  }

  lemma PlusPlus(q: nat, m: nat, n: nat)
    ensures Plus(Plus(q, m), n) == Plus(q, m + n)
    ensures q < SEQ_SPACE ==> Plus(q, 0) == q
  {
    var k := (q + m) / SEQ_SPACE;
    assert q + m == SEQ_SPACE * k + Plus(q, m);
    ModMultiple(Plus(q, m) + n, k);
  }

  lemma {:induction false} ModMultiple(a: nat, k: nat)
    ensures (SEQ_SPACE * k + a) % SEQ_SPACE == a % SEQ_SPACE
    decreases k
  {
    if k > 0 {
      ModMultiple(a, k - 1);
      assert SEQ_SPACE * k + a == SEQ_SPACE * (k - 1) + a + SEQ_SPACE;
    }
  }

  /** The numbers from first on, one after the other. */
  ghost predicate Consecutive(qs: seq<nat>, first: nat) {
    forall i :: 0 <= i < |qs| ==> qs[i] == Plus(first, i)
  }

  /** Datagrams in the inbox answer the pending requests in order. */
  ghost predicate Orderly(inbox: seq<Datagram>, pending: seq<nat>) {
    inbox == [] ||
    (pending != [] && AnswerTo(inbox[0], pending[0]) &&
     Orderly(inbox[1..], if Ends(inbox[0]) then pending[1..] else pending))
  }

  function DataOf(d: Datagram): (r: seq<Delivery>) {
    if d == [] then []
    else (if d[0].kind.Data? then [Delivery(d[0], d[0].seq_)] else []) + DataOf(d[1..])
  }

  function DataOfAll(ds: seq<Datagram>): seq<Delivery> {
    if ds == [] then [] else DataOfAll(ds[..|ds| - 1]) + DataOf(ds[|ds| - 1])
  }

  ghost predicate Inv(w: World) {
    && w.sk.seqExpect < SEQ_SPACE
    && Consecutive(w.pending, w.sk.seqExpect)
    && w.sk.seqNext == Plus(w.sk.seqExpect, |w.pending|)
    && Orderly(w.sk.inbox, w.pending)
    && EndCount(w.sk.inbox) <= |w.pending| && w.kernel == w.pending[EndCount(w.sk.inbox)..]
    && |w.sk.inbox| <= |w.sent| && w.sk.inbox == w.sent[|w.sent| - |w.sk.inbox|..]
    && w.sk.delivered == DataOfAll(w.sent[..|w.sent| - |w.sk.inbox|])
  }

  // ----- one datagram -----

  lemma HandleData(s: Sock, cb: Callbacks, m: Msg, multipart: bool)
    requires Quiet(cb) && m.kind.Data? && m.seq_ == s.seqExpect
    ensures var h := Handle(s, cb, m, multipart);
            h.flow == Next && h.sk == s.(seen := s.seen + 1, delivered := s.delivered + [Delivery(m, m.seq_)])
  {
    hide Quiet;
    QuietPasses(cb, m, s.seen);
  }

  lemma HandleEnd(s: Sock, cb: Callbacks, m: Msg, multipart: bool)
    requires Quiet(cb) && (m.kind.Done? || m.kind.Error?) && m.seq_ == s.seqExpect
    ensures var h := Handle(s, cb, m, multipart);
            h.flow != Mismatch && h.sk == s.(seen := s.seen + 1, seqExpect := Plus(s.seqExpect, 1))
  {
    hide Quiet;
    QuietPasses(cb, m, s.seen);
  }

  /** A datagram that answers the expected request is read to its end, hands each data
      message to VALID with its own number expected, and moves on exactly at the end of the
      reply. */
  lemma {:induction false} HandleAnswer(s: Sock, cb: Callbacks, d: Datagram, multipart: bool)
    requires Quiet(cb) && AnswerTo(d, s.seqExpect)
    ensures var h := HandleAll(s, cb, d, multipart);
            && h.flow != Mismatch
            && h.sk.seqNext == s.seqNext && h.sk.inbox == s.inbox
            && h.sk.seqExpect == (if Ends(d) then Plus(s.seqExpect, 1) else s.seqExpect)
            && h.sk.delivered == s.delivered + DataOf(d)
    decreases |d|
  {
    hide Handle, Quiet, HandleAll, AnswerTo, DataOf, Ends;
    AnswerCons(d, s.seqExpect);
    var m, rest := d[0], d[1..];
    HandleAllCons(s, cb, d, multipart);
    DataOfCons(d);
    if m.kind.Data? {
      HandleData(s, cb, m, multipart);
      var h := Handle(s, cb, m, multipart);
      if rest == [] {
        HandleAllNone(h.sk, cb, h.multipart);
      } else {
        HandleAnswer(h.sk, cb, rest, h.multipart);
      }
    } else {
      HandleEnd(s, cb, m, multipart);
      HandleAllNone(Handle(s, cb, m, multipart).sk, cb, Handle(s, cb, m, multipart).multipart);
    }
  }

  lemma HandleAllCons(s: Sock, cb: Callbacks, d: Datagram, multipart: bool)
    requires d != []
    ensures var h := Handle(s, cb, d[0], multipart);
            HandleAll(s, cb, d, multipart) == if h.flow != Next then h else HandleAll(h.sk, cb, d[1..], h.multipart)
  {
  }

  lemma HandleAllNone(s: Sock, cb: Callbacks, multipart: bool)
    ensures HandleAll(s, cb, [], multipart) == Handled(s, multipart, Next)
  {
  }

  /** What the head of an answer tells about its tail. */
  lemma AnswerCons(d: Datagram, q: nat)
    requires AnswerTo(d, q)
    ensures d != [] && d[0].seq_ == q
    ensures d[0].kind.Data? ==> if d[1..] == [] then !Ends(d) else AnswerTo(d[1..], q) && (Ends(d[1..]) <==> Ends(d))
    ensures !d[0].kind.Data? ==> d[1..] == [] && Ends(d) && (d[0].kind.Done? || d[0].kind.Error?)
  {
    assert forall i :: 0 <= i < |d| - 1 ==> d[1..][i] == d[i + 1];
  }

  lemma DataOfCons(d: Datagram)
    requires d != []
    ensures DataOf(d) == (if d[0].kind.Data? then [Delivery(d[0], d[0].seq_)] else []) + DataOf(d[1..])
    ensures DataOf([]) == []
  {
  }

  // ----- one call -----

  lemma DataOfAllLast(a: seq<Datagram>, b: seq<Datagram>)
    requires b != []
    ensures var n := |b| - 1;
            DataOfAll(a + b) == DataOfAll(a + b[..n]) + DataOf(b[n]) && DataOfAll(b) == DataOfAll(b[..n]) + DataOf(b[n])
  {
    hide DataOf;
    var all := a + b;
    assert all[..|all| - 1] == a + b[..|b| - 1] && all[|all| - 1] == b[|b| - 1];
  }

  lemma {:induction false} DataOfAllConcat(a: seq<Datagram>, b: seq<Datagram>)
    ensures DataOfAll(a + b) == DataOfAll(a) + DataOfAll(b)
    decreases |b|
  {
    hide DataOf;
    if b == [] {
      assert a + b == a;
    } else {
      var n := |b| - 1;
      DataOfAllConcat(a, b[..n]);
      DataOfAllLast(a, b);
    }
  }

  /** What a receive call leaves of an orderly inbox. */
  ghost predicate ReadsOn(s: Sock, pending: seq<nat>, r: Received) {
    var k := |s.inbox| - |r.sk.inbox|;
    var n := EndCount(s.inbox) - EndCount(r.sk.inbox);
    && r.flow != Mismatch
    && 0 <= k && r.sk.inbox == s.inbox[k..]
    && 0 <= n <= |pending| && Orderly(r.sk.inbox, pending[n..])
    && r.sk.seqNext == s.seqNext && r.sk.seqExpect == Plus(s.seqExpect, n)
    && r.sk.delivered == s.delivered + DataOfAll(s.inbox[..k])
  }

  /** A receive call reads whole datagrams, ends as many requests as they do, never sees a
      wrong number, and delivers their data in order. */
  lemma {:induction false} ReceiveReadsOn(s: Sock, cb: Callbacks, multipart: bool, pending: seq<nat>)
    requires Quiet(cb) && s.seqExpect < SEQ_SPACE
    requires Orderly(s.inbox, pending) && Consecutive(pending, s.seqExpect)
    ensures ReadsOn(s, pending, Receive(s, cb, multipart))
    decreases |s.inbox|
  {
    hide HandleAll, Quiet, DataOf, Plus, ReadsOn, Receive, Orderly, AnswerTo;
    ReceiveUnfolds(s, cb, multipart);
    if s.inbox == [] {
      ReadsNothing(s, pending);
    } else {
      OrderlyFirst(s.inbox, pending);
      FirstIs(pending, s.seqExpect);
      var d, rest := s.inbox[0], s.inbox[1..];
      var s1 := s.(inbox := rest);
      HandleAnswer(s1, cb, d, multipart);
      var h := HandleAll(s1, cb, d, multipart);
      var left := if Ends(d) then pending[1..] else pending;
      OneDatagram(s, pending, Received(h.sk, h.flow));
      if h.flow == Next && h.multipart {
        ConsecutiveDrop(pending, s.seqExpect, 1);
        ReceiveReadsOn(h.sk, cb, true, left);
        ReadsOnTrans(s, pending, h.sk, left, Receive(h.sk, cb, true));
      }
    }
  }

  lemma ReceiveUnfolds(s: Sock, cb: Callbacks, multipart: bool)
    ensures s.inbox == [] ==> Receive(s, cb, multipart) == Received(s, Next)
    ensures s.inbox != [] ==>
              var h := HandleAll(s.(inbox := s.inbox[1..]), cb, s.inbox[0], multipart);
              h.sk.inbox == s.inbox[1..] &&
              Receive(s, cb, multipart) == if h.flow != Next || !h.multipart then Received(h.sk, h.flow) else Receive(h.sk, cb, true)
  {
    hide HandleAll;
  }

  lemma OrderlyFirst(inbox: seq<Datagram>, pending: seq<nat>)
    requires Orderly(inbox, pending) && inbox != []
    ensures pending != [] && AnswerTo(inbox[0], pending[0])
    ensures Orderly(inbox[1..], if Ends(inbox[0]) then pending[1..] else pending)
  {
    hide AnswerTo;
  }

  lemma FirstIs(qs: seq<nat>, first: nat)
    requires qs != [] && Consecutive(qs, first) && first < SEQ_SPACE
    ensures qs[0] == first
  {
    hide Plus;
    PlusPlus(first, 0, 0);
  }

  lemma ReadsNothing(s: Sock, pending: seq<nat>)
    requires Orderly(s.inbox, pending) && s.inbox == [] && s.seqExpect < SEQ_SPACE
    ensures ReadsOn(s, pending, Received(s, Next))
  {
    hide Plus, Orderly, DataOf;
    PlusPlus(s.seqExpect, 0, 0);
    assert pending[0..] == pending && s.inbox[0..] == s.inbox;
    assert s.delivered + DataOfAll(s.inbox[..0]) == s.delivered;
  }

  lemma DataOfOne(d: Datagram)
    ensures DataOfAll([d]) == DataOf(d)
  {
    assert [d][..0] == [];
  }

  lemma OneDatagram(s: Sock, pending: seq<nat>, r: Received)
    requires s.inbox != [] && pending != [] && s.seqExpect < SEQ_SPACE
    requires Orderly(s.inbox, pending)
    requires var d := s.inbox[0];
             && r.flow != Mismatch && r.sk.inbox == s.inbox[1..] && r.sk.seqNext == s.seqNext
             && r.sk.seqExpect == (if Ends(d) then Plus(s.seqExpect, 1) else s.seqExpect)
             && r.sk.delivered == s.delivered + DataOf(d)
    ensures ReadsOn(s, pending, r)
  {
    hide DataOf, DataOfAll, Plus, Orderly, EndCount, Ends, AnswerTo;
    var d := s.inbox[0];
    assert s.inbox[..1] == [d];
    DataOfOne(d);
    OrderlyFirst(s.inbox, pending);
    EndCountFirst(s.inbox);
    PlusPlus(s.seqExpect, 0, 0);
    assert pending[0..] == pending;
  }

  lemma InboxSplit(inbox: seq<Datagram>, k: nat)
    requires k < |inbox|
    ensures inbox[k + 1..] == inbox[1..][k..] && inbox[..k + 1] == [inbox[0]] + inbox[1..][..k]
  {
  }

  lemma Onto(a: seq<Delivery>, b: seq<Delivery>, c: seq<Delivery>)
    ensures a + b + c == a + (b + c)
  {
  }

  lemma EndCountFirst(ds: seq<Datagram>)
    requires ds != []
    ensures EndCount(ds) == (if Ends(ds[0]) then 1 else 0) + EndCount(ds[1..])
  {
    hide Ends;
  }

  lemma ReadsOnTrans(s: Sock, pending: seq<nat>, mid: Sock, left: seq<nat>, r: Received)
    requires s.inbox != [] && pending != [] && s.seqExpect < SEQ_SPACE
    requires left == if Ends(s.inbox[0]) then pending[1..] else pending
    requires mid.inbox == s.inbox[1..] && mid.seqNext == s.seqNext
    requires mid.seqExpect == if Ends(s.inbox[0]) then Plus(s.seqExpect, 1) else s.seqExpect
    requires mid.delivered == s.delivered + DataOf(s.inbox[0])
    requires ReadsOn(mid, left, r)
    ensures ReadsOn(s, pending, r)
  {
    hide DataOf, DataOfAll, Orderly, Plus, EndCount, Ends;
    var d := s.inbox[0];
    var k := |mid.inbox| - |r.sk.inbox|;
    var n := EndCount(mid.inbox) - EndCount(r.sk.inbox);
    var e := if Ends(d) then 1 else 0;
    InboxSplit(s.inbox, k);
    DataOfAllConcat([d], mid.inbox[..k]);
    DataOfOne(d);
    Onto(s.delivered, DataOf(d), DataOfAll(mid.inbox[..k]));
    DropTwice(pending, e, n);
    EndCountFirst(s.inbox);
    PlusPlus(s.seqExpect, e, n);
    PlusPlus(s.seqExpect, 0, n);
  }

  // ----- whole runs -----

  lemma {:induction false} OrderlyMore(inbox: seq<Datagram>, pending: seq<nat>, more: seq<nat>)
    requires Orderly(inbox, pending)
    ensures Orderly(inbox, pending + more)
    decreases |inbox|
  {
    if inbox != [] {
      var left := if Ends(inbox[0]) then pending[1..] else pending;
      OrderlyMore(inbox[1..], left, more);
      assert left + more == if Ends(inbox[0]) then (pending + more)[1..] else pending + more;
    }
  }

  lemma {:induction false} OrderlySnoc(inbox: seq<Datagram>, pending: seq<nat>, d: Datagram)
    requires Orderly(inbox, pending) && EndCount(inbox) < |pending|
    requires AnswerTo(d, pending[EndCount(inbox)])
    ensures Orderly(inbox + [d], pending)
    ensures EndCount(inbox + [d]) == EndCount(inbox) + if Ends(d) then 1 else 0
    decreases |inbox|
  {
    if inbox == [] {
      assert inbox + [d] == [d] && [d][1..] == [];
      assert EndCount([]) == 0;
    } else {
      var left := if Ends(inbox[0]) then pending[1..] else pending;
      OrderlySnoc(inbox[1..], left, d);
      assert (inbox + [d])[1..] == inbox[1..] + [d];
    }
  }

  lemma SendKeepsInv(w: World)
    requires Inv(w)
    ensures Inv(Take(w, SendStep))
  {
    hide Plus, Orderly, DataOfAll, EndCount, Receive;
    var q := w.sk.seqNext;
    OrderlyMore(w.sk.inbox, w.pending, [q]);
    assert (w.pending + [q])[EndCount(w.sk.inbox)..] == w.kernel + [q];
    PlusPlus(w.sk.seqExpect, |w.pending|, 1);
  }

  lemma ReplyKeepsInv(w: World, d: Datagram)
    requires Inv(w) && w.kernel != [] && AnswerTo(d, w.kernel[0])
    ensures Inv(Take(w, ReplyStep(d)))
  {
    hide Plus, Orderly, DataOfAll, EndCount, Receive, AnswerTo;
    var n := EndCount(w.sk.inbox);
    OrderlySnoc(w.sk.inbox, w.pending, d);
    assert w.pending[n..][1..] == w.pending[n + 1..];
    var sent := w.sent + [d];
    var k := |w.sent| - |w.sk.inbox|;
    assert sent[k..] == w.sk.inbox + [d] && sent[..k] == w.sent[..k];
  }

  lemma ReceiveKeepsInv(w: World, cb: Callbacks)
    requires Inv(w) && Quiet(cb)
    ensures Inv(Take(w, ReceiveStep(cb)))
    ensures Receive(w.sk, cb, false).flow != Mismatch
  {
    hide Quiet, Receive, Orderly, DataOfAll, EndCount, ReadsOn;
    ReceiveReadsOn(w.sk, cb, false, w.pending);
    ReadKeepsInv(w, Receive(w.sk, cb, false));
  }

  lemma ReadKeepsInv(w: World, r: Received)
    requires Inv(w) && ReadsOn(w.sk, w.pending, r)
    ensures var n := EndCount(w.sk.inbox) - EndCount(r.sk.inbox);
            0 <= n <= |w.pending| && Inv(w.(sk := r.sk, pending := w.pending[n..]))
    ensures r.flow != Mismatch
  {
    hide Orderly, DataOfAll, EndCount, Plus, Consecutive;
    var k := |w.sk.inbox| - |r.sk.inbox|;
    var n := EndCount(w.sk.inbox) - EndCount(r.sk.inbox);
    ConsecutiveDrop(w.pending, w.sk.seqExpect, n);
    DropTwice(w.pending, n, EndCount(r.sk.inbox));
    var j := |w.sent| - |w.sk.inbox|;
    SentSplit(w.sent, w.sk.inbox, k);
    DataOfAllConcat(w.sent[..j], w.sk.inbox[..k]);
  }

  lemma DropTwice(qs: seq<nat>, m: nat, n: nat)
    requires m + n <= |qs|
    ensures qs[m..][n..] == qs[m + n..]
  {
  }

  lemma SentSplit(sent: seq<Datagram>, inbox: seq<Datagram>, k: nat)
    requires k <= |inbox| <= |sent| && inbox == sent[|sent| - |inbox|..]
    ensures var j := |sent| - |inbox|;
            sent[j + k..] == inbox[k..] && sent[..j + k] == sent[..j] + inbox[..k]
  {
  }

  lemma ConsecutiveDrop(qs: seq<nat>, first: nat, n: nat)
    requires n <= |qs| && Consecutive(qs, first)
    ensures Consecutive(qs[n..], Plus(first, n))
    ensures Plus(Plus(first, n), |qs[n..]|) == Plus(first, |qs|)
  {
    hide Plus;
    forall i | 0 <= i < |qs| - n ensures qs[n..][i] == Plus(Plus(first, n), i) {
      assert qs[n..][i] == qs[n + i];
      PlusPlus(first, n, i);
    }
    PlusPlus(first, n, |qs| - n);
  }

  function Run(w: World, steps: seq<Step>): World
    decreases |steps|
  {
    if steps == [] then w else Run(Take(w, steps[0]), steps[1..])
  }

  ghost predicate AllAllowed(w: World, steps: seq<Step>)
    decreases |steps|
  {
    steps != [] ==> Allowed(w, steps[0]) && AllAllowed(Take(w, steps[0]), steps[1..])
  }

  /** A new socket: both counters at the same arbitrary number. */
  function Fresh(start: nat): World {
    World(Sock(start % SEQ_SPACE, start % SEQ_SPACE, [], 0, []), [], [], [])
  }

  lemma EmptyInv(x: nat)
    requires x < SEQ_SPACE
    ensures Inv(World(Sock(x, x, [], 0, []), [], [], []))
  {
  }

  lemma FreshInv(start: nat)
    ensures Inv(Fresh(start))
  {
    hide Inv;
    EmptyInv(start % SEQ_SPACE);
  }

  lemma {:induction false} RunKeepsInv(w: World, steps: seq<Step>)
    requires Inv(w) && AllAllowed(w, steps)
    ensures Inv(Run(w, steps))
    decreases |steps|
  {
    hide Inv;
    if steps != [] {
      match steps[0]
      case SendStep => SendKeepsInv(w);
      case ReplyStep(d) => ReplyKeepsInv(w, d);
      case ReceiveStep(cb) => ReceiveKeepsInv(w, cb);
    }
    if steps != [] {
      RunKeepsInv(Take(w, steps[0]), steps[1..]);
    }
  }

  /**
   In every run of sends, replies and receive calls from a new socket: the pending requests
   are the numbers from seqExpect up to seqNext; a further receive call never reports a
   sequence mismatch; and what came to VALID are exactly the data messages of the datagrams
   read so far, in order, each while its own request was the expected one.
   */
  lemma EveryRun(start: nat, steps: seq<Step>, cb: Callbacks)
    requires AllAllowed(Fresh(start), steps) && Quiet(cb)
    ensures var w := Run(Fresh(start), steps);
            && Consecutive(w.pending, w.sk.seqExpect)
            && w.sk.seqNext == Plus(w.sk.seqExpect, |w.pending|)
            && (w.pending != [] ==> w.pending[0] == w.sk.seqExpect)
            && Receive(w.sk, cb, false).flow != Mismatch
            && |w.sk.inbox| <= |w.sent|
            && w.sk.delivered == DataOfAll(w.sent[..|w.sent| - |w.sk.inbox|])
  {
    hide Run, AllAllowed, Orderly, DataOfAll, EndCount, Receive, Quiet, Plus;
    PlusPlus(Run(Fresh(start), steps).sk.seqExpect, 0, 0);
    FreshInv(start);
    RunKeepsInv(Fresh(start), steps);
    ReceiveKeepsInv(Run(Fresh(start), steps), cb);
  }

  // ----- waiting for an ack -----

  ghost predicate AnyMulti(d: Datagram) {
    exists i :: 0 <= i < |d| && d[i].multi
  }

  /** The callback set of nl_wait_for_ack. */
  ghost predicate StopsAtAck(cb: Callbacks) {
    Quiet(cb) && cb.isSet(OnAck) && forall m, n :: cb.answer(OnAck, m, n) == Stop
  }

  ghost predicate EndsInAck(d: Datagram) {
    d != [] && d[|d| - 1].kind == Error(0, false)
  }

  lemma {:induction false} HandleUntilAck(s: Sock, cb: Callbacks, d: Datagram, multipart: bool)
    requires StopsAtAck(cb) && AnswerTo(d, s.seqExpect)
    ensures !Ends(d) ==> HandleAll(s, cb, d, multipart).flow == Next &&
                         (HandleAll(s, cb, d, multipart).multipart <==> multipart || AnyMulti(d))
    ensures EndsInAck(d) ==> HandleAll(s, cb, d, multipart).flow == StopAll
    decreases |d|
  {
    hide HandleAll, AnswerTo;
    AnswerCons(d, s.seqExpect);
    HandleAllCons(s, cb, d, multipart);
    var m, rest := d[0], d[1..];
    if m.kind.Data? {
      HandleData(s, cb, m, multipart);
      var h := Handle(s, cb, m, multipart);
      assert h.multipart == (multipart || m.multi);
      assert AnyMulti(d) <==> m.multi || AnyMulti(rest) by {
        assert forall i :: 0 <= i < |rest| ==> rest[i] == d[i + 1];
      }
      if rest == [] {
        HandleAllNone(h.sk, cb, h.multipart);
      } else {
        HandleUntilAck(h.sk, cb, rest, h.multipart);
      }
    } else if EndsInAck(d) {
      assert m == d[|d| - 1];
      assert cb.answer(OnAck, m, s.seen) == Stop;
      QuietPasses(cb, m, s.seen);
    }
  }

  lemma {:induction false} ReceiveUntilAck(s: Sock, cb: Callbacks, ds: seq<Datagram>, a: Datagram, rest: seq<Datagram>)
    requires StopsAtAck(cb) && s.inbox == ds + [a] + rest
    requires forall d | d in ds :: AnswerTo(d, s.seqExpect) && !Ends(d)
    requires AnswerTo(a, s.seqExpect) && EndsInAck(a)
    ensures var r := Receive(s, cb, true); r.flow == StopAll && r.sk.inbox == rest
    decreases |ds|
  {
    hide HandleAll, AnswerTo, Ends, EndsInAck, StopsAtAck, Quiet, AnyMulti;
    var d := s.inbox[0];
    var s1 := s.(inbox := s.inbox[1..]);
    StopsAtAckQuiet(cb);
    if ds == [] {
      assert d == a && s.inbox[1..] == rest;
      HandleUntilAck(s1, cb, a, true);
    } else {
      assert d == ds[0] && d in ds && s.inbox[1..] == ds[1..] + [a] + rest;
      HandleUntilAck(s1, cb, d, true);
      HandleAnswer(s1, cb, d, true);
      ReceiveUntilAck(HandleAll(s1, cb, d, true).sk, cb, ds[1..], a, rest);
    }
  }

  lemma StopsAtAckQuiet(cb: Callbacks)
    ensures StopsAtAck(cb) ==> Quiet(cb)
  {
  }

  /**
   nl_wait_for_ack promises to wait for the ack of the oldest request. With datagrams ds of
   reply data before the one that ends in the ack, it reads up to the ack exactly when there
   are none or the first of them opens a multipart series; otherwise it returns early.
   */
  lemma WaitForAckExactly(s: Sock, cb: Callbacks, ds: seq<Datagram>, a: Datagram, rest: seq<Datagram>)
    requires StopsAtAck(cb) && s.inbox == ds + [a] + rest
    requires forall d | d in ds :: AnswerTo(d, s.seqExpect) && !Ends(d)
    requires AnswerTo(a, s.seqExpect) && EndsInAck(a)
    ensures var r := Receive(s, cb, false);
            r.flow == StopAll && r.sk.inbox == rest <==> ds == [] || AnyMulti(ds[0])
  {
    hide HandleAll, AnswerTo, Ends, EndsInAck, StopsAtAck, Quiet, AnyMulti;
    var d := s.inbox[0];
    var s1 := s.(inbox := s.inbox[1..]);
    StopsAtAckQuiet(cb);
    if ds == [] {
      assert d == a && s.inbox[1..] == rest;
      HandleUntilAck(s1, cb, a, false);
    } else {
      assert d == ds[0] && d in ds && s.inbox[1..] == ds[1..] + [a] + rest;
      HandleUntilAck(s1, cb, d, false);
      HandleAnswer(s1, cb, d, false);
      if AnyMulti(d) {
        ReceiveUntilAck(HandleAll(s1, cb, d, false).sk, cb, ds[1..], a, rest);
      }
    }
  }

  /** An early return: a data message outside a multipart series comes before the ack, and the
      datagram with the ack is left unread. */
  lemma WaitReturnsEarly(s: Sock, cb: Callbacks)
    requires StopsAtAck(cb)
    ensures var data := Msg(Data, s.seqExpect, false, false);
            var ack := Msg(Error(0, false), s.seqExpect, false, false);
            var r := Receive(s.(inbox := [[data], [ack]]), cb, false);
            r.flow == Next && r.sk.inbox == [[ack]]
  {
    var data := Msg(Data, s.seqExpect, false, false);
    var ack := Msg(Error(0, false), s.seqExpect, false, false);
    var s1 := s.(inbox := [[ack]]);
    HandleData(s1, cb, data, false);
    assert [[data], [ack]][1..] == [[ack]];
    HandleAllCons(s1, cb, [data], false);
    HandleAllNone(Handle(s1, cb, data, false).sk, cb, false);
  }

  // ----- the loop itself -----

  class NlSocket {
    var seqNext: nat
    var seqExpect: nat
    var inbox: seq<Datagram>
    var seen: nat
    var delivered: seq<Delivery>

    constructor (start: nat)
      ensures State() == Fresh(start).sk
    {
      seqNext, seqExpect := start % SEQ_SPACE, start % SEQ_SPACE;
      inbox, seen, delivered := [], 0, [];
    }

    ghost function State(): Sock
      reads this
    {
      Sock(seqNext, seqExpect, inbox, seen, delivered)
    }

    /** nl_send_auto_complete: a message without a number gets the next one. */
    method SendAutoComplete(number: nat) returns (given: nat)
      modifies this`seqNext
      ensures number == 0 ==> given == old(seqNext) && State() == Send(old(State()))
      ensures number != 0 ==> given == number && State() == old(State())
    {
      given := number;
      if number == 0 {
        given := seqNext;
        seqNext := Plus(seqNext, 1);
      }
    }

    /** The steps before the sequence number is accepted. */
    method Check(cb: Callbacks, m: Msg) returns (refused: Option<Flow>)
      ensures refused == Refused(State(), cb, m)
    {
      if cb.isSet(OnMsgIn) {
        var a := cb.answer(OnMsgIn, m, seen);
        if a != Proceed {
          return Some(FlowOf(a));
        }
      }
      if cb.isSet(OnSeqCheck) {
        var a := cb.answer(OnSeqCheck, m, seen);
        if a != Proceed {
          return Some(FlowOf(a));
        }
      } else if m.seq_ != seqExpect {
        if !cb.isSet(OnInvalid) {
          return Some(Mismatch);
        }
        var a := cb.answer(OnInvalid, m, seen);
        if a != Proceed {
          return Some(FlowOf(a));
        }
      }
      return None;
    }

    method HandleMessage(cb: Callbacks, m: Msg, multipart: bool) returns (multi: bool, flow: Flow)
      modifies this
      ensures Handled(State(), multi, flow) == Handle(old(State()), cb, m, multipart)
    {
      hide Dispatch, Refused, FlowOf, Plus;
      var refused := Check(cb, m);
      var at := seen;
      seen := seen + 1;
      multi := multipart;
      if refused.Some? {
        return multi, refused.value;
      }
      var expected := seqExpect;
      if m.kind.Done? || m.kind.Error? || m.kind.Noop? || m.kind.Overrun? {
        seqExpect := Plus(seqExpect, 1);
      }
      if m.multi {
        multi := true;
      }
      if m.ack && cb.isSet(OnSendAck) {
        var a := cb.answer(OnSendAck, m, at);
        if a != Proceed {
          return multi, FlowOf(a);
        }
      }
      if m.kind.Done? {
        multi := false;
      }
      if m.kind.Data? {
        delivered := delivered + [Delivery(m, expected)];
      }
      flow := Dispatch(cb, m, at);
    }

    method HandleDatagram(cb: Callbacks, d: Datagram, multipart: bool) returns (multi: bool, flow: Flow)
      modifies this
      ensures Handled(State(), multi, flow) == HandleAll(old(State()), cb, d, multipart)
    {
      hide Handle;
      multi, flow := multipart, Next;
      var i := 0;
      while i < |d|
        invariant 0 <= i <= |d| && flow == Next
        invariant HandleAll(State(), cb, d[i..], multi) == HandleAll(old(State()), cb, d, multipart)
      {
        assert d[i..][1..] == d[i + 1..];
        multi, flow := HandleMessage(cb, d[i], multi);
        if flow != Next {
          return;
        }
        i := i + 1;
      }
    }

    /** recvmsgs reads as the function Receive does. */
    method Recvmsgs(cb: Callbacks) returns (err: int)
      modifies this
      ensures var r := Receive(old(State()), cb, false); State() == r.sk && err == ErrOf(r.flow)
    {
      hide HandleAll;
      var multipart := false;
      while inbox != []
        invariant Receive(State(), cb, multipart) == Receive(old(State()), cb, false)
        decreases |inbox|
      {
        var d := inbox[0];
        inbox := inbox[1..];
        var flow;
        multipart, flow := HandleDatagram(cb, d, multipart);
        if flow != Next || !multipart {
          return ErrOf(flow);
        }
      }
      err := 0;
    }
  }
}
