/** The output side of a memcached connection: buffers are gathered into messages of iovecs
    (add_msghdr, ensure_iov_space, add_iov) and sent piece by piece (transmit). */
module Output {
  import opened Seqs

  type byte = x: int | 0 <= x < 256

  const IOV_MAX: nat := 1024
  const UDP_MAX_PAYLOAD_SIZE: nat := 1400
  const UDP_HEADER_SIZE: nat := 8
  const IOV_LIST_INITIAL: nat := 400
  const MSG_LIST_INITIAL: nat := 10

  /** One iovec: what it points at, and whether that is the room for a UDP header. */
  datatype Iov = Iov(header: bool, data: seq<byte>)

  /** struct msghdr: where in the iov list it starts, and how many entries it has. */
  datatype Msg = Msg(start: nat, len: nat)

  /** The output fields of struct conn while a response is put together. */
  datatype Out = Out(udp: bool, iov: seq<Iov>, iovsize: nat, msgs: seq<Msg>, msgsize: nat, msgbytes: nat)

  function HeaderRoom(): Iov {
    Iov(true, seq(UDP_HEADER_SIZE, _ => 0))
  }

  // ---- the functions of memcached.c -----------------------------------------------------------

  /** The loop that points the messages at a moved iov list. */
  function Repoint(msgs: seq<Msg>, iovnum: nat): (r: seq<Msg>)
    ensures |r| == |msgs|
  {
    if msgs == [] then [] else [Msg(iovnum, msgs[0].len)] + Repoint(msgs[1..], iovnum + msgs[0].len)
  }

  /** ensure_iov_space */
  function EnsureSpace(c: Out): (d: Out)
    ensures |d.msgs| == |c.msgs|
  {
    if |c.iov| >= c.iovsize then c.(iovsize := c.iovsize * 2, msgs := Repoint(c.msgs, 0)) else c
  }

  /** The end of a round of add_iov: one more entry for the last message. */
  function PutIov(c: Out, e: Iov): (d: Out)
    requires c.msgs != []
    ensures |d.msgs| == |c.msgs|
  {
    var last := |c.msgs| - 1;
    c.(iov := c.iov + [e], msgs := c.msgs[last := c.msgs[last].(len := c.msgs[last].len + 1)],
       msgbytes := c.msgbytes + |e.data|)
  }

  /** One more message, empty so far, at the end of the iov list. */
  function Opened(c: Out): Out {
    c.(msgsize := if c.msgsize == |c.msgs| then c.msgsize * 2 else c.msgsize,
       msgs := c.msgs + [Msg(|c.iov|, 0)], msgbytes := 0)
  }

  /** add_msghdr; for UDP, add_iov for the header's room needs one round. */
  function AddMsg(c: Out): (d: Out)
    ensures |d.msgs| == |c.msgs| + 1
  {
    var n := Opened(c);
    if c.udp then PutIov(EnsureSpace(n), HeaderRoom()) else n
  }

  predicate Limited(c: Out) {
    c.udp || |c.msgs| == 1
  }

  predicate FullMsg(c: Out)
    requires c.msgs != []
  {
    c.msgs[|c.msgs| - 1].len == IOV_MAX || (Limited(c) && c.msgbytes >= UDP_MAX_PAYLOAD_SIZE)
  }

  /** A message with room, and room for an entry. */
  function Ready(c: Out): (d: Out)
    requires c.msgs != []
    ensures d.msgs != []
  {
    EnsureSpace(if FullMsg(c) then AddMsg(c) else c)
  }

  /** How much of the data goes into this round's message. */
  function Fitting(c: Out, limited: bool, len: nat): (n: nat)
    ensures n <= len
  {
    if limited && len + c.msgbytes > UDP_MAX_PAYLOAD_SIZE && c.msgbytes < UDP_MAX_PAYLOAD_SIZE
    then UDP_MAX_PAYLOAD_SIZE - c.msgbytes else len
  }

  /** add_iov */
  function AddIov(c: Out, data: seq<byte>): (d: Out)
    requires c.msgs != []
    ensures d.msgs != []
    decreases |data|
  {
    var e := Ready(c);
    var n := Fitting(e, Limited(c), |data|);
    var d := PutIov(e, Iov(false, data[..n]));
    if 0 < n < |data| then AddIov(d, data[n..]) else d
  }

  // ---- what the lists mean ------------------------------------------------------------------------

  /** All bytes of a stretch of entries. */
  function Wire(iov: seq<Iov>): seq<byte> {
    if iov == [] then [] else iov[0].data + Wire(iov[1..])
  }

  function Plain(e: Iov): seq<byte> {
    if e.header then [] else e.data
  }

  /** The bytes that were added, without the room for headers. */
  function Payload(iov: seq<Iov>): seq<byte> {
    if iov == [] then [] else Plain(iov[0]) + Payload(iov[1..])
  }

  function MsgEnd(m: Msg): nat {
    m.start + m.len
  }

  function Entries(iov: seq<Iov>, m: Msg): seq<Iov>
    requires MsgEnd(m) <= |iov|
  {
    iov[m.start..MsgEnd(m)]
  }

  /** Each message starts where the one before it ends, the first at 0. */
  predicate Chained(msgs: seq<Msg>, from: nat, total: nat)
    decreases |msgs|
  {
    if msgs == [] then from == total
    else msgs[0].start == from && Chained(msgs[1..], from + msgs[0].len, total)
  }

  function SumLens(msgs: seq<Msg>): nat {
    if msgs == [] then 0 else msgs[0].len + SumLens(msgs[1..])
  }

  /** A message that may be sent as one datagram or first packet; an open one may still be empty. */
  predicate MsgOk(udp: bool, iov: seq<Iov>, m: Msg, first: bool, open: bool) {
    && m.len <= IOV_MAX && MsgEnd(m) <= |iov| && (m.len > 0 || open || (first && !udp))
    && (udp || first ==> |Wire(Entries(iov, m))| <= UDP_MAX_PAYLOAD_SIZE)
    && (udp && m.len > 0 ==> iov[m.start].header)
  }

  predicate MsgsOk(c: Out, open: bool) {
    forall i :: 0 <= i < |c.msgs| ==> MsgOk(c.udp, c.iov, c.msgs[i], i == 0, open && i == |c.msgs| - 1)
  }

  predicate LastOk(c: Out) {
    && c.msgs != [] && MsgEnd(c.msgs[|c.msgs| - 1]) == |c.iov|
    && c.msgbytes == |Wire(Entries(c.iov, c.msgs[|c.msgs| - 1]))|
  }

  predicate SizesOk(c: Out) {
    c.iovsize >= |c.iov| && c.iovsize > 0 && c.msgsize >= |c.msgs|
  }

  predicate Shape(c: Out, open: bool) {
    LastOk(c) && Chained(c.msgs, 0, |c.iov|) && MsgsOk(c, open) && SizesOk(c)
  }

  /** What holds between calls of add_iov. */
  predicate OutOk(c: Out) {
    Shape(c, false)
  }

  /** A connection's lists as a response begins, at the sizes to which they have grown: one message, for UDP
      with the room for its header. */
  function Begin(udp: bool, iovsize: nat, msgsize: nat): Out {
    AddMsg(Out(udp, [], iovsize, [], msgsize, 0))
  }

  // ---- lists --------------------------------------------------------------------------------------

  lemma Associative<T>(a: seq<T>, b: seq<T>, c: seq<T>)
    ensures (a + b) + c == a + (b + c)
  {
  }

  lemma {:induction false} WireAppend(a: seq<Iov>, b: seq<Iov>)
    ensures Wire(a + b) == Wire(a) + Wire(b)
  {
    if a == [] {
      assert a + b == b;
    } else {
      WireAppend(a[1..], b);
      assert (a + b)[1..] == a[1..] + b;
      Associative(a[0].data, Wire(a[1..]), Wire(b));
    }
  }

  lemma {:induction false} PayloadAppend(a: seq<Iov>, b: seq<Iov>)
    ensures Payload(a + b) == Payload(a) + Payload(b)
  {
    if a == [] {
      assert a + b == b;
    } else {
      PayloadAppend(a[1..], b);
      assert (a + b)[1..] == a[1..] + b;
      hide Plain;
      Associative(Plain(a[0]), Payload(a[1..]), Payload(b));
    }
  }

  lemma WireOne(e: Iov)
    ensures Wire([e]) == e.data && Payload([e]) == Plain(e)
  {
    assert [e][1..] == [];
  }

  /** The messages are where the loop after a reallocation puts them. */
  lemma {:induction false} ChainedRepoint(msgs: seq<Msg>, from: nat, total: nat)
    requires Chained(msgs, from, total)
    ensures Repoint(msgs, from) == msgs
    decreases |msgs|
  {
    if msgs != [] {
      ChainedRepoint(msgs[1..], from + msgs[0].len, total);
    }
  }

  lemma {:induction false} ChainedPut(msgs: seq<Msg>, from: nat, total: nat)
    requires msgs != [] && Chained(msgs, from, total)
    ensures var last := |msgs| - 1;
            Chained(msgs[last := msgs[last].(len := msgs[last].len + 1)], from, total + 1)
    decreases |msgs|
  {
    var last := |msgs| - 1;
    var r := msgs[last := msgs[last].(len := msgs[last].len + 1)];
    if last == 0 {
      assert r[1..] == [] && msgs[1..] == [];
    } else {
      ChainedPut(msgs[1..], from + msgs[0].len, total);
      assert r[1..] == msgs[1..][last - 1 := msgs[last].(len := msgs[last].len + 1)];
    }
  }

  lemma {:induction false} ChainedAppend(msgs: seq<Msg>, from: nat, total: nat)
    requires Chained(msgs, from, total)
    ensures Chained(msgs + [Msg(total, 0)], from, total)
    decreases |msgs|
  {
    var r := msgs + [Msg(total, 0)];
    if msgs == [] {
      assert r == [Msg(total, 0)] && r[1..] == [];
    } else {
      ChainedAppend(msgs[1..], from + msgs[0].len, total);
      assert r[1..] == msgs[1..] + [Msg(total, 0)];
    }
  }

  /** Message i starts at the sum of the lengths before it, and the messages are apart. */
  lemma {:induction false} ChainedStart(msgs: seq<Msg>, from: nat, total: nat, i: nat)
    requires Chained(msgs, from, total) && i < |msgs|
    ensures msgs[i].start == from + SumLens(msgs[..i])
    ensures from <= msgs[i].start && MsgEnd(msgs[i]) <= total
    decreases |msgs|
  {
    ChainedBound(msgs[1..], from + msgs[0].len, total);
    if i > 0 {
      ChainedStart(msgs[1..], from + msgs[0].len, total, i - 1);
      assert msgs[..i][1..] == msgs[1..][..i - 1];
    }
  }

  lemma {:induction false} ChainedBound(msgs: seq<Msg>, from: nat, total: nat)
    requires Chained(msgs, from, total)
    ensures from <= total
    decreases |msgs|
  {
    if msgs != [] {
      ChainedBound(msgs[1..], from + msgs[0].len, total);
    }
  }

  lemma {:induction false} ChainedApart(msgs: seq<Msg>, from: nat, total: nat, i: nat, j: nat)
    requires Chained(msgs, from, total) && i < j < |msgs|
    ensures MsgEnd(msgs[i]) <= msgs[j].start
    decreases |msgs|
  {
    if i == 0 {
      ChainedStart(msgs[1..], from + msgs[0].len, total, j - 1);
    } else {
      ChainedApart(msgs[1..], from + msgs[0].len, total, i - 1, j - 1);
    }
  }

  // ---- each function keeps the lists in order ------------------------------------------------------

  lemma Resized(c: Out, open: bool, iovsize: nat, msgsize: nat)
    requires Shape(c, open) && iovsize >= c.iovsize && msgsize >= c.msgsize
    ensures Shape(c.(iovsize := iovsize, msgsize := msgsize), open)
  {
    hide Chained, MsgOk, Wire, Entries;
  }

  lemma EnsureKeeps(c: Out, open: bool)
    requires Shape(c, open)
    ensures var d := EnsureSpace(c);
            && Shape(d, open) && |d.iov| < d.iovsize
            && d.iov == c.iov && d.msgs == c.msgs && d.msgbytes == c.msgbytes && d.udp == c.udp
  {
    ChainedRepoint(c.msgs, 0, |c.iov|);
    assert SizesOk(c);
    Resized(c, open, c.iovsize * 2, c.msgsize);
    hide Shape, Repoint;
  }

  lemma EntriesAppend(iov: seq<Iov>, e: Iov, m: Msg)
    requires MsgEnd(m) <= |iov|
    ensures Entries(iov + [e], m) == Entries(iov, m)
    ensures MsgEnd(m) == |iov| ==> Entries(iov + [e], m.(len := m.len + 1)) == Entries(iov, m) + [e]
  {
  }

  /** One entry more, where the last message has room for it. */
  predicate CanPut(c: Out, e: Iov) {
    && c.msgs != [] && |c.iov| < c.iovsize && c.msgs[|c.msgs| - 1].len < IOV_MAX
    && (Limited(c) ==> c.msgbytes + |e.data| <= UDP_MAX_PAYLOAD_SIZE)
    && (c.udp ==> c.msgs[|c.msgs| - 1].len > 0 || e.header)
  }

  lemma PutLast(c: Out, e: Iov)
    requires LastOk(c)
    ensures LastOk(PutIov(c, e))
  {
    var m := c.msgs[|c.msgs| - 1];
    EntriesAppend(c.iov, e, m);
    WireAppend(Entries(c.iov, m), [e]);
    WireOne(e);
    hide Wire;
  }

  lemma PutMsgs(c: Out, e: Iov)
    requires Shape(c, true) && CanPut(c, e)
    ensures MsgsOk(PutIov(c, e), false)
  {
    PutLast(c, e);
    hide Wire, Chained;
    var d := PutIov(c, e);
    forall i | 0 <= i < |d.msgs| ensures MsgOk(d.udp, d.iov, d.msgs[i], i == 0, false) {
      assert MsgOk(c.udp, c.iov, c.msgs[i], i == 0, i == |c.msgs| - 1);
      EntriesAppend(c.iov, e, c.msgs[i]);
    }
  }

  lemma PutKeeps(c: Out, e: Iov)
    requires Shape(c, true) && CanPut(c, e)
    ensures OutOk(PutIov(c, e))
    ensures Payload(PutIov(c, e).iov) == Payload(c.iov) + Plain(e)
  {
    hide Payload, Wire, Plain, MsgOk, Entries, Chained, MsgsOk, PutIov, CanPut;
    CanPutParts(c, e);
    PutPayload(c, e);
    PutMsgs(c, e);
    PutLast(c, e);
    ChainedPut(c.msgs, 0, |c.iov|);
    PutSizes(c, e);
  }

  lemma CanPutParts(c: Out, e: Iov)
    requires CanPut(c, e)
    ensures c.msgs != [] && |c.iov| < c.iovsize
  {
    hide Wire, Entries;
  }

  lemma PutSizes(c: Out, e: Iov)
    requires SizesOk(c) && c.msgs != [] && |c.iov| < c.iovsize
    ensures SizesOk(PutIov(c, e)) && |PutIov(c, e).iov| == |c.iov| + 1
    ensures var last := |c.msgs| - 1;
            PutIov(c, e).msgs == c.msgs[last := c.msgs[last].(len := c.msgs[last].len + 1)]
  {
  }

  lemma PutPayload(c: Out, e: Iov)
    requires c.msgs != []
    ensures Payload(PutIov(c, e).iov) == Payload(c.iov) + Plain(e)
  {
    PayloadAppend(c.iov, [e]);
    WireOne(e);
    hide Payload, Wire, Plain;
  }

  /** The empty list of a connection, or one in order, before a message is added. */
  predicate BeforeMsg(c: Out) {
    c.msgsize > 0 && (OutOk(c) || (c.msgs == [] && c.iov == [] && SizesOk(c)))
  }

  lemma BeforeParts(c: Out)
    requires BeforeMsg(c)
    ensures Chained(c.msgs, 0, |c.iov|) && MsgsOk(c, false) && SizesOk(c)
  {
    hide Chained, Wire, MsgOk;
    if c.msgs == [] {
      assert Chained([], 0, 0) by {
        ChainedNone();
      }
    }
  }

  lemma ChainedNone()
    ensures Chained([], 0, 0)
  {
  }

  lemma OpenedMsgs(c: Out)
    requires MsgsOk(c, false)
    ensures MsgsOk(Opened(c), true)
  {
    hide Wire;
    var n := Opened(c);
    assert Entries(n.iov, Msg(|c.iov|, 0)) == [] && Wire([]) == [] by {
      WireNone();
    }
    forall i | 0 <= i < |n.msgs| ensures MsgOk(n.udp, n.iov, n.msgs[i], i == 0, i == |n.msgs| - 1) {
      if i < |c.msgs| {
        assert MsgOk(c.udp, c.iov, c.msgs[i], i == 0, false);
      }
    }
  }

  lemma WireNone()
    ensures Wire([]) == []
  {
  }

  lemma NewMsg(c: Out)
    requires BeforeMsg(c)
    ensures Shape(Opened(c), true)
  {
    hide Chained, MsgsOk, Wire, OutOk;
    BeforeParts(c);
    ChainedAppend(c.msgs, 0, |c.iov|);
    OpenedMsgs(c);
    WireNone();
    assert Entries(c.iov, Msg(|c.iov|, 0)) == [];
  }

  lemma AddMsgKeeps(c: Out)
    requires BeforeMsg(c)
    ensures var d := AddMsg(c);
            && Shape(d, true) && d.udp == c.udp && Payload(d.iov) == Payload(c.iov)
            && d.msgs[|d.msgs| - 1].len <= 1 && (c.udp ==> d.msgs[|d.msgs| - 1].len == 1)
            && d.msgbytes <= UDP_HEADER_SIZE && (c.udp || c.msgs == [] ==> OutOk(d))
  {
    NewMsg(c);
    var n := Opened(c);
    if c.udp {
      EnsureKeeps(n, true);
      var e := EnsureSpace(n);
      hide Shape, Payload, Wire, EnsureSpace;
      PutKeeps(e, HeaderRoom());
      Closed(AddMsg(c));
    } else {
      FirstOpen(n);
      hide Shape, Payload, Wire;
    }
  }

  lemma Closed(c: Out)
    requires OutOk(c)
    ensures Shape(c, true)
  {
    hide Chained, Wire;
  }

  /** The first message of a TCP response may be empty. */
  lemma FirstOpen(c: Out)
    requires Shape(c, true) && !c.udp
    ensures |c.msgs| == 1 ==> OutOk(c)
  {
    hide Chained, Wire;
  }

  /** The lists are in order from the start. */
  lemma BeginOk(udp: bool, iovsize: nat, msgsize: nat)
    requires iovsize > 0 && msgsize > 0
    ensures OutOk(Begin(udp, iovsize, msgsize)) && Payload(Begin(udp, iovsize, msgsize).iov) == []
  {
    AddMsgKeeps(Out(udp, [], iovsize, [], msgsize, 0));
    hide AddMsg, OutOk, Shape;
  }

  predicate RoomIn(c: Out, limited: bool) {
    && c.msgs != [] && |c.iov| < c.iovsize && c.msgs[|c.msgs| - 1].len < IOV_MAX
    && (limited ==> c.msgbytes < UDP_MAX_PAYLOAD_SIZE) && (c.udp ==> c.msgs[|c.msgs| - 1].len > 0)
  }

  lemma LastMsg(c: Out)
    requires OutOk(c)
    ensures var m := c.msgs[|c.msgs| - 1]; m.len <= IOV_MAX && (c.udp ==> m.len > 0) && c.msgsize > 0
  {
    assert MsgOk(c.udp, c.iov, c.msgs[|c.msgs| - 1], |c.msgs| == 1, false);
    hide MsgsOk, Chained, Wire;
  }

  lemma ReadyKeeps(c: Out)
    requires OutOk(c)
    ensures var e := Ready(c);
            && Shape(e, true) && e.udp == c.udp && Payload(e.iov) == Payload(c.iov)
            && RoomIn(e, Limited(c)) && (Limited(e) ==> Limited(c))
  {
    LastMsg(c);
    hide Shape, Payload, Wire, AddMsg, EnsureSpace;
    if FullMsg(c) {
      AddMsgKeeps(c);
      EnsureKeeps(AddMsg(c), true);
    } else {
      Closed(c);
      EnsureKeeps(c, true);
    }
  }

  /** One round of add_iov. */
  lemma RoundKeeps(c: Out, data: seq<byte>)
    requires OutOk(c)
    ensures var e := Ready(c);
            var n := Fitting(e, Limited(c), |data|);
            var d := PutIov(e, Iov(false, data[..n]));
            && OutOk(d) && d.udp == c.udp && Payload(d.iov) == Payload(c.iov) + data[..n]
            && (n == 0 ==> data == [])
  {
    HasMsg(c);
    hide Shape, Ready, Payload, OutOk;
    ReadyKeeps(c);
    var e := Ready(c);
    var n := Fitting(e, Limited(c), |data|);
    assert CanPut(e, Iov(false, data[..n]));
    PutKeeps(e, Iov(false, data[..n]));
  }

  lemma Split<T>(p: seq<T>, data: seq<T>, n: nat)
    requires n <= |data|
    ensures (p + data[..n]) + data[n..] == p + data
    ensures n == |data| ==> data[..n] == data
  {
  }

  /** add_iov adds just the data it is given, and keeps every message in its bounds. */
  lemma {:induction false} AddIovKeeps(c: Out, data: seq<byte>)
    requires OutOk(c)
    ensures OutOk(AddIov(c, data)) && AddIov(c, data).udp == c.udp
    ensures Payload(AddIov(c, data).iov) == Payload(c.iov) + data
    decreases |data|
  {
    HasMsg(c);
    hide Ready, Payload, OutOk, PutIov, Fitting;
    RoundKeeps(c, data);
    var e := Ready(c);
    var n := Fitting(e, Limited(c), |data|);
    var d := PutIov(e, Iov(false, data[..n]));
    Split(Payload(c.iov), data, n);
    if 0 < n < |data| {
      AddIovKeeps(d, data[n..]);
    }
  }

  // ---- a whole response ---------------------------------------------------------------------------

  function AddAll(c: Out, bufs: seq<seq<byte>>): Out
    requires c.msgs != []
    decreases |bufs|
  {
    if bufs == [] then c else AddAll(AddIov(c, bufs[0]), bufs[1..])
  }

  function Joined(bufs: seq<seq<byte>>): seq<byte> {
    if bufs == [] then [] else bufs[0] + Joined(bufs[1..])
  }

  lemma HasMsg(c: Out)
    requires OutOk(c)
    ensures c.msgs != []
  {
  }

  lemma {:induction false} AddAllKeeps(c: Out, bufs: seq<seq<byte>>)
    requires OutOk(c)
    ensures c.msgs != [] && OutOk(AddAll(c, bufs)) && Payload(AddAll(c, bufs).iov) == Payload(c.iov) + Joined(bufs)
    ensures AddAll(c, bufs).udp == c.udp
    decreases |bufs|
  {
    hide OutOk, Payload, AddIov;
    HasMsg(c);
    if bufs == [] {
      assert Payload(c.iov) + [] == Payload(c.iov);
    } else {
      AddIovKeeps(c, bufs[0]);
      AddAllKeeps(AddIov(c, bufs[0]), bufs[1..]);
      Associative(Payload(c.iov), bufs[0], Joined(bufs[1..]));
    }
  }

  /** Whatever buffers a response is made of: the iovecs, headers aside, are those buffers one after
      another; message i starts where the lengths before it end; no message has more than IOV_MAX
      entries; every UDP message, and the first TCP message, has at most 1400 bytes; and every UDP
      message begins with the room for its header. */
  lemma ResponseInOrder(udp: bool, iovsize: nat, msgsize: nat, bufs: seq<seq<byte>>)
    requires iovsize > 0 && msgsize > 0
    ensures var c := AddAll(Begin(udp, iovsize, msgsize), bufs);
            && Payload(c.iov) == Joined(bufs)
            && forall i :: 0 <= i < |c.msgs| ==>
                 var m := c.msgs[i];
                 && m.start == SumLens(c.msgs[..i]) && MsgEnd(m) <= |c.iov| && m.len <= IOV_MAX
                 && (udp || i == 0 ==> |Wire(Entries(c.iov, m))| <= UDP_MAX_PAYLOAD_SIZE)
                 && (udp ==> m.len > 0 && c.iov[m.start].header)
  {
    BeginOk(udp, iovsize, msgsize);
    AddAllKeeps(Begin(udp, iovsize, msgsize), bufs);
    var c := AddAll(Begin(udp, iovsize, msgsize), bufs);
    assert c.udp == udp by {
      BeginUdp(udp, iovsize, msgsize);
    }
    assert [] + Joined(bufs) == Joined(bufs);
    hide Payload, Wire, AddAll, Begin, Joined;
    forall i | 0 <= i < |c.msgs|
      ensures MsgOk(udp, c.iov, c.msgs[i], i == 0, false) && c.msgs[i].start == SumLens(c.msgs[..i])
    {
      ChainedStart(c.msgs, 0, |c.iov|, i);
    }
  }

  lemma BeginUdp(udp: bool, iovsize: nat, msgsize: nat)
    ensures Begin(udp, iovsize, msgsize).udp == udp
  {
  }
}
