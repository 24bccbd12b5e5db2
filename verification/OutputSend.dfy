/** transmit: sending the messages of a response piece by piece, whatever the kernel takes. */
module OutputSend {
  import opened Seqs
  import opened Output

  /** What is still to be sent: the entries and messages, trimmed in place, and msgcurr. */
  datatype Sending = Sending(iov: seq<Iov>, msgs: seq<Msg>, curr: nat)

  /** The outcome of one sendmsg: how many bytes went out, EAGAIN, or something worse. */
  datatype Sendmsg = Wrote(k: nat) | Blocked | Broken

  datatype Transmitted = Complete | Incomplete | SoftError | HardError

  function Min(a: nat, b: nat): nat {
    if a < b then a else b
  }

  function SendStart(c: Out): Sending {
    Sending(c.iov, c.msgs, 0)
  }

  function Current(s: Sending): seq<byte>
    requires s.curr < |s.msgs| && MsgEnd(s.msgs[s.curr]) <= |s.iov|
  {
    Wire(Entries(s.iov, s.msgs[s.curr]))
  }

  /** The loop that removes the entries that have gone out, and what it leaves of res. */
  function DropSent(iov: seq<Iov>, m: Msg, res: nat): (r: (Msg, nat))
    requires MsgEnd(m) <= |iov|
    ensures r.0.start >= m.start && MsgEnd(r.0) == MsgEnd(m)
    decreases m.len
  {
    if m.len > 0 && res >= |iov[m.start].data|
    then DropSent(iov, Msg(m.start + 1, m.len - 1), res - |iov[m.start].data|)
    else (m, res)
  }

  function Trim(e: Iov, n: nat): Iov
    requires n <= |e.data|
  {
    e.(data := e.data[n..])
  }

  /** The current message after n of its bytes have gone out. */
  function Advance(s: Sending, n: nat): Sending
    requires s.curr < |s.msgs| && MsgEnd(s.msgs[s.curr]) <= |s.iov|
  {
    var (m, rest) := DropSent(s.iov, s.msgs[s.curr], n);
    var t := s.(msgs := s.msgs[s.curr := m]);
    if 0 < m.len && 0 < rest < |s.iov[m.start].data| then t.(iov := s.iov[m.start := Trim(s.iov[m.start], rest)]) else t
  }

  function SkipDone(s: Sending): Sending {
    if s.curr < |s.msgs| && s.msgs[s.curr].len == 0 then s.(curr := s.curr + 1) else s
  }

  /** transmit: the new state, the result and the bytes that went out. */
  function Transmit(s: Sending, out: Sendmsg): (Sending, Transmitted, seq<byte>)
    requires SendOk(s)
  {
    SkipOk(s);
    var t := SkipDone(s);
    if t.curr >= |t.msgs| then (t, Complete, [])
    else
      match out
      case Wrote(k) =>
        var n := Min(k, |Current(t)|);
        if n == 0 then (t, HardError, []) else (Advance(t, n), Incomplete, Current(t)[..n])
      case Blocked => (t, SoftError, [])
      case Broken => (t, HardError, [])
  }

  // ---- what remains -----------------------------------------------------------------------------

  /** The messages' stretches of the iov list are in it and apart. */
  predicate SendOk(s: Sending) {
    && (forall i :: 0 <= i < |s.msgs| ==> MsgEnd(s.msgs[i]) <= |s.iov|)
    && (forall i, j :: 0 <= i < j < |s.msgs| ==> MsgEnd(s.msgs[i]) <= s.msgs[j].start)
  }

  lemma SkipOk(s: Sending)
    requires SendOk(s)
    ensures SendOk(SkipDone(s))
  {
  }

  function RemainingFrom(s: Sending, i: nat): seq<byte>
    requires SendOk(s) && i <= |s.msgs|
    decreases |s.msgs| - i
  {
    if i == |s.msgs| then [] else Wire(Entries(s.iov, s.msgs[i])) + RemainingFrom(s, i + 1)
  }

  /** All that is still to be sent. */
  function Remaining(s: Sending): seq<byte>
    requires SendOk(s)
  {
    if s.curr >= |s.msgs| then [] else RemainingFrom(s, s.curr)
  }

  lemma SkipRemaining(s: Sending)
    requires SendOk(s)
    ensures SendOk(SkipDone(s)) && Remaining(SkipDone(s)) == Remaining(s)
  {
    if s.curr < |s.msgs| && s.msgs[s.curr].len == 0 {
      var t := SkipDone(s);
      assert Entries(s.iov, s.msgs[s.curr]) == [];
      SameFrom(s, t, s.curr + 1);
    }
  }

  lemma {:induction false} SameFrom(s: Sending, t: Sending, i: nat)
    requires SendOk(s) && SendOk(t) && |t.msgs| == |s.msgs| && |t.iov| == |s.iov| && i <= |s.msgs|
    requires forall j :: i <= j < |s.msgs| ==>
               t.msgs[j] == s.msgs[j] && Entries(t.iov, t.msgs[j]) == Entries(s.iov, s.msgs[j])
    ensures RemainingFrom(t, i) == RemainingFrom(s, i)
    decreases |s.msgs| - i
  {
    hide SendOk, Entries;
    if i < |s.msgs| {
      SameFrom(s, t, i + 1);
    }
  }

  // ---- one message --------------------------------------------------------------------------------

  lemma EntriesStep(iov: seq<Iov>, m: Msg)
    requires m.len > 0 && MsgEnd(m) <= |iov|
    ensures Entries(iov, m) == [iov[m.start]] + Entries(iov, Msg(m.start + 1, m.len - 1))
    ensures Wire(Entries(iov, m)) == iov[m.start].data + Wire(Entries(iov, Msg(m.start + 1, m.len - 1)))
  {
    var rest := Entries(iov, Msg(m.start + 1, m.len - 1));
    assert ([iov[m.start]] + rest)[1..] == rest;
  }

  /** What the loop leaves: the bytes gone and those to go make up the message. */
  lemma {:induction false} DropSentBytes(iov: seq<Iov>, m: Msg, res: nat)
    requires MsgEnd(m) <= |iov| && res <= |Wire(Entries(iov, m))|
    ensures var (r, rest) := DropSent(iov, m, res);
            && rest <= |Wire(Entries(iov, r))| && (r.len > 0 ==> rest < |iov[r.start].data|)
            && (r.len == 0 ==> rest == 0)
            && Wire(Entries(iov, m))[res..] == Wire(Entries(iov, r))[rest..]
    decreases m.len
  {
    hide Entries;
    if m.len > 0 {
      EntriesStep(iov, m);
      var len := |iov[m.start].data|;
      if res >= len {
        var next := Msg(m.start + 1, m.len - 1);
        DropSentBytes(iov, next, res - len);
        assert Wire(Entries(iov, m))[res..] == Wire(Entries(iov, next))[res - len..];
      }
    } else {
      NoEntries(iov, m);
    }
  }

  lemma NoEntries(iov: seq<Iov>, m: Msg)
    requires m.len == 0 && MsgEnd(m) <= |iov|
    ensures Wire(Entries(iov, m)) == []
  {
  }

  lemma TrimBytes(iov: seq<Iov>, m: Msg, rest: nat)
    requires m.len > 0 && MsgEnd(m) <= |iov| && rest <= |iov[m.start].data|
    ensures var next := iov[m.start := Trim(iov[m.start], rest)];
            Wire(Entries(next, m)) == Wire(Entries(iov, m))[rest..]
  {
    var next := iov[m.start := Trim(iov[m.start], rest)];
    var tail := Msg(m.start + 1, m.len - 1);
    EntriesStep(iov, m);
    EntriesStep(next, m);
    assert Entries(next, tail) == Entries(iov, tail);
    var a, b := iov[m.start].data, Wire(Entries(iov, tail));
    assert (a + b)[rest..] == a[rest..] + b;
  }

  lemma AdvanceShape(s: Sending, n: nat)
    requires SendOk(s) && s.curr < |s.msgs| && MsgEnd(s.msgs[s.curr]) <= |s.iov|
    ensures var t := Advance(s, n);
            && SendOk(t) && t.curr == s.curr && |t.msgs| == |s.msgs| && |t.iov| == |s.iov|
            && forall j :: s.curr < j < |s.msgs| ==>
                 t.msgs[j] == s.msgs[j] && Entries(t.iov, t.msgs[j]) == Entries(s.iov, s.msgs[j])
  {
    var (m, rest) := DropSent(s.iov, s.msgs[s.curr], n);
    var t := Advance(s, n);
    forall j | s.curr < j < |s.msgs| ensures Entries(t.iov, t.msgs[j]) == Entries(s.iov, s.msgs[j]) {
      assert MsgEnd(s.msgs[s.curr]) <= s.msgs[j].start;
    }
  }

  /** The current message loses just the bytes that went out. */
  lemma AdvanceCurrent(s: Sending, n: nat)
    requires SendOk(s) && s.curr < |s.msgs| && MsgEnd(s.msgs[s.curr]) <= |s.iov| && n <= |Current(s)|
    ensures var t := Advance(s, n);
            t.curr == s.curr < |t.msgs| && MsgEnd(t.msgs[t.curr]) <= |t.iov| && Current(t) == Current(s)[n..]
  {
    AdvanceShape(s, n);
    DropSentBytes(s.iov, s.msgs[s.curr], n);
    var (m, rest) := DropSent(s.iov, s.msgs[s.curr], n);
    hide SendOk, Entries, DropSent;
    if m.len > 0 && rest > 0 {
      TrimBytes(s.iov, m, rest);
    } else {
      var w := Wire(Entries(s.iov, m));
      assert w[0..] == w;
    }
  }

  /** Whatever sendmsg takes, the bytes that went out and those that remain are those that remained;
      TRANSMIT_COMPLETE comes only when nothing remains, and TRANSMIT_INCOMPLETE only with progress. */
  lemma TransmitConserves(s: Sending, out: Sendmsg)
    requires SendOk(s)
    ensures var (t, res, sent) := Transmit(s, out);
            && SendOk(t) && sent + Remaining(t) == Remaining(s)
            && (res == Complete ==> Remaining(s) == []) && (res == Incomplete <==> sent != [])
  {
    hide SkipDone, SendOk, Advance, Wire, Entries, Remaining;
    SkipRemaining(s);
    var t := SkipDone(s);
    NothingLeft(t);
    assert [] + Remaining(t) == Remaining(t);
    if t.curr < |t.msgs| {
      CurrentIn(t);
      if out.Wrote? && Min(out.k, |Current(t)|) > 0 {
        AdvanceRemaining(t, Min(out.k, |Current(t)|));
      }
    }
  }

  lemma CurrentIn(s: Sending)
    requires SendOk(s) && s.curr < |s.msgs|
    ensures MsgEnd(s.msgs[s.curr]) <= |s.iov|
  {
  }

  lemma NothingLeft(s: Sending)
    requires SendOk(s)
    ensures s.curr >= |s.msgs| ==> Remaining(s) == []
  {
  }

  lemma AdvanceRemaining(s: Sending, n: nat)
    requires SendOk(s) && s.curr < |s.msgs| && MsgEnd(s.msgs[s.curr]) <= |s.iov| && 0 < n <= |Current(s)|
    ensures SendOk(Advance(s, n)) && Current(s)[..n] + Remaining(Advance(s, n)) == Remaining(s)
  {
    hide SendOk, Advance, Wire, Entries;
    AdvanceShape(s, n);
    AdvanceCurrent(s, n);
    var t := Advance(s, n);
    SameFrom(s, t, s.curr + 1);
    Rejoin(Current(s), n, RemainingFrom(s, s.curr + 1));
  }

  lemma Rejoin<T>(a: seq<T>, n: nat, b: seq<T>)
    requires n <= |a|
    ensures a[..n] + (a[n..] + b) == a + b
  {
  }

  /** The message that transmit sends of, if there is one: the current one, or the next if that is finished. */
  function ToSend(s: Sending): nat {
    if s.curr < |s.msgs| && s.msgs[s.curr].len == 0 then s.curr + 1 else s.curr
  }

  /** The result: complete when there is no message to send of; otherwise a soft error when the socket is full, a
      hard one when sendmsg fails or nothing goes out, and else as many bytes go out as sendmsg takes. */
  lemma TransmitOutcome(s: Sending, out: Sendmsg)
    requires SendOk(s)
    ensures var (_, res, sent) := Transmit(s, out);
            && (res == Complete <==>
                  s.curr >= |s.msgs| || (s.curr == |s.msgs| - 1 && s.msgs[s.curr].len == 0))
            && (res != Complete ==>
                  && ToSend(s) < |s.msgs| && MsgEnd(s.msgs[ToSend(s)]) <= |s.iov|
                  && var m := s.msgs[ToSend(s)];
                  && var none := forall i :: m.start <= i < MsgEnd(m) ==> s.iov[i].data == [];
                  && (res == SoftError <==> out == Blocked)
                  && (res == HardError <==> out == Broken || (out.Wrote? && (out.k == 0 || none)))
                  && (out.Wrote? ==>
                        |sent| == if out.k <= |Wire(Entries(s.iov, m))| then out.k else |Wire(Entries(s.iov, m))|))
  {
    hide Advance, Wire, Entries;
    var t := SkipDone(s);
    if t.curr < |t.msgs| {
      CurrentIn(t);
      EmptyWire(t.iov, t.msgs[t.curr]);
    }
  }

  lemma {:induction false} EmptyWire(iov: seq<Iov>, m: Msg)
    requires MsgEnd(m) <= |iov|
    ensures Wire(Entries(iov, m)) == [] <==> forall i :: m.start <= i < MsgEnd(m) ==> iov[i].data == []
    decreases m.len
  {
    hide Entries, Wire;
    if m.len > 0 {
      EntriesStep(iov, m);
      EmptyWire(iov, Msg(m.start + 1, m.len - 1));
    } else {
      NoEntries(iov, m);
    }
  }

  // ---- a whole transmission -------------------------------------------------------------------------

  function TransmitAll(s: Sending, outs: seq<Sendmsg>): (r: (Sending, seq<byte>))
    requires SendOk(s)
    ensures SendOk(r.0)
    decreases |outs|
  {
    if outs == [] then (s, [])
    else
      TransmitConserves(s, outs[0]);
      var (t, _, sent) := Transmit(s, outs[0]);
      var (u, more) := TransmitAll(t, outs[1..]);
      (u, sent + more)
  }

  lemma {:induction false} AllConserves(s: Sending, outs: seq<Sendmsg>)
    requires SendOk(s)
    ensures var (t, sent) := TransmitAll(s, outs); SendOk(t) && sent + Remaining(t) == Remaining(s)
    decreases |outs|
  {
    hide SendOk, Transmit, Remaining;
    if outs == [] {
      assert [] + Remaining(s) == Remaining(s);
    } else {
      TransmitConserves(s, outs[0]);
      var (t, res, sent) := Transmit(s, outs[0]);
      AllConserves(t, outs[1..]);
      var (u, more) := TransmitAll(t, outs[1..]);
      Associative(sent, more, Remaining(u));
    }
  }

  lemma StartOk(c: Out)
    requires OutOk(c)
    ensures SendOk(SendStart(c))
  {
    var s := SendStart(c);
    forall i | 0 <= i < |s.msgs| ensures MsgEnd(s.msgs[i]) <= |s.iov| {
      ChainedStart(c.msgs, 0, |c.iov|, i);
    }
    forall i, j | 0 <= i < j < |s.msgs| ensures MsgEnd(s.msgs[i]) <= s.msgs[j].start {
      ChainedApart(c.msgs, 0, |c.iov|, i, j);
    }
    hide Shape;
  }

  lemma {:induction false} StartRemaining(s: Sending, i: nat, from: nat)
    requires SendOk(s) && i <= |s.msgs| && from <= |s.iov| && Chained(s.msgs[i..], from, |s.iov|)
    ensures RemainingFrom(s, i) == Wire(s.iov[from..])
    decreases |s.msgs| - i
  {
    if i == |s.msgs| {
      assert s.iov[from..] == [];
    } else {
      var m := s.msgs[i];
      assert s.msgs[i..][0] == m && s.msgs[i..][1..] == s.msgs[i + 1..];
      ChainedBound(s.msgs[i + 1..], from + m.len, |s.iov|);
      StartRemaining(s, i + 1, from + m.len);
      assert s.iov[from..] == Entries(s.iov, m) + s.iov[from + m.len..];
      WireAppend(Entries(s.iov, m), s.iov[from + m.len..]);
    }
  }

  /** A response is neither lost nor reordered on its way out: after any sequence of partial sends,
      what went out and what remains are the bytes of its iovecs in order, all of them if a further
      call reports that it is complete. */
  lemma SentInOrder(udp: bool, iovsize: nat, msgsize: nat, bufs: seq<seq<byte>>, outs: seq<Sendmsg>, last: Sendmsg)
    requires iovsize > 0 && msgsize > 0
    ensures var c := AddAll(Begin(udp, iovsize, msgsize), bufs);
            && SendOk(SendStart(c))
            && var (t, sent) := TransmitAll(SendStart(c), outs);
            && sent + Remaining(t) == Wire(c.iov)
            && (Transmit(t, last).1 == Complete ==> sent == Wire(c.iov))
  {
    hide AddAll, Begin, Wire, OutOk, Remaining, SendOk, TransmitAll, Transmit;
    BeginOk(udp, iovsize, msgsize);
    HasMsg(Begin(udp, iovsize, msgsize));
    AddAllKeeps(Begin(udp, iovsize, msgsize), bufs);
    var c := AddAll(Begin(udp, iovsize, msgsize), bufs);
    StartOk(c);
    AllConserves(SendStart(c), outs);
    WholeStart(c);
    var (t, sent) := TransmitAll(SendStart(c), outs);
    TransmitConserves(t, last);
    assert sent + [] == sent;
  }

  lemma WholeStart(c: Out)
    requires OutOk(c) && SendOk(SendStart(c))
    ensures Remaining(SendStart(c)) == Wire(c.iov)
  {
    assert c.msgs[0..] == c.msgs && c.iov[0..] == c.iov;
    StartRemaining(SendStart(c), 0, 0);
    hide SendOk, Wire, RemainingFrom, MsgsOk, LastOk;
  }
}
