/** The output fields of struct conn, changed in place by add_msghdr, ensure_iov_space, add_iov and
    transmit.  A pointer into the iov list is the index it points at. */
module OutputConn {
  import opened Seqs
  import opened Output
  import opened OutputSend

  class Conn {
    const udp: bool
    var iov: array<Iov>
    var iovused: nat
    var msglist: array<Msg>
    var msgused: nat
    var msgcurr: nat
    var msgbytes: nat

    predicate Bounds()
      reads this
    {
      iovused <= iov.Length && msgused <= msglist.Length
    }

    ghost function Value(): Out
      requires Bounds()
      reads this, iov, msglist
    {
      Out(udp, iov[..iovused], iov.Length, msglist[..msgused], msglist.Length, msgbytes)
    }

    ghost predicate Valid(open: bool)
      reads this, iov, msglist
    {
      Bounds() && Shape(Value(), open)
    }

    constructor (udp: bool)
      ensures this.udp == udp && Valid(false) && Value() == Begin(udp, IOV_LIST_INITIAL, MSG_LIST_INITIAL)
      ensures msgcurr == 0 && fresh(iov) && fresh(msglist)
    {
      this.udp := udp;
      iov := new Iov[IOV_LIST_INITIAL](_ => Iov(false, []));
      msglist := new Msg[MSG_LIST_INITIAL](_ => Msg(0, 0));
      iovused, msgused, msgcurr, msgbytes := 0, 0, 0, 0;
      new;
      hide *;
      Restart();
    }

    /** The start of process_command: the lists keep the sizes to which they have grown. */
    method Restart()
      requires iov.Length > 0 && msglist.Length > 0
      modifies this, iov, msglist
      ensures Valid(false) && msgcurr == 0
      ensures Value() == Begin(udp, old(iov.Length), old(msglist.Length))
      ensures (iov == old(iov) || fresh(iov)) && (msglist == old(msglist) || fresh(msglist))
    {
      hide Shape, AddMsg, Payload;
      msgcurr, msgused, iovused := 0, 0, 0;
      BeginOk(udp, iov.Length, msglist.Length);
      AnyMsgbytes(Value(), 0);
      AddMsghdr();
    }

    /** ensure_iov_space */
    method EnsureIovSpace()
      requires Valid(true)
      modifies this`iov, msglist
      ensures Valid(true) && Value() == EnsureSpace(old(Value())) && iovused < iov.Length
      ensures iov == old(iov) || fresh(iov)
    {
      hide Shape, Repoint, Chained;
      EnsureKeeps(Value(), true);
      if iovused >= iov.Length {
        EnlargeIov();
        RepointMessages();
      }
    }

    /** The reallocation of the iov list. */
    method EnlargeIov()
      requires Bounds()
      modifies this`iov
      ensures fresh(iov) && iov.Length == 2 * old(iov.Length) && Bounds() && iov[..iovused] == old(iov[..iovused])
    {
      var larger := new Iov[iov.Length * 2](_ => Iov(false, []));
      forall i | 0 <= i < iovused {
        larger[i] := iov[i];
      }
      iov := larger;
    }

    /** The loop that points every message at the new list. */
    method RepointMessages()
      requires Bounds()
      modifies msglist
      ensures msglist[..msgused] == Repoint(old(msglist[..msgused]), 0)
    {
      var i, iovnum := 0, 0;
      ghost var was := msglist[..msgused];
      while i < msgused
        invariant i <= msgused && |was| == msgused
        invariant msglist[i..msgused] == was[i..]
        invariant msglist[..i] + Repoint(was[i..], iovnum) == Repoint(was, 0)
      {
        var len := msglist[i].len;
        assert was[i..][0] == was[i] && was[i..][1..] == was[i + 1..];
        ghost var front := msglist[..i];
        msglist[i] := Msg(iovnum, len);
        assert msglist[..i + 1] == front + [Msg(iovnum, len)];
        Associative(front, [Msg(iovnum, len)], Repoint(was[i + 1..], iovnum + len));
        iovnum := iovnum + len;
        i := i + 1;
      }
      assert Repoint(was[i..], iovnum) == [];
    }

    /** The write of one entry at the end of the last message. */
    method PutEntry(e: Iov)
      requires Valid(true) && iovused < iov.Length
      modifies this`iovused, this`msgbytes, iov, msglist
      ensures Bounds() && Value() == PutIov(old(Value()), e)
    {
      hide Shape;
      LastOpen(Value());
      var m := msglist[msgused - 1];
      assert m == msglist[..msgused][msgused - 1];
      iov[m.start + m.len] := e;
      msgbytes := msgbytes + |e.data|;
      iovused := iovused + 1;
      msglist[msgused - 1] := m.(len := m.len + 1);
    }

    /** The header of add_msghdr, before the room for a UDP header is added. */
    method OpenMsg()
      requires Bounds() && msglist.Length > 0
      modifies this`msglist, this`msgused, this`msgbytes, msglist
      ensures Bounds() && Value() == Opened(old(Value()))
      ensures msglist == old(msglist) || fresh(msglist)
    {
      if msglist.Length == msgused {
        var larger := new Msg[msglist.Length * 2](_ => Msg(0, 0));
        forall i | 0 <= i < msgused {
          larger[i] := msglist[i];
        }
        msglist := larger;
      }
      msglist[msgused] := Msg(iovused, 0);
      msgbytes := 0;
      msgused := msgused + 1;
    }

    /** add_msghdr */
    method AddMsghdr()
      requires Bounds() && BeforeMsg(Value())
      modifies this`iov, this`iovused, this`msglist, this`msgused, this`msgbytes, iov, msglist
      ensures Valid(true) && Value() == AddMsg(old(Value()))
      ensures (iov == old(iov) || fresh(iov)) && (msglist == old(msglist) || fresh(msglist))
    {
      AddMsgKeeps(Value());
      NewMsg(Value());
      hide Shape, Opened, EnsureSpace, PutIov, BeforeMsg;
      OpenMsg();
      if udp {
        EnsureIovSpace();
        PutEntry(HeaderRoom());
      }
    }

    /** The start of a round of add_iov: a new message if the last one is full, and room. */
    method MakeReady()
      requires Valid(false)
      modifies this`iov, this`iovused, this`msglist, this`msgused, this`msgbytes, iov, msglist
      ensures Valid(true) && Value() == Ready(old(Value())) && iovused < iov.Length
      ensures (iov == old(iov) || fresh(iov)) && (msglist == old(msglist) || fresh(msglist))
    {
      Closed(Value());
      LastMsg(Value());
      hide Shape, AddMsg, EnsureSpace;
      assert msglist[msgused - 1] == msglist[..msgused][msgused - 1];
      if msglist[msgused - 1].len == IOV_MAX ||
         ((udp || msgused == 1) && msgbytes >= UDP_MAX_PAYLOAD_SIZE) {
        AddMsghdr();
      }
      EnsureIovSpace();
    }

    /** add_iov */
    method AddIovec(data: seq<byte>)
      requires Valid(false)
      modifies this`iov, this`iovused, this`msglist, this`msgused, this`msgbytes, iov, msglist
      ensures Valid(false) && Value() == AddIov(old(Value()), data)
      ensures (iov == old(iov) || fresh(iov)) && (msglist == old(msglist) || fresh(msglist))
    {
      hide Shape, Ready, PutIov;
      HasMsg(Value());
      ghost var goal := AddIov(Value(), data);
      var buf := data;
      var leftover := true;
      while leftover
        invariant Bounds() && OutOk(Value()) && Value().msgs != []
        invariant if leftover then AddIov(Value(), buf) == goal else Value() == goal
        invariant (iov == old(iov) || fresh(iov)) && (msglist == old(msglist) || fresh(msglist))
        decreases leftover, |buf|
      {
        RoundKeeps(Value(), buf);
        var limited := udp || msgused == 1;
        MakeReady();
        var n := if limited && |buf| + msgbytes > UDP_MAX_PAYLOAD_SIZE && msgbytes < UDP_MAX_PAYLOAD_SIZE
                 then UDP_MAX_PAYLOAD_SIZE - msgbytes else |buf|;
        PutEntry(Iov(false, buf[..n]));
        HasMsg(Value());
        leftover := 0 < n < |buf|;
        buf := buf[n..];
      }
    }

    // ---- sending ---------------------------------------------------------------------------------

    ghost function Pending(): Sending
      requires Bounds()
      reads this, iov, msglist
    {
      Sending(iov[..iovused], msglist[..msgused], msgcurr)
    }

    /** transmit, given what sendmsg returns. */
    method TransmitNext(out: Sendmsg) returns (res: Transmitted, ghost sent: seq<byte>)
      requires Bounds() && SendOk(Pending())
      modifies this`msgcurr, iov, msglist
      ensures Bounds() && (Pending(), res, sent) == Transmit(old(Pending()), out)
    {
      SkipOk(Pending());
      sent := [];
      if msgcurr < msgused && msglist[msgcurr].len == 0 {
        msgcurr := msgcurr + 1;
      }
      hide SendOk;
      if msgcurr >= msgused {
        return Complete, [];
      }
      match out {
        case Wrote(k) =>
          ghost var all := CurrentBytes();
          var taken := Taken(k);
          if taken == 0 {
            return HardError, [];
          }
          sent := all[..taken];
          RemoveSent(taken);
          res := Incomplete;
        case Blocked => res := SoftError;
        case Broken => res := HardError;
      }
    }

    ghost method CurrentBytes() returns (all: seq<byte>)
      requires Bounds() && SendOk(Pending()) && msgcurr < msgused
      ensures MsgEnd(Pending().msgs[msgcurr]) <= iovused && all == Current(Pending())
    {
      all := Current(Pending());
    }

    /** What the kernel takes of the current message. */
    method Taken(k: nat) returns (n: nat)
      requires Bounds() && SendOk(Pending()) && msgcurr < msgused
      ensures MsgEnd(Pending().msgs[msgcurr]) <= iovused && n == Min(k, |Current(Pending())|)
    {
      var m := msglist[msgcurr];
      assert m == msglist[..msgused][msgcurr] && MsgEnd(m) <= iovused;
      n := Min(k, |Wire(iov[m.start..MsgEnd(m)])|);
      assert iov[..iovused][m.start..MsgEnd(m)] == iov[m.start..MsgEnd(m)];
    }

    /** The loop over the completed entries, and the trimming of the one sent in part. */
    method RemoveSent(n: nat)
      requires Bounds() && SendOk(Pending()) && msgcurr < msgused
      requires MsgEnd(Pending().msgs[msgcurr]) <= iovused && n <= |Current(Pending())|
      modifies iov, msglist
      ensures Pending() == Advance(old(Pending()), n)
    {
      DropSentBytes(Pending().iov, Pending().msgs[msgcurr], n);
      ghost var all, m0 := iov[..iovused], msglist[..msgused][msgcurr];
      hide SendOk, Entries, Wire;
      var m: Msg, res: nat := msglist[msgcurr], n;
      while m.len > 0 && res >= |iov[m.start].data|
        invariant iov[..iovused] == all && MsgEnd(m) <= iovused && DropSent(all, m, res) == DropSent(all, m0, n)
        decreases m.len
      {
        assert iov[m.start] == all[m.start];
        res := res - |iov[m.start].data|;
        m := Msg(m.start + 1, m.len - 1);
      }
      assert m.len > 0 ==> iov[m.start] == all[m.start];
      msglist[msgcurr] := m;
      if res > 0 {
        iov[m.start] := Trim(iov[m.start], res);
      }
    }
  }

  lemma LastOpen(c: Out)
    requires Shape(c, true)
    ensures c.msgs != [] && MsgEnd(c.msgs[|c.msgs| - 1]) == |c.iov|
  {
    hide Chained, MsgsOk, SizesOk, Wire;
  }

  /** A first message counts its bytes anew. */
  lemma AnyMsgbytes(c: Out, msgbytes: nat)
    ensures AddMsg(c) == AddMsg(c.(msgbytes := msgbytes))
  {
  }
}
