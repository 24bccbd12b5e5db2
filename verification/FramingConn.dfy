/** The input side of a memcached connection over its buffer: rbuf, rcurr, rbytes, rsize.
    Each method computes the function of module Framing on the value of the connection. */
module FramingConn {
  import opened Framing

  class Connection {
    const srv: Server
    var state: State
    var go: State
    var rbuf: array<char>       // rsize is its length
    var rcurr: nat
    var rbytes: nat
    var item: string
    var rlbytes: nat
    var sbytes: nat
    var cut: bool
    var hist: seq<Event>
    var unread: string          // the client's side of the socket

    ghost predicate Valid()
      reads this
    {
      rcurr + rbytes <= rbuf.Length && rbuf.Length > 0
    }

    ghost function Value(): Conn
      requires Valid()
      reads this, rbuf
    {
      Conn(state, go, rbuf[rcurr..rcurr + rbytes], rbuf.Length, item, rlbytes, sbytes, hist, unread, cut)
    }

    constructor (srv: Server, stream: string)
      ensures Valid() && Value() == Fresh(stream) && this.srv == srv && fresh(rbuf)
    {
      this.srv := srv;
      state, go := ConnRead, ConnRead;
      rbuf := new char[DATA_BUFFER_SIZE];
      rcurr, rbytes, rlbytes, sbytes := 0, 0, 0, 0;
      item, hist, unread, cut := "", [], stream, false;
    }

    /** The read system call into the free part of the buffer: it returns 0 when it would block. */
    method ReadBytes(k: nat, avail: nat) returns (n: nat)
      requires Valid() && rcurr == 0 && rbytes + avail <= rbuf.Length
      modifies this`rbytes, this`unread, rbuf
      ensures Valid() && n == old(Got(Value(), k, avail))
      ensures Value() == old(Value()).(window := old(Value().window + unread[..n]), unread := old(unread)[n..])
      ensures rbytes == old(rbytes) + n
    {
      n := Min(Min(k, avail), |unread|);
      forall i | 0 <= i < n {
        rbuf[rbytes + i] := unread[i];
      }
      rbytes := rbytes + n;
      unread := unread[n..];
    }

    /** realloc to a larger or smaller buffer, the bytes moved to its start. */
    method Resize(size: nat)
      requires Valid() && 0 < size && rbytes <= size
      modifies this`rbuf, this`rcurr
      ensures Valid() && rcurr == 0 && fresh(rbuf) && rbuf.Length == size
      ensures Value() == old(Value()).(rsize := size)
    {
      var b := new char[size];
      forall i | 0 <= i < rbytes {
        b[i] := rbuf[rcurr + i];
      }
      assert b[..rbytes] == rbuf[rcurr..rcurr + rbytes];
      rbuf, rcurr := b, 0;
    }

    /** conn_set_state, with conn_shrink */
    method ConnSetState(s: State)
      requires Valid()
      modifies this`state, this`rbuf, this`rcurr
      ensures Valid() && (rbuf == old(rbuf) || fresh(rbuf)) && Value() == SetState(old(Value()), s)
    {
      if s != state {
        if s == ConnRead && rbuf.Length > READ_BUFFER_HIGHWAT && rbytes < DATA_BUFFER_SIZE {
          Resize(DATA_BUFFER_SIZE);
        }
        state := s;
      }
    }

    /** memchr over the window */
    method FindLineEnd() returns (el: nat)
      requires Valid()
      ensures el == LineEnd(Value().window)
    {
      el := 0;
      ghost var w := Value().window;
      while el < rbytes && rbuf[rcurr + el] != '\n'
        invariant 0 <= el <= rbytes
        invariant LineEnd(w) == el + LineEnd(w[el..])
      {
        assert w[el] == rbuf[rcurr + el] && w[el..][1..] == w[el + 1..];
        el := el + 1;
      }
      assert el < rbytes ==> w[el..][0] == rbuf[rcurr + el];
    }

    /** process_command, as far as input is concerned */
    method ProcessCommand(act: Action)
      requires Valid()
      modifies this`state, this`go, this`item, this`rlbytes, this`sbytes, this`rbuf, this`rcurr
      ensures Valid() && (rbuf == old(rbuf) || fresh(rbuf)) && Value() == Obey(old(Value()), act)
    {
      match act {
        case Reply => state, go := ConnWrite, ConnRead;
        case Silent => ConnSetState(ConnRead);
        case Nread(n) => state, item, rlbytes := ConnNread, "", n;
        case Swallow(n) => state, go, sbytes := ConnWrite, ConnSwallow, n;
        case Close => state := ConnClosing;
      }
    }

    /** The command line up to the line end at offset el. */
    method CommandText(el: nat) returns (command: string)
      requires Valid() && el < rbytes && Value().window[el] == '\n'
      ensures command == Strip(Value().window[..el + 1])
    {
      ghost var w := Value().window;
      var end := el;
      if end > 1 && rbuf[rcurr + end - 1] == '\r' {
        end := end - 1;
      }
      command := rbuf[rcurr..rcurr + end];
      assert el > 0 ==> w[el - 1] == rbuf[rcurr + el - 1];
      assert command == w[..end];
      assert w[..el + 1][..end] == w[..end];
    }

    /** try_read_command */
    method TryReadCommand() returns (done: bool)
      requires Valid()
      modifies this
      ensures Valid() && (rbuf == old(rbuf) || fresh(rbuf))
      ensures var c := old(Value());
        done == (LineEnd(c.window) < |c.window|) && Value() == if done then TakeLine(srv, c) else c
    {
      var el := FindLineEnd();
      if el == rbytes {
        return false;
      }
      HandOn(el);
      done := true;
    }

    /** The line that ends at offset el is handed on. */
    method HandOn(el: nat)
      requires Valid() && el < rbytes && el == LineEnd(Value().window) && Value().window[el] == '\n'
      modifies this
      ensures Valid() && (rbuf == old(rbuf) || fresh(rbuf)) && Value() == TakeLine(srv, old(Value()))
    {
      hide Strip, Obey, LineEnd;
      TakeText(el);
      ProcessCommand(srv(hist));
    }

    method TakeText(el: nat)
      requires Valid() && el < rbytes && Value().window[el] == '\n'
      modifies this`hist, this`rcurr, this`rbytes
      ensures Valid()
      ensures Value() == old(Value()).(hist := hist, window := old(Value().window[el + 1..]))
      ensures hist == old(hist) + [Line(Strip(old(Value().window[..el + 1])))]
    {
      hide Strip;
      var command := CommandText(el);
      hist := hist + [Line(command)];
      var line := UseWindow(el + 1);
    }

    /** The bytes that are left move to the start of the buffer. */
    method Align()
      requires Valid()
      modifies this`rcurr, rbuf
      ensures Valid() && rcurr == 0 && Value() == old(Value())
    {
      if rcurr != 0 {
        ghost var w := Value().window;
        forall i | 0 <= i < rbytes {
          rbuf[i] := rbuf[rcurr + i];
        }
        rcurr := 0;
        assert Value().window == w;
      }
    }

    method Grow()
      requires Valid() && rcurr == 0
      modifies this`rbuf, this`rcurr
      ensures Valid() && rcurr == 0 && (rbuf == old(rbuf) || fresh(rbuf)) && rbytes < rbuf.Length
      ensures Value() == Grown(old(Value()))
    {
      if rbytes >= rbuf.Length {
        Resize(rbuf.Length * 2);
      }
    }

    /** try_read_network */
    method TryReadNetwork(inputs: seq<Read>) returns (gotdata: bool)
      requires Valid()
      modifies this`state, this`rbuf, this`rcurr, this`rbytes, this`unread, this`cut, rbuf
      ensures Valid() && (rbuf == old(rbuf) || fresh(rbuf))
      ensures (Value(), gotdata) == NetRead(old(Value()), inputs)
    {
      hide ReadOnce, Grown;
      Align();
      gotdata := false;
      ghost var start := Value();
      var rest, going := inputs, true;
      while going
        invariant Valid() && rcurr == 0 && (rbuf == old(rbuf) || fresh(rbuf))
        invariant going ==> NetRead(start, inputs) == (NetRead(Value(), rest).0, gotdata || NetRead(Value(), rest).1)
        invariant !going ==> NetRead(start, inputs) == (Value(), gotdata)
        decreases |rest|, going
      {
        Grow();
        if rest == [] {
          going := false;
        } else {
          var got;
          got, going := ReadStep(rest[0]);
          gotdata := gotdata || got;
          rest := rest[1..];
        }
      }
    }

    /** One read into the free part of the buffer. */
    method ReadStep(input: Read) returns (got: bool, going: bool)
      requires Valid() && rcurr == 0 && rbytes <= rbuf.Length
      modifies this`state, this`rbytes, this`unread, this`cut, rbuf
      ensures Valid() && (Value(), got, going) == ReadOnce(old(Value()), input)
      ensures going ==> got
    {
      match input {
        case Data(k) =>
          var avail := rbuf.Length - rbytes;
          var n := ReadBytes(k, avail);
          got, going := n > 0, n > 0 && n == avail;
        case Again =>
          got, going := false, false;
        case Eof =>
          state, cut, got, going := ConnClosing, true, true, false;
        case Failed =>
          state, cut, got, going := ConnClosing, true, true, false;
      }
    }

    method CompleteNread()
      requires Valid()
      modifies this`state, this`go, this`hist, this`rbuf, this`rcurr
      ensures Valid() && (rbuf == old(rbuf) || fresh(rbuf)) && Value() == Framing.CompleteNread(srv, old(Value()))
    {
      hist := hist + [Block(item)];
      if srv(hist).Silent? {
        ConnSetState(ConnRead);
      } else {
        state, go := ConnWrite, ConnRead;
      }
    }

    /** Leftovers in the buffer, n of them, are used. */
    method UseWindow(n: nat) returns (bytes: string)
      requires Valid() && n <= rbytes
      modifies this`rcurr, this`rbytes
      ensures Valid() && bytes == old(Value().window[..n])
      ensures Value() == old(Value()).(window := old(Value().window[n..]))
    {
      Slices(rbuf[..], rcurr, rbytes, n);
      bytes := rbuf[rcurr..rcurr + n];
      rcurr := rcurr + n;
      rbytes := rbytes - n;
    }

    /** A read past the empty buffer. */
    method ReadPast(io: Io, avail: nat) returns (stop: bool)
      requires Valid() && (state == ConnNread || state == ConnSwallow)
      modifies this`state, this`cut, this`item, this`rlbytes, this`sbytes, this`unread
      ensures Valid() && (Value(), stop) == ReadInto(old(Value()), io, avail)
    {
      if io.inputs == [] {
        return true;
      }
      match io.inputs[0] {
        case Data(k) =>
          var n := Min(Min(k, avail), |unread|);
          if n == 0 {
            return true;
          }
          if state == ConnNread {
            item := item + unread[..n];
            rlbytes := if n <= rlbytes then rlbytes - n else 0;
          } else {
            sbytes := if n <= sbytes then sbytes - n else 0;
          }
          unread := unread[n..];
          stop := false;
        case Again =>
          stop := true;
        case Eof =>
          state, cut, stop := ConnClosing, true, false;
        case Failed =>
          state, cut, stop := ConnClosing, true, false;
      }
    }

    /** One round of the loop of drive_machine. */
    method Round(io: Io) returns (stop: bool)
      requires Valid()
      modifies this, rbuf
      ensures Valid() && (rbuf == old(rbuf) || fresh(rbuf))
      ensures (Value(), stop) == Pass(srv, old(Value()), io)
    {
      hide Pass;
      match state {
        case ConnRead => stop := RoundRead(io);
        case ConnNread => stop := RoundNread(io);
        case ConnSwallow => stop := RoundSwallow(io);
        case ConnWrite => stop := RoundWrite(io);
        case ConnClosing =>
          stop := true;
          ClosingPass(srv, Value(), io);
      }
    }

    method RoundRead(io: Io) returns (stop: bool)
      requires Valid() && state == ConnRead
      modifies this, rbuf
      ensures Valid() && (rbuf == old(rbuf) || fresh(rbuf))
      ensures (Value(), stop) == Pass(srv, old(Value()), io)
    {
      hide TakeLine, NetRead, LineEnd;
      var done := TryReadCommand();
      if done {
        stop := false;
      } else if io.requestsLeft {
        var more := TryReadNetwork(io.inputs);
        stop := !more;
      } else {
        stop := true;
      }
    }

    method RoundNread(io: Io) returns (stop: bool)
      requires Valid() && state == ConnNread
      modifies this, rbuf
      ensures Valid() && (rbuf == old(rbuf) || fresh(rbuf))
      ensures (Value(), stop) == Pass(srv, old(Value()), io)
    {
      hide Framing.CompleteNread, ReadInto;
      if rlbytes == 0 {
        CompleteNread();
        stop := false;
      } else if rbytes > 0 {
        var n := Min(rbytes, rlbytes);
        var bytes := UseWindow(n);
        item, rlbytes, stop := item + bytes, rlbytes - n, false;
      } else {
        stop := ReadPast(io, rlbytes);
      }
    }

    method RoundSwallow(io: Io) returns (stop: bool)
      requires Valid() && state == ConnSwallow
      modifies this, rbuf
      ensures Valid() && (rbuf == old(rbuf) || fresh(rbuf))
      ensures (Value(), stop) == Pass(srv, old(Value()), io)
    {
      hide ReadInto, SetState;
      if sbytes == 0 {
        ConnSetState(ConnRead);
        stop := false;
      } else if rbytes > 0 {
        var n := Min(rbytes, sbytes);
        var bytes := UseWindow(n);
        sbytes, stop := sbytes - n, false;
      } else {
        stop := ReadPast(io, Min(rbuf.Length, sbytes));
      }
    }

    method RoundWrite(io: Io) returns (stop: bool)
      requires Valid() && state == ConnWrite
      modifies this, rbuf
      ensures Valid() && (rbuf == old(rbuf) || fresh(rbuf))
      ensures (Value(), stop) == Pass(srv, old(Value()), io)
    {
      hide SetState;
      match io.transmit {
        case Complete =>
          ConnSetState(go);
          stop := false;
        case SoftError =>
          stop := true;
        case HardError =>
          state, cut, stop := ConnClosing, true, false;
      }
    }

    /** drive_machine over any number of rounds. */
    method DriveMachine(ios: seq<Io>)
      requires Valid()
      modifies this, rbuf
      ensures Valid() && Value() == Run(srv, old(Value()), ios)
    {
      ghost var start := Value();
      var rest := ios;
      while rest != []
        invariant Valid() && (rbuf == old(rbuf) || fresh(rbuf))
        invariant Run(srv, Value(), rest) == Run(srv, start, ios)
        decreases |rest|
      {
        var stop := Round(rest[0]);
        rest := rest[1..];
      }
    }
  }

  lemma Slices<T>(s: seq<T>, a: nat, len: nat, n: nat)
    requires a + len <= |s| && n <= len
    ensures s[a..a + len][..n] == s[a..a + n] && s[a..a + len][n..] == s[a + n..a + len]
  {
    var w := s[a..a + len];
    forall i | 0 <= i < n ensures w[..n][i] == s[a..a + n][i] {
      assert w[i] == s[a + i];
    }
    forall i | 0 <= i < len - n ensures w[n..][i] == s[a + n..a + len][i] {
      assert w[n + i] == s[a + (n + i)];
    }
  }

  lemma ClosingPass(srv: Server, c: Conn, io: Io)
    requires c.state == ConnClosing
    ensures Pass(srv, c, io) == (c, true)
  {
  }
}
