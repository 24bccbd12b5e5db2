/** Input framing of memcached connections: how drive_machine, try_read_command,
    try_read_network and conn_shrink cut a TCP stream into command lines and data blocks.

    `Feed` is the reference: it takes the stream one byte at a time and has no buffer.
    `Pass` is one round of the loop of drive_machine, with a buffer that is filled by reads
    of any length. */
module Framing {

  const DATA_BUFFER_SIZE: nat := 2048
  const READ_BUFFER_HIGHWAT: nat := 8192

  /** What is handed on: a command line, or the data block of a storage command. */
  datatype Event = Line(text: string) | Block(data: string)

  /** What processing a line leads to.  A block is always followed by the next line. */
  datatype Action = Reply | Silent | Nread(n: nat) | Swallow(n: nat) | Close

  /** The rest of the server: its next move after all it has been handed so far. */
  type Server = seq<Event> -> Action

  // ---- the reference: one byte at a time ----------------------------------------------------

  datatype Mode = Reading | Filling(got: string, left: nat) | Swallowing(left: nat) | Closed

  datatype Ref = Ref(hist: seq<Event>, mode: Mode, acc: string)

  /** A command line without its line end.  A '\r' that is all there is before the '\n' stays. */
  function Strip(line: string): string
    requires line != []
  {
    var el := |line| - 1;
    if el > 1 && line[el - 1] == '\r' then line[..el - 1] else line[..el]
  }

  function Settle(r: Ref): Ref {
    if r.mode.Filling? && r.mode.left == 0 then Ref(r.hist + [Block(r.mode.got)], Reading, "")
    else if r.mode == Swallowing(0) then Ref(r.hist, Reading, "")
    else r
  }

  function ModeAfter(act: Action): Mode {
    match act
    case Reply => Reading
    case Silent => Reading
    case Nread(n) => Filling("", n)
    case Swallow(n) => Swallowing(n)
    case Close => Closed
  }

  function Deliver(srv: Server, hist: seq<Event>, line: string): Ref
    requires line != []
  {
    var h := hist + [Line(Strip(line))];
    Settle(Ref(h, ModeAfter(srv(h)), ""))
  }

  function Byte(srv: Server, r: Ref, c: char): Ref {
    match r.mode
    case Reading =>
      if c == '\n' then Deliver(srv, r.hist, r.acc + [c]) else Ref(r.hist, Reading, r.acc + [c])
    case Filling(got, left) => Settle(Ref(r.hist, Filling(got + [c], if left == 0 then 0 else left - 1), ""))
    case Swallowing(left) => Settle(Ref(r.hist, Swallowing(if left == 0 then 0 else left - 1), ""))
    case Closed => r
  }

  function Feed(srv: Server, r: Ref, s: string): Ref
    decreases |s|
  {
    if s == [] then r else Feed(srv, Byte(srv, r, s[0]), s[1..])
  }

  // ---- the connection --------------------------------------------------------------------------

  datatype State = ConnRead | ConnNread | ConnSwallow | ConnWrite | ConnClosing

  datatype Conn = Conn(
    state: State,
    go: State,           // write_and_go
    window: string,      // the rbytes bytes at rcurr
    rsize: nat,
    item: string,        // what ritem has been filled with
    rlbytes: nat,
    sbytes: nat,
    hist: seq<Event>,    // all that was handed on
    unread: string,      // what the client sent that has not been read
    cut: bool)           // closed because a read or a write failed or the stream ended

  /** The outcome of one read system call. */
  datatype Read = Data(k: nat) | Again | Eof | Failed

  datatype Transmit = Complete | SoftError | HardError

  /** The outcomes of the system calls in one round of drive_machine. */
  datatype Io = Io(inputs: seq<Read>, requestsLeft: bool, transmit: Transmit)

  function Min(a: nat, b: nat): nat {
    if a < b then a else b
  }

  /** The bytes a read returns when `avail` are asked for: at least one, or it would block. */
  function Got(c: Conn, k: nat, avail: nat): nat {
    Min(Min(k, avail), |c.unread|)
  }

  /** conn_shrink, as far as the read buffer goes */
  function Shrink(c: Conn): Conn {
    if c.rsize > READ_BUFFER_HIGHWAT && |c.window| < DATA_BUFFER_SIZE then c.(rsize := DATA_BUFFER_SIZE) else c
  }

  /** conn_set_state */
  function SetState(c: Conn, state: State): Conn {
    if state != c.state && state == ConnRead then Shrink(c).(state := state) else c.(state := state)
  }

  function Cut(c: Conn): Conn {
    c.(state := ConnClosing, cut := true)
  }

  /** Index of the first line end, or the length if there is none: memchr */
  function LineEnd(s: string): (i: nat)
    ensures i <= |s|
    ensures i < |s| ==> s[i] == '\n'
    ensures forall j :: 0 <= j < i ==> s[j] != '\n'
  {
    if s == [] || s[0] == '\n' then 0 else 1 + LineEnd(s[1..])
  }

  /** What process_command leaves behind. */
  function Obey(c: Conn, act: Action): Conn {
    match act
    case Reply => c.(state := ConnWrite, go := ConnRead)
    case Silent => SetState(c, ConnRead)
    case Nread(n) => c.(state := ConnNread, item := "", rlbytes := n)
    case Swallow(n) => c.(state := ConnWrite, go := ConnSwallow, sbytes := n)
    case Close => c.(state := ConnClosing)
  }

  /** try_read_command, when the window holds a line */
  function TakeLine(srv: Server, c: Conn): Conn
    requires LineEnd(c.window) < |c.window|
  {
    var end := LineEnd(c.window) + 1;
    var h := c.hist + [Line(Strip(c.window[..end]))];
    Obey(c.(hist := h, window := c.window[end..]), srv(h))
  }

  /** A full buffer is doubled. */
  function Grown(c: Conn): Conn {
    if |c.window| >= c.rsize then c.(rsize := c.rsize * 2) else c
  }

  /** try_read_network: the connection, and whether the caller is to go on */
  function NetRead(c: Conn, inputs: seq<Read>): (Conn, bool)
    decreases |inputs|
  {
    var d := Grown(c);
    if inputs == [] then (d, false)
    else
      var (e, got, going) := ReadOnce(d, inputs[0]);
      if going then (NetRead(e, inputs[1..]).0, true) else (e, got)
  }

  /** One read of try_read_network: the connection, whether it got data or ended, and whether
      it filled the buffer, so that there may be more. */
  function ReadOnce(d: Conn, input: Read): (Conn, bool, bool) {
    match input
    case Data(k) =>
      var avail := if |d.window| < d.rsize then d.rsize - |d.window| else 0;
      var n := Got(d, k, avail);
      (d.(window := d.window + d.unread[..n], unread := d.unread[n..]), n > 0, n > 0 && n == avail)
    case Again => (d, false, false)
    case Eof => (Cut(d), true, false)
    case Failed => (Cut(d), true, false)
  }

  /** complete_nread */
  function CompleteNread(srv: Server, c: Conn): Conn {
    var h := c.hist + [Block(c.item)];
    var d := c.(hist := h);
    if srv(h).Silent? then SetState(d, ConnRead) else d.(state := ConnWrite, go := ConnRead)
  }

  /** One round of the loop of drive_machine: the connection, and whether the loop stops. */
  function Pass(srv: Server, c: Conn, io: Io): (Conn, bool) {
    match c.state
    case ConnRead =>
      if LineEnd(c.window) < |c.window| then (TakeLine(srv, c), false)
      else if io.requestsLeft then
        var (d, more) := NetRead(c, io.inputs);
        (d, !more)
      else (c, true)
    case ConnNread =>
      if c.rlbytes == 0 then (CompleteNread(srv, c), false)
      else if c.window != [] then
        var n := Min(|c.window|, c.rlbytes);
        (c.(item := c.item + c.window[..n], rlbytes := c.rlbytes - n, window := c.window[n..]), false)
      else ReadInto(c, io, c.rlbytes)
    case ConnSwallow =>
      if c.sbytes == 0 then (SetState(c, ConnRead), false)
      else if c.window != [] then
        var n := Min(|c.window|, c.sbytes);
        (c.(sbytes := c.sbytes - n, window := c.window[n..]), false)
      else ReadInto(c, io, Min(c.rsize, c.sbytes))
    case ConnWrite =>
      (match io.transmit
       case Complete => (SetState(c, c.go), false)
       case SoftError => (c, true)
       case HardError => (Cut(c), false))
    case ConnClosing => (c, true)
  }

  /** A read past the empty buffer, straight into the item or to be thrown away. */
  function ReadInto(c: Conn, io: Io, avail: nat): (Conn, bool) {
    if io.inputs == [] then (c, true)
    else
      match io.inputs[0]
      case Data(k) =>
        var n := Got(c, k, avail);
        if n == 0 then (c, true)
        else if c.state == ConnNread then
          (c.(item := c.item + c.unread[..n], rlbytes := if n <= c.rlbytes then c.rlbytes - n else 0,
              unread := c.unread[n..]), false)
        else (c.(sbytes := if n <= c.sbytes then c.sbytes - n else 0, unread := c.unread[n..]), false)
      case Again => (c, true)
      case Eof => (Cut(c), false)
      case Failed => (Cut(c), false)
  }

  function Run(srv: Server, c: Conn, ios: seq<Io>): Conn
    decreases |ios|
  {
    if ios == [] then c else Run(srv, Pass(srv, c, ios[0]).0, ios[1..])
  }

  /** A fresh connection to which the client will send `stream`. */
  function Fresh(stream: string): Conn {
    Conn(ConnRead, ConnRead, "", DATA_BUFFER_SIZE, "", 0, 0, [], stream, false)
  }

  // ---- facts about the reference -------------------------------------------------------------------

  lemma {:induction false} FeedConcat(srv: Server, r: Ref, s: string, t: string)
    ensures Feed(srv, r, s + t) == Feed(srv, Feed(srv, r, s), t)
    decreases |s|
  {
    hide Byte;
    if s == [] {
      assert s + t == t;
    } else {
      FeedConcat(srv, Byte(srv, r, s[0]), s[1..], t);
      assert (s + t)[1..] == s[1..] + t;
    }
  }

  lemma {:induction false} FeedNoLine(srv: Server, hist: seq<Event>, acc: string, s: string)
    requires '\n' !in s
    ensures Feed(srv, Ref(hist, Reading, acc), s) == Ref(hist, Reading, acc + s)
    decreases |s|
  {
    if s == [] {
      assert acc + s == acc;
    } else {
      FeedNoLine(srv, hist, acc + [s[0]], s[1..]);
      assert acc + [s[0]] + s[1..] == acc + s;
    }
  }

  lemma FeedLine(srv: Server, hist: seq<Event>, s: string)
    requires s != [] && s[|s| - 1] == '\n' && '\n' !in s[..|s| - 1]
    ensures Feed(srv, Ref(hist, Reading, ""), s) == Deliver(srv, hist, s)
  {
    var body, end := s[..|s| - 1], [s[|s| - 1]];
    assert s == body + end && "" + body == body;
    FeedConcat(srv, Ref(hist, Reading, ""), body, end);
    FeedNoLine(srv, hist, "", body);
    assert end[1..] == [];
    assert Feed(srv, Ref(hist, Reading, body), end) == Byte(srv, Ref(hist, Reading, body), '\n');
  }

  lemma {:induction false} FeedFill(srv: Server, hist: seq<Event>, got: string, left: nat, s: string)
    requires |s| <= left
    ensures Feed(srv, Settle(Ref(hist, Filling(got, left), "")), s) ==
            Settle(Ref(hist, Filling(got + s, left - |s|), ""))
    decreases |s|
  {
    if s == [] {
      assert got + s == got;
    } else {
      FeedFill(srv, hist, got + [s[0]], left - 1, s[1..]);
      assert got + [s[0]] + s[1..] == got + s;
    }
  }

  lemma {:induction false} FeedSwallow(srv: Server, hist: seq<Event>, left: nat, s: string)
    requires |s| <= left
    ensures Feed(srv, Settle(Ref(hist, Swallowing(left), "")), s) == Settle(Ref(hist, Swallowing(left - |s|), ""))
  {
    if s != [] {
      FeedSwallow(srv, hist, left - 1, s[1..]);
    }
  }

  lemma {:induction false} FeedClosed(srv: Server, r: Ref, s: string)
    requires r.mode == Closed
    ensures Feed(srv, r, s) == r
  {
    if s != [] {
      FeedClosed(srv, r, s[1..]);
    }
  }

  lemma {:induction false} FeedGrows(srv: Server, r: Ref, s: string)
    ensures r.hist <= Feed(srv, r, s).hist
    decreases |s|
  {
    hide Strip;
    if s != [] {
      FeedGrows(srv, Byte(srv, r, s[0]), s[1..]);
    }
  }

  // ---- the invariant ----------------------------------------------------------------------------------

  /** The reference state that a connection stands for, its buffer apart. */
  function Abs(c: Conn): Ref {
    match if c.state == ConnWrite then c.go else c.state
    case ConnRead => Ref(c.hist, Reading, "")
    case ConnNread => Settle(Ref(c.hist, Filling(c.item, c.rlbytes), ""))
    case ConnSwallow => Settle(Ref(c.hist, Swallowing(c.sbytes), ""))
    case ConnWrite => Ref(c.hist, Reading, "")
    case ConnClosing => Ref(c.hist, Closed, "")
  }

  const START := Ref([], Reading, "")

  /** What was handed on, the buffer and the unread bytes make up the stream. */
  ghost predicate Sound(srv: Server, c: Conn, stream: string) {
    (c.go == ConnRead || c.go == ConnSwallow) && c.rsize > 0
    && (!c.cut ==> Feed(srv, Abs(c), c.window + c.unread) == Feed(srv, START, stream))
    && (c.cut ==> c.state == ConnClosing && c.hist <= Feed(srv, START, stream).hist)
  }

  lemma CutSound(srv: Server, c: Conn, stream: string)
    requires Sound(srv, c, stream) && !c.cut
    requires c.state == ConnRead || c.state == ConnNread || c.state == ConnSwallow || c.state == ConnWrite
    ensures Sound(srv, Cut(c), stream)
  {
    FeedGrows(srv, Abs(c), c.window + c.unread);
    assert c.hist <= Abs(c).hist;
  }

  lemma GrownSound(srv: Server, c: Conn, stream: string)
    requires Sound(srv, c, stream) && c.state == ConnRead && !c.cut
    ensures Sound(srv, Grown(c), stream) && Grown(c).state == ConnRead && !Grown(c).cut
  {
    hide Feed;
  }

  lemma MoveSound(srv: Server, c: Conn, n: nat, stream: string)
    requires Sound(srv, c, stream) && c.state == ConnRead && n <= |c.unread|
    ensures Sound(srv, c.(window := c.window + c.unread[..n], unread := c.unread[n..]), stream)
  {
    hide Feed;
    assert c.window + c.unread == (c.window + c.unread[..n]) + c.unread[n..];
  }

  /** Moving bytes from unread to the window, and resizing, change nothing. */
  lemma {:induction false} NetReadSound(srv: Server, c: Conn, inputs: seq<Read>, stream: string)
    requires Sound(srv, c, stream) && c.state == ConnRead && !c.cut
    ensures Sound(srv, NetRead(c, inputs).0, stream)
    decreases |inputs|
  {
    hide Sound, Feed, Grown;
    var d := Grown(c);
    GrownSound(srv, c, stream);
    if inputs != [] {
      match inputs[0] {
        case Data(k) =>
          var avail := if |d.window| < d.rsize then d.rsize - |d.window| else 0;
          var n := Got(d, k, avail);
          MoveSound(srv, d, n, stream);
          if n > 0 && n == avail {
            NetReadSound(srv, d.(window := d.window + d.unread[..n], unread := d.unread[n..]), inputs[1..], stream);
          }
        case Again =>
        case Eof => CutSound(srv, d, stream);
        case Failed => CutSound(srv, d, stream);
      }
    }
  }

  lemma TakeLineSound(srv: Server, c: Conn, stream: string)
    requires Sound(srv, c, stream) && c.state == ConnRead && !c.cut && LineEnd(c.window) < |c.window|
    ensures Sound(srv, TakeLine(srv, c), stream)
  {
    var end := LineEnd(c.window) + 1;
    var line, rest := c.window[..end], c.window[end..] + c.unread;
    assert c.window + c.unread == line + rest;
    var d := TakeLine(srv, c);
    TakeLineAbs(srv, c);
    FirstLine(c.window);
    hide Deliver, Strip, TakeLine, LineEnd, Abs;
    assert Abs(c) == Ref(c.hist, Reading, "");
    FeedConcat(srv, Abs(c), line, rest);
    FeedLine(srv, c.hist, line);
  }

  lemma FirstLine(w: string)
    requires LineEnd(w) < |w|
    ensures var line := w[..LineEnd(w) + 1]; line != [] && line[|line| - 1] == '\n' && '\n' !in line[..|line| - 1]
  {
  }

  lemma TakeLineAbs(srv: Server, c: Conn)
    requires LineEnd(c.window) < |c.window| && c.state == ConnRead
    ensures var end := LineEnd(c.window) + 1; var d := TakeLine(srv, c);
      && Abs(c) == Ref(c.hist, Reading, "")
      && Abs(d) == Deliver(srv, c.hist, c.window[..end])
      && d.window == c.window[end..] && d.unread == c.unread && d.cut == c.cut && (c.rsize > 0 ==> d.rsize > 0)
      && (d.go == c.go || d.go == ConnRead || d.go == ConnSwallow)
  {
    hide Strip, LineEnd;
  }

  /** Bytes of the block, from the buffer or from the socket. */
  lemma FillSound(srv: Server, c: Conn, n: nat, bytes: string, rest: string, stream: string)
    requires Sound(srv, c, stream) && c.state == ConnNread && !c.cut && n <= c.rlbytes && |bytes| == n
    requires c.window + c.unread == bytes + rest
    ensures Feed(srv, Abs(c.(item := c.item + bytes, rlbytes := c.rlbytes - n)), rest) == Feed(srv, START, stream)
  {
    FeedConcat(srv, Abs(c), bytes, rest);
    FeedFill(srv, c.hist, c.item, c.rlbytes, bytes);
  }

  lemma SwallowSound(srv: Server, c: Conn, n: nat, bytes: string, rest: string, stream: string)
    requires Sound(srv, c, stream) && c.state == ConnSwallow && !c.cut && n <= c.sbytes && |bytes| == n
    requires c.window + c.unread == bytes + rest
    ensures Feed(srv, Abs(c.(sbytes := c.sbytes - n)), rest) == Feed(srv, START, stream)
  {
    FeedConcat(srv, Abs(c), bytes, rest);
    FeedSwallow(srv, c.hist, c.sbytes, bytes);
  }

  /** Bytes of the block or of the swallowed data, straight from the socket. */
  lemma ReadDataSound(srv: Server, c: Conn, n: nat, stream: string)
    requires Sound(srv, c, stream) && !c.cut && c.window == [] && n <= |c.unread|
    requires (c.state == ConnNread && n <= c.rlbytes) || (c.state == ConnSwallow && n <= c.sbytes)
    ensures var d := c.(unread := c.unread[n..]);
            Sound(srv, if c.state == ConnNread then d.(item := c.item + c.unread[..n], rlbytes := c.rlbytes - n)
                       else d.(sbytes := c.sbytes - n), stream)
  {
    hide Feed, Settle, Abs;
    var bytes, rest := c.unread[..n], c.unread[n..];
    assert c.window + c.unread == bytes + rest && [] + rest == rest;
    if c.state == ConnNread {
      FillSound(srv, c, n, bytes, rest, stream);
      assert Abs(c.(item := c.item + bytes, rlbytes := c.rlbytes - n)) ==
             Abs(c.(unread := rest, item := c.item + bytes, rlbytes := c.rlbytes - n)) by {
        SameAbs(c, rest, c.item + bytes, c.rlbytes - n);
      }
    } else {
      SwallowSound(srv, c, n, bytes, rest, stream);
      assert Abs(c.(sbytes := c.sbytes - n)) == Abs(c.(unread := rest, sbytes := c.sbytes - n)) by {
        SameSwallow(c, rest, c.sbytes - n);
      }
    }
  }

  lemma SameAbs(c: Conn, rest: string, item: string, left: nat)
    ensures Abs(c.(item := item, rlbytes := left)) == Abs(c.(unread := rest, item := item, rlbytes := left))
  {
    hide Settle;
  }

  lemma SameSwallow(c: Conn, rest: string, left: nat)
    ensures Abs(c.(sbytes := left)) == Abs(c.(unread := rest, sbytes := left))
  {
    hide Settle;
  }

  lemma ReadIntoSound(srv: Server, c: Conn, io: Io, avail: nat, stream: string)
    requires Sound(srv, c, stream) && !c.cut && c.window == []
    requires (c.state == ConnNread && avail == c.rlbytes) || (c.state == ConnSwallow && avail <= c.sbytes)
    ensures Sound(srv, ReadInto(c, io, avail).0, stream)
  {
    if io.inputs != [] {
      match io.inputs[0] {
        case Data(k) =>
          ReadDataSound(srv, c, Got(c, k, avail), stream);
          hide Sound;
        case Again =>
        case Eof => CutSound(srv, c, stream);
          hide Sound;
        case Failed => CutSound(srv, c, stream);
          hide Sound;
      }
    }
  }

  lemma SplitAt(w: string, u: string, n: nat)
    requires n <= |w|
    ensures w + u == w[..n] + (w[n..] + u)
  {
  }

  /** A block is filled from the window first, then from the socket. */
  lemma NreadSound(srv: Server, c: Conn, io: Io, stream: string)
    requires Sound(srv, c, stream) && !c.cut && c.state == ConnNread && c.rlbytes > 0
    ensures Sound(srv, Pass(srv, c, io).0, stream)
  {
    hide Feed, Settle, ReadInto;
    if c.window != [] {
      var n := Min(|c.window|, c.rlbytes);
      SplitAt(c.window, c.unread, n);
      FillSound(srv, c, n, c.window[..n], c.window[n..] + c.unread, stream);
    } else {
      ReadIntoSound(srv, c, io, c.rlbytes, stream);
    }
  }

  lemma SwallowPassSound(srv: Server, c: Conn, io: Io, stream: string)
    requires Sound(srv, c, stream) && !c.cut && c.state == ConnSwallow && c.sbytes > 0
    ensures Sound(srv, Pass(srv, c, io).0, stream)
  {
    hide Feed, Settle, ReadInto;
    if c.window != [] {
      var n := Min(|c.window|, c.sbytes);
      SplitAt(c.window, c.unread, n);
      SwallowSound(srv, c, n, c.window[..n], c.window[n..] + c.unread, stream);
    } else {
      ReadIntoSound(srv, c, io, Min(c.rsize, c.sbytes), stream);
    }
  }

  /** The block or the swallowed data is complete, or a reply has been sent. */
  lemma TurnSound(srv: Server, c: Conn, io: Io, stream: string)
    requires Sound(srv, c, stream) && !c.cut
    requires || c.state == ConnWrite
             || (c.state == ConnNread && c.rlbytes == 0)
             || (c.state == ConnSwallow && c.sbytes == 0)
    ensures Sound(srv, Pass(srv, c, io).0, stream)
  {
    hide Feed;
    if c.state == ConnWrite && io.transmit == HardError {
      CutSound(srv, c, stream);
    }
  }

  lemma ReadSound(srv: Server, c: Conn, io: Io, stream: string)
    requires Sound(srv, c, stream) && !c.cut && c.state == ConnRead
    ensures Sound(srv, Pass(srv, c, io).0, stream)
  {
    if LineEnd(c.window) < |c.window| {
      TakeLineSound(srv, c, stream);
    } else {
      NetReadSound(srv, c, io.inputs, stream);
    }
    hide Sound, TakeLine, NetRead, LineEnd;
  }

  lemma CutStays(srv: Server, c: Conn, io: Io)
    requires c.state == ConnClosing
    ensures Pass(srv, c, io).0 == c
  {
  }

  lemma PassSound(srv: Server, c: Conn, io: Io, stream: string)
    requires Sound(srv, c, stream)
    ensures Sound(srv, Pass(srv, c, io).0, stream)
  {
    if c.state == ConnClosing {
      CutStays(srv, c, io);
    } else {
      assert !c.cut;
      hide Sound, Pass;
      if c.state == ConnRead {
        ReadSound(srv, c, io, stream);
      } else if c.state == ConnNread && c.rlbytes > 0 {
        NreadSound(srv, c, io, stream);
      } else if c.state == ConnSwallow && c.sbytes > 0 {
        SwallowPassSound(srv, c, io, stream);
      } else {
        TurnSound(srv, c, io, stream);
      }
    }
  }

  lemma {:induction false} RunSound(srv: Server, c: Conn, ios: seq<Io>, stream: string)
    requires Sound(srv, c, stream)
    ensures Sound(srv, Run(srv, c, ios), stream)
    decreases |ios|
  {
    hide Sound, Pass;
    if ios != [] {
      PassSound(srv, c, ios[0], stream);
      RunSound(srv, Pass(srv, c, ios[0]).0, ios[1..], stream);
    }
  }

  // ---- what it comes to ----------------------------------------------------------------------------------

  /** The connection waits for the client: all that was sent has been read and used. */
  ghost predicate Waiting(c: Conn) {
    !c.cut && c.unread == []
    && (c.state == ConnRead ==> '\n' !in c.window)
    && (c.state == ConnNread ==> c.rlbytes > 0 && c.window == [])
    && (c.state == ConnSwallow ==> c.sbytes > 0 && c.window == [])
    && c.state != ConnWrite
  }

  /** Whatever the reads return, what is handed on is what the reference hands on for the
      bytes of the stream, in its order, or the first part of that. */
  lemma HandedOnIsPrefix(srv: Server, stream: string, ios: seq<Io>)
    ensures Run(srv, Fresh(stream), ios).hist <= Feed(srv, START, stream).hist
  {
    var c := Run(srv, Fresh(stream), ios);
    assert "" + stream == stream;
    RunSound(srv, Fresh(stream), ios, stream);
    if !c.cut {
      FeedGrows(srv, Abs(c), c.window + c.unread);
      assert c.hist <= Abs(c).hist;
    }
  }

  /** A connection that waits has handed on exactly the lines and blocks of the stream. */
  lemma WaitingHandedOnAll(srv: Server, stream: string, ios: seq<Io>)
    requires Waiting(Run(srv, Fresh(stream), ios))
    ensures Run(srv, Fresh(stream), ios).hist == Feed(srv, START, stream).hist
  {
    var c := Run(srv, Fresh(stream), ios);
    assert "" + stream == stream;
    RunSound(srv, Fresh(stream), ios, stream);
    assert c.window + c.unread == c.window;
    if c.state == ConnRead {
      FeedNoLine(srv, c.hist, "", c.window);
    } else if c.state == ConnClosing {
      FeedClosed(srv, Abs(c), c.window);
    }
  }

  /** Framing does not depend on how the network splits the stream. */
  lemma SplitIndependent(srv: Server, stream: string, ios: seq<Io>, ios': seq<Io>)
    requires Waiting(Run(srv, Fresh(stream), ios)) && Waiting(Run(srv, Fresh(stream), ios'))
    ensures Run(srv, Fresh(stream), ios).hist == Run(srv, Fresh(stream), ios').hist
  {
    WaitingHandedOnAll(srv, stream, ios);
    WaitingHandedOnAll(srv, stream, ios');
  }

  // ---- the end of the stream ---------------------------------------------------------------------------

  lemma {:induction false} FeedFindsLine(srv: Server, hist: seq<Event>, acc: string, s: string)
    requires '\n' in s
    ensures |Feed(srv, Ref(hist, Reading, acc), s).hist| > |hist|
    decreases |s|
  {
    if s[0] == '\n' {
      FeedGrows(srv, Byte(srv, Ref(hist, Reading, acc), s[0]), s[1..]);
    } else {
      FeedFindsLine(srv, hist, acc + [s[0]], s[1..]);
    }
  }

  lemma JoinAt(w: string, u: string, n: nat)
    requires n <= |u|
    ensures w + u[..n] + u[n..] == w + u
  {
  }

  /** A round that moves bytes keeps them in order, and one that reads nothing new moves none. */
  lemma {:induction false} NetReadMoves(c: Conn, inputs: seq<Read>)
    ensures var d := NetRead(c, inputs).0;
      && d.window + d.unread == c.window + c.unread && d.hist == c.hist
      && (inputs != [] && inputs[0] == Eof ==> d.window == c.window)
    decreases |inputs|
  {
    var d := Grown(c);
    if inputs != [] && inputs[0].Data? {
      var avail := if |d.window| < d.rsize then d.rsize - |d.window| else 0;
      var n := Got(d, inputs[0].k, avail);
      JoinAt(d.window, d.unread, n);
      if n > 0 && n == avail {
        NetReadMoves(d.(window := d.window + d.unread[..n], unread := d.unread[n..]), inputs[1..]);
      }
    }
  }

  /** When the client closes while a line is being read, everything it sent has been handed on
      exactly if the bytes not yet read before the last round hold no line end: a line that arrives in
      the same round as the end of the stream is lost. */
  lemma EndOfStream(srv: Server, stream: string, ios: seq<Io>, io: Io)
    requires var c := Run(srv, Fresh(stream), ios);
      c.state == ConnRead && !c.cut && '\n' !in c.window
    requires var d := Pass(srv, Run(srv, Fresh(stream), ios), io).0; d.cut && d.unread == []
    ensures var c := Run(srv, Fresh(stream), ios);
      var d := Pass(srv, c, io).0;
      && (d.hist == Feed(srv, START, stream).hist <==> '\n' !in c.unread)
      && (io.inputs != [] && io.inputs[0] == Eof ==> d.hist == Feed(srv, START, stream).hist)
  {
    var c := Run(srv, Fresh(stream), ios);
    var d := NetRead(c, io.inputs).0;
    assert "" + stream == stream;
    RunSound(srv, Fresh(stream), ios, stream);
    NetReadMoves(c, io.inputs);
    hide NetRead, Run;
    assert d.window == c.window + c.unread by {
      assert d.window + d.unread == d.window;
    }
    if '\n' in c.unread {
      assert '\n' in d.window;
      FeedFindsLine(srv, c.hist, "", d.window);
    } else {
      assert '\n' !in d.window;
      FeedNoLine(srv, c.hist, "", d.window);
    }
  }

  /** A stream that fills the buffer exactly and then ends: its line is never handed on. */
  lemma EndOfStreamCounterexample(srv: Server)
    ensures var stream := seq(DATA_BUFFER_SIZE - 1, _ => 'x') + "\n";
      var c := Run(srv, Fresh(stream), [Io([Data(DATA_BUFFER_SIZE), Eof], true, Complete)]);
      && c.cut && c.unread == [] && c.hist == []
      && |Feed(srv, START, stream).hist| > 0
  {
    var stream := seq(DATA_BUFFER_SIZE - 1, _ => 'x') + "\n";
    assert stream[DATA_BUFFER_SIZE - 1] == '\n';
    FeedFindsLine(srv, [], "", stream);
    var io := Io([Data(DATA_BUFFER_SIZE), Eof], true, Complete);
    var c := Fresh(stream);
    assert [io][1..] == [];
    assert io.inputs[1..] == [Eof];
    assert NetRead(c, io.inputs).0 == NetRead(c.(window := stream, unread := ""), [Eof]).0 by {
      assert "" + stream[..DATA_BUFFER_SIZE] == stream && stream[DATA_BUFFER_SIZE..] == "";
    }
    assert Run(srv, c, [io]) == Pass(srv, c, io).0;
  }
}
