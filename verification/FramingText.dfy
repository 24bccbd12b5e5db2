/** What the lines and blocks handed on have to do with the bytes of the stream, said of whole lines and
    blocks and not byte by byte. */
module FramingText {
  import opened Framing

  /** The line, up to and with its '\n', carries this command: a '\r' before the '\n' belongs to the line end,
      unless it is all there is before it. */
  predicate Carries(line: string, text: string) {
    || (text != [] && line == text + "\r\n")
    || ((text == [] || text[|text| - 1] != '\r' || text == "\r") && line == text + "\n")
  }

  /** Reading stream s from the start of a line on, with out[..k] handed on before, hands on all of out. */
  predicate Means(srv: Server, s: string, out: seq<Event>, k: nat)
    decreases |s|, 0
  {
    if '\n' !in s then k == |out|
    else
      var i := LineEnd(s);
      && i < |s| && k < |out| && out[k].Line? && Carries(s[..i + 1], out[k].text)
      && MeansAfter(srv, srv(out[..k + 1]), s[i + 1..], out, k + 1)
  }

  /** The same, when a line has just been handed on and led to this action. */
  predicate MeansAfter(srv: Server, act: Action, s: string, out: seq<Event>, k: nat)
    decreases |s|, 1
  {
    match act
    case Reply => Means(srv, s, out, k)
    case Silent => Means(srv, s, out, k)
    case Close => k == |out|
    case Swallow(n) => if |s| < n then k == |out| else Means(srv, s[n..], out, k)
    case Nread(n) =>
      if |s| < n then k == |out|
      else k < |out| && out[k] == Block(s[..n]) && Means(srv, s[n..], out, k + 1)
  }

  // ---- the reference means that ------------------------------------------------------------------------

  lemma NoLineEnd(s: string)
    ensures '\n' !in s <==> LineEnd(s) == |s|
  {
    var i := LineEnd(s);
    if i < |s| {
      assert s[i] in s;
    }
  }

  lemma StripCarries(line: string, text: string)
    requires line != [] && line[|line| - 1] == '\n'
    ensures Carries(line, text) <==> text == Strip(line)
  {
    var n := |line| - 1;
    assert line == line[..n] + "\n";
    if n > 0 && line[n - 1] == '\r' {
      assert line == line[..n - 1] + "\r\n";
    }
    if Carries(line, text) {
      if line == text + "\r\n" && text != [] {
        assert line[n - 1] == '\r' && line[..n - 1] == text;
      } else {
        assert line[..n] == text;
      }
    }
  }

  lemma FirstLineFed(srv: Server, hist: seq<Event>, s: string)
    requires '\n' in s
    ensures var i := LineEnd(s);
            && i < |s|
            && Feed(srv, Ref(hist, Reading, ""), s) ==
                 Feed(srv, Settle(Ref(hist + [Line(Strip(s[..i + 1]))],
                                      ModeAfter(srv(hist + [Line(Strip(s[..i + 1]))])), "")), s[i + 1..])
  {
    hide Feed, Strip;
    NoLineEnd(s);
    var i := LineEnd(s);
    var line := s[..i + 1];
    assert s == line + s[i + 1..];
    FirstLine(s);
    FeedConcat(srv, Ref(hist, Reading, ""), line, s[i + 1..]);
    FeedLine(srv, hist, line);
  }

  /** The reference hands on just what the stream means. */
  lemma {:induction false} FeedMeans(srv: Server, hist: seq<Event>, s: string, out: seq<Event>)
    ensures Feed(srv, Ref(hist, Reading, ""), s).hist == out <==> hist <= out && Means(srv, s, out, |hist|)
    decreases |s|, 0
  {
    hide Feed, Strip, Carries, Settle, ModeAfter;
    if '\n' !in s {
      FeedNoLine(srv, hist, "", s);
    } else {
      var i := LineEnd(s);
      FirstLineFed(srv, hist, s);
      var line, rest := s[..i + 1], s[i + 1..];
      var h := hist + [Line(Strip(line))];
      AfterMeans(srv, h, srv(h), rest, out);
      if Feed(srv, Ref(hist, Reading, ""), s).hist == out || (hist <= out && Means(srv, s, out, |hist|)) {
        FirstHanded(srv, hist, s, out);
      }
    }
  }

  /** The first entry handed on is the first line, on either side. */
  lemma FirstHanded(srv: Server, hist: seq<Event>, s: string, out: seq<Event>)
    requires '\n' in s
    requires Feed(srv, Ref(hist, Reading, ""), s).hist == out || (hist <= out && Means(srv, s, out, |hist|))
    ensures var line := s[..LineEnd(s)] + "\n";
            && LineEnd(s) < |s| && line == s[..LineEnd(s) + 1] && Carries(line, Strip(line))
            && hist + [Line(Strip(line))] <= out && out[..|hist| + 1] == hist + [Line(Strip(line))]
  {
    hide Feed, Settle, ModeAfter, MeansAfter;
    NoLineEnd(s);
    var i := LineEnd(s);
    var line := s[..i + 1];
    assert line == s[..i] + "\n";
    StripCarries(line, Strip(line));
    var h := hist + [Line(Strip(line))];
    if Feed(srv, Ref(hist, Reading, ""), s).hist == out {
      FirstLineFed(srv, hist, s);
      var r := Settle(Ref(h, ModeAfter(srv(h)), ""));
      SettleKeeps(Ref(h, ModeAfter(srv(h)), ""));
      FeedGrows(srv, r, s[i + 1..]);
    } else {
      StripCarries(line, out[|hist|].text);
      hide Strip, Carries;
      assert out[..|hist| + 1] == out[..|hist|] + [out[|hist|]];
    }
  }

  lemma SettleKeeps(r: Ref)
    ensures r.hist <= Settle(r).hist
  {
  }

  lemma {:induction false} AfterMeans(srv: Server, h: seq<Event>, act: Action, s: string, out: seq<Event>)
    ensures Feed(srv, Settle(Ref(h, ModeAfter(act), "")), s).hist == out <==>
            h <= out && MeansAfter(srv, act, s, out, |h|)
    decreases |s|, 2
  {
    hide Feed, Means;
    match act
    case Reply => FeedMeans(srv, h, s, out);
    case Silent => FeedMeans(srv, h, s, out);
    case Close => FeedClosed(srv, Ref(h, Closed, ""), s);
    case Swallow(n) => SwallowMeans(srv, h, n, s, out);
    case Nread(n) => BlockMeans(srv, h, n, s, out);
  }

  lemma {:induction false} SwallowMeans(srv: Server, h: seq<Event>, n: nat, s: string, out: seq<Event>)
    ensures Feed(srv, Settle(Ref(h, Swallowing(n), "")), s).hist == out <==>
            h <= out && MeansAfter(srv, Swallow(n), s, out, |h|)
    decreases |s|, 1
  {
    hide Feed, Means;
    var r := Settle(Ref(h, Swallowing(n), ""));
    if |s| < n {
      FeedSwallow(srv, h, n, s);
    } else {
      assert s == s[..n] + s[n..];
      FeedConcat(srv, r, s[..n], s[n..]);
      FeedSwallow(srv, h, n, s[..n]);
      FeedMeans(srv, h, s[n..], out);
    }
  }

  lemma {:induction false} BlockMeans(srv: Server, h: seq<Event>, n: nat, s: string, out: seq<Event>)
    ensures Feed(srv, Settle(Ref(h, Filling("", n), "")), s).hist == out <==>
            h <= out && MeansAfter(srv, Nread(n), s, out, |h|)
    decreases |s|, 1
  {
    hide Feed, Means;
    var r := Settle(Ref(h, Filling("", n), ""));
    if |s| < n {
      FeedFill(srv, h, "", n, s);
    } else {
      assert s == s[..n] + s[n..];
      FeedConcat(srv, r, s[..n], s[n..]);
      FeedFill(srv, h, "", n, s[..n]);
      assert "" + s[..n] == s[..n];
      FeedMeans(srv, h + [Block(s[..n])], s[n..], out);
      BlockNext(h, s[..n], out);
    }
  }

  lemma BlockNext(h: seq<Event>, block: string, out: seq<Event>)
    ensures h + [Block(block)] <= out <==> h <= out && |h| < |out| && out[|h|] == Block(block)
  {
    if h <= out && |h| < |out| && out[|h|] == Block(block) {
      assert out[..|h| + 1] == h + [Block(block)];
    }
  }

  // ---- the connection hands on what the stream means ------------------------------------------------------

  /** A connection that waits has handed on exactly the lines and blocks of the bytes it was sent. */
  lemma WaitingMeans(srv: Server, stream: string, ios: seq<Io>)
    requires Waiting(Run(srv, Fresh(stream), ios))
    ensures Means(srv, stream, Run(srv, Fresh(stream), ios).hist, 0)
  {
    hide Run, Feed, Means, Waiting;
    WaitingHandedOnAll(srv, stream, ios);
    FeedMeans(srv, [], stream, Run(srv, Fresh(stream), ios).hist);
  }

  /** And there is no other history that the stream could mean. */
  lemma MeansOnce(srv: Server, stream: string, out: seq<Event>, out': seq<Event>)
    requires Means(srv, stream, out, 0) && Means(srv, stream, out', 0)
    ensures out == out'
  {
    hide Feed, Means;
    FeedMeans(srv, [], stream, out);
    FeedMeans(srv, [], stream, out');
  }

  /** Whatever the reads return, what has been handed on is the first part of what the stream means. */
  lemma PrefixMeans(srv: Server, stream: string, ios: seq<Io>) returns (out: seq<Event>)
    ensures Means(srv, stream, out, 0) && Run(srv, Fresh(stream), ios).hist <= out
  {
    hide Run, Feed, Means;
    out := Feed(srv, START, stream).hist;
    HandedOnIsPrefix(srv, stream, ios);
    FeedMeans(srv, [], stream, out);
  }

  // ---- single lines and blocks ---------------------------------------------------------------------------

  lemma LineEndAt(s: string, rest: string)
    requires '\n' !in s
    ensures LineEnd(s + "\n" + rest) == |s|
  {
    var t := s + "\n" + rest;
    assert t[|s|] == '\n';
    assert forall j :: 0 <= j < |s| ==> t[j] == s[j];
  }

  /** The first line of a stream, in each of its forms. */
  lemma FirstText(srv: Server, text: string, end: string, rest: string, out: seq<Event>)
    requires '\n' !in text && Means(srv, text + end + rest, out, 0)
    requires || (end == "\r\n" && text != [])
             || (end == "\n" && (text == [] || text[|text| - 1] != '\r' || text == "\r"))
    ensures out != [] && out[0] == Line(text) && MeansAfter(srv, srv([Line(text)]), rest, out, 1)
  {
    hide MeansAfter;
    var line := text + end;
    var body := line[..|line| - 1];
    assert line == body + "\n" && line + rest == body + "\n" + rest;
    assert '\n' !in body;
    LineEndAt(body, rest);
    var s := line + rest;
    assert s[..|body| + 1] == line && s[|body| + 1..] == rest;
    assert s[|body|] == '\n';
    CarriesOne(text, end, out[0].text);
    assert out[..1] == [out[0]];
  }

  lemma CarriesOne(text: string, end: string, other: string)
    requires || (end == "\r\n" && text != [])
             || (end == "\n" && (text == [] || text[|text| - 1] != '\r' || text == "\r"))
    requires Carries(text + end, other)
    ensures other == text
  {
    hide Strip;
    StripCarries(text + end, other);
    StripCarries(text + end, text);
  }

  /** The first command of a connection, whatever the reads were: its text without the line end; and the data
      block it asks for: exactly the next n bytes. */
  lemma FirstHandedOn(srv: Server, text: string, end: string, rest: string, ios: seq<Io>)
    requires '\n' !in text
    requires || (end == "\r\n" && text != [])
             || (end == "\n" && (text == [] || text[|text| - 1] != '\r' || text == "\r"))
    requires Waiting(Run(srv, Fresh(text + end + rest), ios))
    ensures var hist := Run(srv, Fresh(text + end + rest), ios).hist;
            && hist != [] && hist[0] == Line(text)
            && (srv([Line(text)]).Nread? && |rest| >= srv([Line(text)]).n ==>
                  |hist| > 1 && hist[1] == Block(rest[..srv([Line(text)]).n]))
  {
    hide Run, Means, Waiting;
    WaitingMeans(srv, text + end + rest, ios);
    FirstText(srv, text, end, rest, Run(srv, Fresh(text + end + rest), ios).hist);
  }
}
