/** Which connections each worker gets, of those that are accepted. */
module DispatchOrder {
  import opened Seqs
  import opened Dispatch

  /** The connections a run accepts, in order. */
  function Accepted(run: seq<Step>): seq<int> {
    if run == [] then [] else (if run[0].Accept? then [run[0].sfd] else []) + Accepted(run[1..])
  }

  /** The connection that is accepted and not yet on a worker's queue. */
  function Pending(s: Sys): seq<int> {
    match s.disp
    case DNeeds(sfd) => [sfd]
    case DHas(sfd, _) => [sfd]
    case _ => []
  }

  /** Every n-th of a stream whose first one has number `first`: those whose number is w modulo n. */
  function Share(stream: seq<int>, first: nat, n: nat, w: nat): seq<int>
    requires n > 0
  {
    if stream == [] then []
    else (if first % n == w then [stream[0]] else []) + Share(stream[1..], first + 1, n, w)
  }

  lemma {:induction false} ShareMod(stream: seq<int>, a: nat, b: nat, n: nat, w: nat)
    requires n > 0 && a % n == b % n
    ensures Share(stream, a, n, w) == Share(stream, b, n, w)
  {
    if stream != [] {
      ModNext(a, b, n);
      ShareMod(stream[1..], a + 1, b + 1, n, w);
    }
  }

  lemma ModNext(a: nat, b: nat, n: nat)
    requires n > 0 && a % n == b % n
    ensures (a + 1) % n == (b + 1) % n
  {
    TidStep(a, n, 0);
    TidStep(b, n, 0);
  }

  /** A dispatch gives the first of the stream to the worker whose turn it is. */
  lemma ShareFirst(x: int, rest: seq<int>, last: nat, n: nat, w: nat)
    requires n > 0
    ensures Share([x] + rest, last, n, w) ==
            (if NextTid(last, n) == w + 1 then [x] else []) + Share(rest, NextTid(last, n), n, w)
  {
    assert ([x] + rest)[1..] == rest;
    TidStep(last, n, 0);
    ShareMod(rest, last + 1, NextTid(last, n), n, w);
  }

  lemma ShareStep(s: Sys, t: Step, rest: seq<int>, w: nat)
    requires Shape(s) && Enabled(s, t) && w < |s.workers|
    ensures var u, n, more := Do(s, t), |s.workers|, if t.Accept? then [t.sfd] else [];
            && w < |u.sent|
            && u.sent[w] + Share(Pending(u) + rest, u.last, n, w) ==
               s.sent[w] + Share(Pending(s) + (more + rest), s.last, n, w)
  {
    hide Do, Share, NextTid, Pending;
    var n := |s.workers|;
    if t.Push? {
      PushIs(s, w);
      ShareFirst(s.disp.sfd, rest, s.last, n, w);
      var first := if NextTid(s.last, n) == w + 1 then [s.disp.sfd] else [];
      assert [] + rest == rest;
      Associates(s.sent[w], first, Share(rest, NextTid(s.last, n), n, w));
    } else {
      OtherIs(s, t, rest);
    }
  }

  lemma PushIs(s: Sys, w: nat)
    requires Shape(s) && s.disp.DHas? && w < |s.workers|
    ensures var u := Do(s, Push);
            && w < |u.sent| && u.last == NextTid(s.last, |s.workers|) && Pending(u) == []
            && Pending(s) == [s.disp.sfd]
            && u.sent[w] == s.sent[w] + if u.last == w + 1 then [s.disp.sfd] else []
  {
  }

  lemma OtherIs(s: Sys, t: Step, rest: seq<int>)
    requires Shape(s) && Enabled(s, t) && !t.Push?
    ensures var u := Do(s, t);
            && u.sent == s.sent && u.last == s.last
            && Pending(u) + rest == Pending(s) + ((if t.Accept? then [t.sfd] else []) + rest)
  {
    hide Upto, NextTid;
    assert t.Accept? ==> [t.sfd] + rest == [] + ([t.sfd] + rest);
    assert [] + rest == rest;
  }

  lemma Associates(a: seq<int>, b: seq<int>, c: seq<int>)
    ensures (a + b) + c == a + (b + c)
  {
  }

  lemma {:induction false} Shares(s: Sys, run: seq<Step>, w: nat)
    requires Shape(s) && Valid(s, run) && w < |s.workers|
    ensures var u, n := After(s, run), |s.workers|;
            && w < |u.sent|
            && u.sent[w] + Share(Pending(u), u.last, n, w) ==
               s.sent[w] + Share(Pending(s) + Accepted(run), s.last, n, w)
    decreases |run|
  {
    hide Enabled, Do, NextTid, After, Valid, Share, Pending;
    if run == [] {
      NothingSent(s);
      assert Pending(s) + [] == Pending(s);
    } else {
      FirstStep(s, run);
      ShareStep(s, run[0], Accepted(run[1..]), w);
      Shares(Do(s, run[0]), run[1..], w);
    }
  }

  /** What is pending is the last that was accepted, and the rest has been dispatched. */
  lemma {:induction false} PendingLast(s: Sys, run: seq<Step>)
    requires Shape(s) && Valid(s, run)
    ensures var u, stream := After(s, run), Pending(s) + Accepted(run);
            && |Pending(u)| <= 1 && |stream| == Pushes(run) + |Pending(u)|
            && stream[Pushes(run)..] == Pending(u)
    decreases |run|
  {
    hide Enabled, Do, NextTid, After, Valid, Pending;
    if run == [] {
      NothingSent(s);
      PendingOne(s);
      assert Pending(s) + [] == Pending(s);
    } else {
      FirstStep(s, run);
      PendingLast(Do(s, run[0]), run[1..]);
      PendingStep(s, run[0], Accepted(run[1..]));
    }
  }

  lemma PendingOne(s: Sys)
    ensures |Pending(s)| <= 1
  {
  }

  lemma PendingStep(s: Sys, t: Step, rest: seq<int>)
    requires Shape(s) && Enabled(s, t)
    ensures var stream, k := Pending(s) + ((if t.Accept? then [t.sfd] else []) + rest), if t.Push? then 1 else 0;
            k <= |stream| && stream[k..] == Pending(Do(s, t)) + rest
  {
    hide Upto;
  }

  lemma {:induction false} LastCounts(s: Sys, run: seq<Step>)
    requires Shape(s) && Valid(s, run)
    ensures After(s, run).last % |s.workers| == (s.last + Pushes(run)) % |s.workers|
    decreases |run|
  {
    hide Enabled, Do, NextTid, After, Valid;
    if run == [] {
      NothingSent(s);
    } else {
      FirstStep(s, run);
      SentStep(s, run[0], 0);
      LastCounts(Do(s, run[0]), run[1..]);
      TidStep(s.last, |s.workers|, Pushes(run[1..]));
    }
  }

  lemma {:induction false} ShareSplit(a: seq<int>, b: seq<int>, first: nat, n: nat, w: nat)
    requires n > 0
    ensures Share(a + b, first, n, w) == Share(a, first, n, w) + Share(b, first + |a|, n, w)
  {
    if a == [] {
      assert a + b == b;
    } else {
      assert (a + b)[1..] == a[1..] + b;
      ShareSplit(a[1..], b, first + 1, n, w);
    }
  }

  /** In every run, however the threads interleave, worker w has taken, or has on its queue, in order and once
      each, the connections whose number among those accepted is w modulo the number of workers; only the last one
      accepted can be still in the dispatcher's hands. */
  lemma EachItsShare(n: nat, run: seq<Step>, w: nat)
    requires n > 0 && Valid(Start(n), run) && w < n
    ensures var u := After(Start(n), run);
            && w < |u.queues| && w < |u.taken| && |Pending(u)| <= |Accepted(run)|
            && var k := |Accepted(run)| - |Pending(u)|;
            && Accepted(run)[k..] == Pending(u) && |Pending(u)| <= 1
            && u.taken[w] + Sfds(u.queues[w]) == Share(Accepted(run)[..k], 0, n, w)
  {
    hide Start, After, Valid, Share, Pending, Sfds, Inv, Accepted, Shape;
    var s := Start(n);
    StartIs(n, w, Accepted(run));
    StartInv(n);
    var u := After(s, run);
    PendingLast(s, run);
    LastCounts(s, run);
    Shares(s, run, w);
    RunInv(s, run);
    SentIs(u, w);
    var k := Pushes(run);
    assert Accepted(run) == Accepted(run)[..k] + Pending(u);
    ShareSplit(Accepted(run)[..k], Pending(u), 0, n, w);
    ShareMod(Pending(u), u.last, k, n, w);
    Cancel(u.sent[w], Share(Accepted(run)[..k], 0, n, w), Share(Pending(u), k, n, w));
  }

  lemma StartIs(n: nat, w: nat, stream: seq<int>)
    requires w < n
    ensures var s := Start(n);
            && Shape(s) && |s.workers| == n && s.last == 0 && w < |s.sent| && s.sent[w] == []
            && Pending(s) + stream == stream
            && forall c: seq<int> :: s.sent[w] + c == c
  {
  }

  lemma Cancel(a: seq<int>, b: seq<int>, c: seq<int>)
    requires a + c == b + c
    ensures a == b
  {
    assert |a| == |b|;
    assert (a + c)[..|a|] == a && (b + c)[..|b|] == b;
  }

  lemma SentIs(u: Sys, w: nat)
    requires Inv(u) && w < |u.workers|
    ensures w < |u.queues| && w < |u.taken| && w < |u.sent| && u.sent[w] == u.taken[w] + Sfds(u.queues[w])
  {
    hide Signalled, OneOwner, Sfds;
  }
}
