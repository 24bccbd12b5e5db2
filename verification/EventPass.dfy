/** One whole event_process_active, with the calls that its callbacks make given in advance. */
module EventPass {
  import opened Seqs
  import opened Timeval
  import opened EventBase
  import opened EventSteps
  import opened EventCalls
  import opened EventTimers
  import opened EventRun

  /** What the callbacks call: one list for each time one is called, nothing after the last list. */
  type Script = seq<seq<Step>>

  /** A callback's calls, those that a program may make. */
  function DoCalls(b: Base, calls: seq<Step>): (r: Base)
    requires Inv(b) && b.pass.Calling?
    ensures Inv(r) && r.pass.Calling? && r.pass.queue == b.pass.queue && |r.activeq| == |b.activeq|
    decreases |calls|
  {
    if calls == [] then b
    else if IsCall(calls[0]) && Enabled(b, calls[0]) then
      DoInv(b, calls[0]);
      CallStays(b, calls[0]);
      DoCalls(Do(b, calls[0]), calls[1..])
    else DoCalls(b, calls[1..])
  }

  lemma CallStays(b: Base, s: Step)
    requires Inv(b) && b.pass.Calling? && IsCall(s) && Enabled(b, s)
    ensures var c := Do(b, s);
            c.pass.Calling? && c.pass.queue == b.pass.queue && |c.activeq| == |b.activeq|
  {
    SameQueues(b, s);
    assert Coherent(b);
    match s
    case CallAdd(x, tv, now) => AddLoop(b, x, tv, now);
      hide AddEvent, Inv, Coherent;
    case CallDel(x) => DelLoop(b, x);
      hide Del, Inv, Coherent;
    case CallActive(x, res, k) => ActiveLoop(b, x, res, k);
      hide Active, Inv, Coherent;
    case CallPriority(x, pri) =>
    case CallSet(x, io, sig) =>
  }

  lemma SameQueues(b: Base, s: Step)
    requires IsCall(s) && Enabled(b, s)
    ensures |Do(b, s).activeq| == |b.activeq|
  {
    hide TreeInsert, Without, At, AbortLoop;
    match s
    case CallAdd(x, tv, now) =>
      QueueNumber(b, x);
      if tv.Some? {
        var b1 := RemoveIf(b, x, QTimeout);
        AbortNumber(b1, x);
        var b2 := Reschedule(b1, x);
        assert |b2.activeq| == |b.activeq|;
      }
    case CallDel(x) =>
      AbortNumber(b, x);
      DelNumber(b, x);
      hide Del;
    case CallActive(x, res, k) =>
    case CallPriority(x, pri) =>
    case CallSet(x, io, sig) =>
  }

  lemma AbortNumber(b: Base, x: Id)
    requires Known(b, x)
    ensures AbortLoop(b, x).activeq == b.activeq
  {
  }

  lemma QueueNumber(b: Base, x: Id)
    requires Known(b, x)
    ensures forall k :: |RemoveIf(b, x, k).activeq| == |b.activeq|
    ensures forall k :: |QueueRemove(b, x, k).activeq| == |b.activeq|
  {
    hide Without, At;
  }

  lemma DelNumber(b: Base, x: Id)
    requires Known(b, x)
    ensures |Del(b, x).activeq| == |b.activeq|
  {
    AbortNumber(b, x);
    hide RemoveIf, QueueRemove, AbortLoop;
    var b1 := AbortLoop(b, x);
    QueueNumber(b1, x);
    var b2 := RemoveIf(b1, x, QTimeout);
    QueueNumber(b2, x);
    QueueNumber(RemoveIf(b2, x, QActive), x);
  }

  // ---- the steps of a pass ---------------------------------------------------------------------------

  /** How far a pass is from its end, the script apart. */
  function Left(b: Base): (nat, nat, nat) {
    match b.pass
    case Off => (0, 0, 0)
    case Between(q) => (|At(b.activeq, q)| + 1, 0, 0)
    case Looping(q, _, n) => (|At(b.activeq, q)| + 1, n, 1)
    case Calling(q, _, n) => (|At(b.activeq, q)| + 1, n, 2)
  }

  lemma EventEnabled(b: Base)
    requires Inv(b) && b.pass.Between?
    ensures Enabled(b, DoNextEvent) && Do(b, DoNextEvent) == NextEvent(b)
  {
    PassKnown(b);
    NextEventCoherent(b);
    hide Inv, NextEvent, Coherent;
  }

  lemma EventLeft(b: Base)
    requires Inv(b) && b.pass.Between? && Enabled(b, DoNextEvent)
    ensures var c := NextEvent(b);
            c.pass.Off? || (c.pass.Looping? && c.pass.queue == b.pass.queue && Left(c).0 < Left(b).0)
  {
    PassKnown(b);
    var q := b.pass.queue;
    if b.activeq[q] != [] {
      HeadActive(b, q);
      hide Inv, Coherent;
      assert Without(b.activeq[q], b.activeq[q][0]) == b.activeq[q][1..];
    }
    hide Inv, Coherent;
  }

  lemma CallEnabled(b: Base)
    requires Inv(b) && b.pass.Looping?
    ensures Enabled(b, DoNextCall) && Do(b, DoNextCall) == NextCall(b)
  {
    PassKnown(b);
    hide Inv, NextCall, Coherent;
  }

  /** The rest of event_process_active from a state in it, and what is left of the script. */
  function PassRun(b: Base, script: Script): (r: (Base, Script))
    requires Inv(b)
    ensures Inv(r.0) && r.0.pass.Off?
    decreases |script|, Left(b).0, Left(b).1, Left(b).2
  {
    match b.pass
    case Off => (b, script)
    case Between(q) =>
      EventEnabled(b);
      EventLeft(b);
      DoInv(b, DoNextEvent);
      PassRun(NextEvent(b), script)
    case Looping(q, x, n) =>
      CallEnabled(b);
      DoInv(b, DoNextCall);
      PassRun(NextCall(b), script)
    case Calling(q, x, n) =>
      var c := if script == [] then b else DoCalls(b, script[0]);
      DoInv(c, DoReturn);
      PassRun(Return(c), if script == [] then [] else script[1..])
  }
}
