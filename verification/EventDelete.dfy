/** Deleting an event while callbacks are running: when it stops repeats, and whose. */
module EventDelete {
  import opened Seqs
  import opened Timeval
  import opened EventBase
  import opened EventSteps
  import opened EventCalls
  import opened EventTimers
  import opened EventRun

  /** The base is inside the callback of event x, with n repeats left. */
  predicate InCallback(b: Base, x: Id, n: nat) {
    b.pass.Calling? && b.pass.ev == x && b.pass.ncalls == n && Known(b, x)
  }

  lemma InvTracks(b: Base)
    requires Inv(b)
    ensures Tracks(b) && Coherent(b)
  {
  }

  /** In every reachable state inside an event's own callback, deleting it stops its remaining repeats
      exactly when none remain or it has not been made active again since the callback's loop began. */
  lemma OwnDeleteStops(b: Base, x: Id, n: nat)
    requires Inv(b) && InCallback(b, x, n)
    ensures InCallback(Del(b, x), x, 0) <==> n == 0 || b.evs[x].pncalls
  {
    InvTracks(b);
    hide Inv, Coherent;
    DelLoop(b, x);
    hide Del;
  }

  predicate Revives(s: Step, x: Id) {
    (s.CallActive? && s.x == x) || (s.CallSet? && s.x == x)
  }

  lemma CallKeeps(b: Base, s: Step, x: Id, n: nat)
    requires Inv(b) && Enabled(b, s) && IsCall(s) && !Revives(s, x) && InCallback(b, x, n) && b.evs[x].pncalls
    ensures var c := Do(b, s);
            (InCallback(c, x, n) || InCallback(c, x, 0)) && c.pass.queue == b.pass.queue && c.evs[x].pncalls
  {
    InvTracks(b);
    hide Inv;
    match s
    case CallAdd(y, tv, now) =>
      AddLoop(b, y, tv, now);
      hide Coherent, AddEvent;
    case CallDel(y) =>
      DelLoop(b, y);
      hide Coherent, Del, AbortLoop;
    case CallActive(y, res, k) =>
      ActiveLoop(b, y, res, k);
      hide Coherent, Active;
    case CallPriority(y, pri) =>
      hide Coherent;
    case CallSet(y, io, sig) =>
      hide Coherent;
  }

  predicate CallsOnly(run: seq<Step>, x: Id) {
    forall i :: 0 <= i < |run| ==> IsCall(run[i]) && !Revives(run[i], x)
  }

  lemma {:induction false} CallsKeep(b: Base, run: seq<Step>, x: Id, n: nat)
    requires Inv(b) && Valid(b, run) && CallsOnly(run, x) && InCallback(b, x, n) && b.evs[x].pncalls
    ensures var c := After(b, run);
            && Inv(c) && c.pass.Calling? && c.pass.ev == x && Known(c, x) && c.evs[x].pncalls
            && c.pass.queue == b.pass.queue
    decreases |run|
  {
    if run != [] {
      var c := Do(b, run[0]);
      CallKeeps(b, run[0], x, n);
      DoInv(b, run[0]);
      hide Inv, Do, Enabled, IsCall, Revives;
      assert CallsOnly(run[1..], x);
      CallsKeep(c, run[1..], x, c.pass.ncalls);
    }
  }

  /** Whatever else a callback calls, once it deletes its own event there is no further repeat: after
      it returns, event_process_active goes on to the next event. */
  lemma DeletedNotRepeated(b: Base, run: seq<Step>, x: Id, n: nat)
    requires Inv(b) && Valid(b, run) && CallsOnly(run, x) && InCallback(b, x, n) && b.evs[x].pncalls
    ensures var c := After(b, run);
            && Enabled(c, CallDel(x)) && Del(c, x).pass.Calling? && Known(Return(Del(c, x)), x)
            && Return(Del(c, x)).pass == Looping(b.pass.queue, x, 0)
            && NextCall(Return(Del(c, x))).pass == Between(b.pass.queue)
  {
    CallsKeep(b, run, x, n);
    var c := After(b, run);
    hide Inv;
    OwnDeleteStops(c, x, c.pass.ncalls);
    DelLoop(c, x);
    hide Del, After, Valid;
  }

  /** The exception: a callback that makes its event active again and then deletes it is repeated all
      the same. */
  lemma RevivedThenDeletedRepeats(b: Base, x: Id, n: nat, res: set<Why>, ncalls: nat)
    requires Inv(b) && InCallback(b, x, n)
    ensures InCallback(Del(Active(b, x, res, ncalls), x), x, n)
  {
    InvTracks(b);
    ActiveLoop(b, x, res, ncalls);
    hide Inv, Coherent, Active;
    var c := Active(b, x, res, ncalls);
    DelLoop(c, x);
    hide Del;
  }

  /** Deleting one event cuts short the repeats of another exactly when the deleted event still has
      calls counted and a pointer left over from a loop of its own. */
  lemma DeleteCutsAnother(b: Base, x: Id, y: Id, n: nat)
    requires InCallback(b, y, n) && n > 0 && x != y && Known(b, x)
    ensures InCallback(Del(b, x), y, 0) <==> b.evs[x].ncalls != 0 && b.evs[x].pncalls
    ensures InCallback(Del(b, x), y, n) <==> b.evs[x].ncalls == 0 || !b.evs[x].pncalls
  {
    DelLoop(b, x);
    hide Del;
  }

  lemma RemoveStray(b: Base, x: Id, k: Queue)
    requires Known(b, x)
    ensures RemoveIf(b, x, k).stray == QueueRemove(b, x, k).stray == b.stray
  {
    hide Without, Put, At;
  }

  /** The same leftovers make a later deletion, outside event_process_active, write to a counter that
      is gone. */
  lemma DeleteStrays(b: Base, x: Id)
    requires Known(b, x) && b.pass.Off?
    ensures Del(b, x).stray == b.stray + (if b.evs[x].ncalls != 0 && b.evs[x].pncalls then 1 else 0)
  {
    hide QueueRemove, RemoveIf;
    var c := AbortLoop(b, x);
    RemoveStray(c, x, QTimeout);
    var c1 := RemoveIf(c, x, QTimeout);
    RemoveStray(c1, x, QActive);
    var c2 := RemoveIf(c1, x, QActive);
    RemoveStray(c2, x, QInserted);
    RemoveStray(c2, x, QSignal);
  }

  /** An event that has deleted itself with repeats left keeps those leftovers. */
  lemma OwnDeleteLeaves(b: Base, x: Id, n: nat)
    requires Inv(b) && InCallback(b, x, n) && n > 0 && b.evs[x].pncalls
    ensures var c := Del(b, x); Known(c, x) && c.evs[x].ncalls == n && c.evs[x].pncalls
  {
    InvTracks(b);
    hide Inv, Coherent;
    DelLoop(b, x);
    hide Del;
  }

  // ---- such a run -----------------------------------------------------------------------------------

  /** A signal event that is waiting to be called, or not, with its count and leftovers. */
  function SignalEvent(active: bool, ncalls: nat, pncalls: bool): Ev {
    Ev(false, false, false, active, false, true, 0, ncalls, pncalls, {BySignal}, Timeval(0, 0))
  }

  function TwoEvents(e0: Ev, e1: Ev, queue: seq<Id>, pass: Pass): Base {
    Base({}, [e0, e1], [], [], [], [queue], |queue|, |queue|, pass, 0)
  }

  const IDLE := SignalEvent(false, 0, false)
  const CAUGHT := SignalEvent(true, 2, false)

  function CutStart(): Base {
    TwoEvents(IDLE, IDLE, [], Off)
  }

  const CUT_RUN: seq<Step> := [
    CallActive(0, {BySignal}, 2), CallActive(1, {BySignal}, 2), DoStart,
    DoNextEvent, DoNextCall, CallDel(0), DoReturn, DoNextCall,
    DoNextEvent, DoNextCall]

  /** The states of that run. */
  function CutState(i: nat): Base {
    if i == 0 then CutStart()
    else if i == 1 then TwoEvents(CAUGHT, IDLE, [0], Off)
    else if i == 2 then TwoEvents(CAUGHT, CAUGHT, [0, 1], Off)
    else if i == 3 then TwoEvents(CAUGHT, CAUGHT, [0, 1], Between(0))
    else if i == 4 then TwoEvents(SignalEvent(false, 2, true), CAUGHT, [1], Looping(0, 0, 2))
    else if i == 5 then TwoEvents(SignalEvent(false, 1, true), CAUGHT, [1], Calling(0, 0, 1))
    else if i == 6 then TwoEvents(SignalEvent(false, 1, true), CAUGHT, [1], Calling(0, 0, 0))
    else if i == 7 then TwoEvents(SignalEvent(false, 1, true), CAUGHT, [1], Looping(0, 0, 0))
    else if i == 8 then TwoEvents(SignalEvent(false, 1, true), CAUGHT, [1], Between(0))
    else if i == 9 then TwoEvents(SignalEvent(false, 1, true), SignalEvent(false, 2, true), [], Looping(0, 1, 2))
    else TwoEvents(SignalEvent(false, 1, true), SignalEvent(false, 1, true), [], Calling(0, 1, 1))
  }

  predicate StepTo(b: Base, s: Step, c: Base) {
    Enabled(b, s) && Do(b, s) == c
  }

  predicate CutStep(i: nat) {
    i < |CUT_RUN| && StepTo(CutState(i), CUT_RUN[i], CutState(i + 1))
  }

  lemma CutActive(e: Ev, queue: seq<Id>, x: Id, first: bool)
    requires x == if first then 0 else 1
    ensures var b := if first then TwoEvents(IDLE, e, queue, Off) else TwoEvents(e, IDLE, queue, Off);
            var c := if first then TwoEvents(CAUGHT, e, queue + [x], Off) else TwoEvents(e, CAUGHT, queue + [x], Off);
            Active(b, x, {BySignal}, 2) == c
  {
  }

  lemma CutDel(e: Ev, queue: seq<Id>, q: nat, x: Id, n: nat)
    ensures var b := TwoEvents(SignalEvent(false, 1, true), e, queue, Calling(q, x, n));
            Del(b, 0) == b.(pass := Calling(q, x, 0))
  {
  }

  lemma CutNext(e: Ev, rest: seq<Id>)
    ensures NextEvent(TwoEvents(CAUGHT, e, [0] + rest, Between(0))) ==
            TwoEvents(SignalEvent(false, 2, true), e, rest, Looping(0, 0, 2))
    ensures NextEvent(TwoEvents(e, CAUGHT, [1] + rest, Between(0))) ==
            TwoEvents(e, SignalEvent(false, 2, true), rest, Looping(0, 1, 2))
  {
  }

  lemma CutCalls(i: nat)
    requires i == 0 || i == 1 || i == 5
    ensures CutStep(i)
  {
    hide Active, Del;
    if i == 0 {
      CutActive(IDLE, [], 0, true);
      assert [] + [0] == [0];
    } else if i == 1 {
      CutActive(CAUGHT, [0], 1, false);
      assert [0] + [1] == [0, 1];
    } else {
      CutDel(CAUGHT, [1], 0, 0, 1);
    }
  }

  lemma CutNexts(i: nat)
    requires i == 3 || i == 8
    ensures CutStep(i)
  {
    hide NextEvent;
    if i == 3 {
      CutNext(CAUGHT, [1]);
      assert [0] + [1] == [0, 1];
    } else {
      CutNext(SignalEvent(false, 1, true), []);
      assert [1] + [] == [1];
    }
  }

  lemma CutOthers(i: nat)
    requires i == 2 || i == 4 || i == 6 || i == 7 || i == 9
    ensures CutStep(i)
  {
    if i == 2 {
      var b := TwoEvents(CAUGHT, CAUGHT, [0, 1], Off);
      assert FirstNonEmpty(b.activeq, 0) == 0;
    }
    hide NextEvent, Active, Del, FirstNonEmpty;
  }

  lemma CutSteps(i: nat)
    requires i < |CUT_RUN|
    ensures CutStep(i)
  {
    hide CutStep;
    if i == 0 || i == 1 || i == 5 {
      CutCalls(i);
    } else if i == 3 || i == 8 {
      CutNexts(i);
    } else {
      CutOthers(i);
    }
  }

  /** A run through given states. */
  lemma {:induction false} Chain(run: seq<Step>, states: seq<Base>)
    requires |states| == |run| + 1 && forall i :: 0 <= i < |run| ==> StepTo(states[i], run[i], states[i + 1])
    ensures Valid(states[0], run) && After(states[0], run) == states[|run|]
    decreases |run|
  {
    hide StepTo, Do, Enabled;
    if run != [] {
      assert StepTo(states[0], run[0], states[1]);
      Chain(run[1..], states[1..]);
      StepToIs(states[0], run[0], states[1]);
    }
  }

  lemma StepToIs(b: Base, s: Step, c: Base)
    requires StepTo(b, s, c)
    ensures Enabled(b, s) && Do(b, s) == c
  {
  }

  lemma CutStartInv()
    ensures Inv(CutStart())
  {
    FreshInv({}, [IDLE, IDLE], 1);
    assert CutStart() == Fresh({}, [IDLE, IDLE], 1);
    hide Inv;
  }

  predicate Reaches(b: Base, run: seq<Step>, c: Base) {
    Valid(b, run) && After(b, run) == c
  }

  /** Event y is in its callback with one repeat to come; event x is in no queue, and deleting it takes
      that repeat from y. */
  predicate LosesRepeat(b: Base, x: Id, y: Id) {
    InCallback(b, y, 1) && Known(b, x) && Idle(b.evs[x]) && InCallback(Del(b, x), y, 0)
  }

  /** Two signals caught twice each: the first deletes itself in its callback; when the second one's
      callback deletes the first again, which is in no queue, the second loses its repeat. */
  lemma CutRun() returns (b: Base)
    ensures Inv(CutStart()) && Reaches(CutStart(), CUT_RUN, b)
    ensures LosesRepeat(b, 0, 1)
  {
    hide *;
    CutStartInv();
    CutReached();
    CutLast();
    b := CutState(10);
  }

  lemma CutReached()
    ensures Reaches(CutStart(), CUT_RUN, CutState(10))
  {
    hide CUT_RUN, Valid, After, StepTo, CutState;
    CutLength();
    var states := seq(11, i requires 0 <= i < 11 => CutState(i));
    forall i | 0 <= i < 10 ensures StepTo(states[i], CUT_RUN[i], states[i + 1]) {
      CutSteps(i);
    }
    Chain(CUT_RUN, states);
    CutZero();
  }

  lemma CutZero()
    ensures CutState(0) == CutStart()
  {
  }

  lemma CutLast()
    ensures LosesRepeat(CutState(10), 0, 1)
  {
    hide Del;
    var l := SignalEvent(false, 1, true);
    var b := CutState(10);
    assert b == TwoEvents(l, l, [], Calling(0, 1, 1));
    CutDel(l, [], 0, 1, 1);
    hide CutState;
  }

  lemma CutLength()
    ensures |CUT_RUN| == 10
  {
  }

  // ---- and one that leaves event_process_active ---------------------------------------------------------

  const STRAY_RUN: seq<Step> := [
    CallActive(0, {BySignal}, 2), DoStart, DoNextEvent, DoNextCall, CallDel(0), DoReturn, DoNextCall, DoNextEvent]

  /** The states of that run. */
  function StrayState(i: nat): Base {
    var left := SignalEvent(false, 1, true);
    if i == 0 then CutStart()
    else if i == 1 then TwoEvents(CAUGHT, IDLE, [0], Off)
    else if i == 2 then TwoEvents(CAUGHT, IDLE, [0], Between(0))
    else if i == 3 then TwoEvents(SignalEvent(false, 2, true), IDLE, [], Looping(0, 0, 2))
    else if i == 4 then TwoEvents(left, IDLE, [], Calling(0, 0, 1))
    else if i == 5 then TwoEvents(left, IDLE, [], Calling(0, 0, 0))
    else if i == 6 then TwoEvents(left, IDLE, [], Looping(0, 0, 0))
    else if i == 7 then TwoEvents(left, IDLE, [], Between(0))
    else TwoEvents(left, IDLE, [], Off)
  }

  predicate StrayStep(i: nat) {
    i < 8 && StepTo(StrayState(i), STRAY_RUN[i], StrayState(i + 1))
  }

  lemma StrayCalls(i: nat)
    requires i == 0 || i == 4
    ensures StrayStep(i)
  {
    hide Active, Del;
    if i == 0 {
      CutActive(IDLE, [], 0, true);
      assert [] + [0] == [0];
    } else {
      CutDel(IDLE, [], 0, 0, 1);
    }
  }

  lemma NoNext(b: Base)
    requires b.pass.Between? && At(b.activeq, b.pass.queue) == []
    ensures NextEvent(b) == b.(pass := Off)
  {
  }

  lemma StrayNexts(i: nat)
    requires i == 2 || i == 7
    ensures StrayStep(i)
  {
    hide NextEvent;
    if i == 2 {
      CutNext(IDLE, []);
      assert [0] + [] == [0];
    } else {
      NoNext(TwoEvents(SignalEvent(false, 1, true), IDLE, [], Between(0)));
    }
  }

  lemma StrayOthers(i: nat)
    requires i == 1 || i == 3 || i == 5 || i == 6
    ensures StrayStep(i)
  {
    hide NextEvent, Active, Del;
    if i == 1 {
      assert FirstNonEmpty(TwoEvents(CAUGHT, IDLE, [0], Off).activeq, 0) == 0;
    }
    hide FirstNonEmpty;
  }

  lemma StrayAt(i: nat)
    requires i < 8
    ensures StrayStep(i)
  {
    hide StrayStep;
    if i == 0 || i == 4 {
      StrayCalls(i);
    } else if i == 2 || i == 7 {
      StrayNexts(i);
    } else {
      StrayOthers(i);
    }
  }

  lemma StrayReached()
    ensures Reaches(CutStart(), STRAY_RUN, StrayState(8))
  {
    hide STRAY_RUN, Valid, After, StepTo, StrayState;
    StrayLength();
    var states := seq(9, i requires 0 <= i < 9 => StrayState(i));
    forall i | 0 <= i < 8 ensures StepTo(states[i], STRAY_RUN[i], states[i + 1]) {
      StrayAt(i);
    }
    Chain(STRAY_RUN, states);
  }

  lemma StrayLength()
    ensures |STRAY_RUN| == 8 && StrayState(0) == CutStart()
  {
  }

  /** Nothing is running, event x is in no queue, and deleting it writes to a counter that is gone. */
  predicate WritesStray(b: Base, x: Id) {
    b.pass.Off? && Known(b, x) && Idle(b.evs[x]) && Del(b, x).stray == b.stray + 1
  }

  lemma StrayLast()
    ensures WritesStray(StrayState(8), 0)
  {
    hide Del;
    DeleteStrays(StrayState(8), 0);
  }

  /** A signal caught twice deletes itself in its callback; when it is deleted again after
      event_process_active has returned, the write goes to the counter that is gone. */
  lemma StrayRun() returns (b: Base)
    ensures Inv(CutStart()) && Reaches(CutStart(), STRAY_RUN, b)
    ensures WritesStray(b, 0)
  {
    hide *;
    CutStartInv();
    StrayReached();
    StrayLast();
    b := StrayState(8);
  }
}
