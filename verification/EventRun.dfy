/** Any run of calls and processing steps on a libevent base, also of calls made inside callbacks. */
module EventRun {
  import opened Seqs
  import opened Timeval
  import opened EventBase
  import opened EventSteps
  import opened EventCalls
  import opened EventTimers

  /** Calls, which a program makes at any time, and the steps of event_base_loop. */
  datatype Step =
    | CallAdd(x: Id, tv: Option<Timeval>, now: Timeval)
    | CallDel(x: Id)
    | CallActive(x: Id, res: set<Why>, ncalls: nat)
    | CallPriority(x: Id, pri: int)
    | CallSet(x: Id, io: bool, sig: bool)
    | DoStart
    | DoNextEvent
    | DoNextCall
    | DoReturn
    | DoTimeouts(now: Timeval)
    | DoCorrect(last: Timeval, now: Timeval)

  predicate IsCall(s: Step) {
    s.CallAdd? || s.CallDel? || s.CallActive? || s.CallPriority? || s.CallSet?
  }

  /** Calls come from the program outside the library, that is outside it or in a callback. */
  predicate InProgram(b: Base) {
    b.pass.Off? || b.pass.Calling?
  }

  predicate Enabled(b: Base, s: Step) {
    match s
    case CallAdd(x, tv, now) => InProgram(b) && Known(b, x) && Normal(now) && (tv.Some? ==> Normal(tv.value))
    case CallDel(x) => InProgram(b) && Known(b, x)
    case CallActive(x, _, _) => InProgram(b) && Known(b, x)
    case CallPriority(x, _) => InProgram(b) && Known(b, x)
    case CallSet(x, _, _) => InProgram(b) && Known(b, x) && Idle(b.evs[x]) && x !in b.internal
    case DoStart => b.pass.Off?
    case DoNextEvent => Running(b) && (b.activeq[b.pass.queue] != [] ==> Known(b, b.activeq[b.pass.queue][0]))
    case DoNextCall => b.pass.Looping? && Known(b, b.pass.ev)
    case DoReturn => b.pass.Calling?
    case DoTimeouts(now) => b.pass.Off? && Normal(now)
    case DoCorrect(last, now) => b.pass.Off? && Normal(last) && Normal(now)
  }

  function Do(b: Base, s: Step): Base
    requires Enabled(b, s)
  {
    match s
    case CallAdd(x, tv, now) => AddEvent(b, x, tv, now)
    case CallDel(x) => Del(b, x)
    case CallActive(x, res, ncalls) => Active(b, x, res, ncalls)
    case CallPriority(x, pri) => PrioritySet(b, x, pri)
    case CallSet(x, io, sig) => SetUp(b, x, io, sig)
    case DoStart => StartPass(b)
    case DoNextEvent => NextEvent(b)
    case DoNextCall => NextCall(b)
    case DoReturn => Return(b)
    case DoTimeouts(now) => TimeoutProcess(b, now)
    case DoCorrect(last, now) => Correct(b, Sub(last, now))
  }

  predicate Valid(b: Base, run: seq<Step>)
    decreases |run|
  {
    run == [] || (Enabled(b, run[0]) && Valid(Do(b, run[0]), run[1..]))
  }

  function After(b: Base, run: seq<Step>): Base
    requires Valid(b, run)
    decreases |run|
  {
    if run == [] then b else After(Do(b, run[0]), run[1..])
  }

  // ---- times stay normal ----------------------------------------------------------------------------

  predicate SameTimes(evs: seq<Ev>, next: seq<Ev>) {
    |next| == |evs| && forall x :: 0 <= x < |evs| ==> next[x].when == evs[x].when
  }

  lemma QueueTimes(b: Base, x: Id, k: Queue)
    requires Known(b, x)
    ensures SameTimes(b.evs, QueueInsert(b, x, k).evs) && SameTimes(b.evs, QueueRemove(b, x, k).evs)
    ensures SameTimes(b.evs, RemoveIf(b, x, k).evs)
  {
  }

  lemma DelTimes(b: Base, x: Id)
    requires Known(b, x)
    ensures SameTimes(b.evs, Del(b, x).evs)
  {
    var b1 := AbortLoop(b, x);
    assert b1.evs == b.evs;
    hide AbortLoop, RemoveIf, QueueRemove;
    QueueTimes(b1, x, QTimeout);
    var b2 := RemoveIf(b1, x, QTimeout);
    QueueTimes(b2, x, QActive);
    var b3 := RemoveIf(b2, x, QActive);
    QueueTimes(b3, x, QInserted);
    QueueTimes(b3, x, QSignal);
  }

  lemma ActiveTimes(b: Base, x: Id, res: set<Why>, ncalls: nat)
    requires Known(b, x)
    ensures SameTimes(b.evs, Active(b, x, res, ncalls).evs)
  {
    QueueTimes(SetCalls(b, x, res, ncalls), x, QActive);
    hide QueueInsert;
  }

  lemma {:induction false} ExpireTimes(b: Base, t: seq<Id>, now: Timeval)
    ensures SameTimes(b.evs, Expire(b, t, now).evs)
    decreases |t|
  {
    hide QueueRemove, Del, Active;
    if t != [] && Known(b, t[0]) && !Less(now, b.evs[t[0]].when) {
      var x := t[0];
      QueueTimes(b, x, QTimeout);
      DelTimes(QueueRemove(b, x, QTimeout), x);
      ActiveTimes(Del(QueueRemove(b, x, QTimeout), x), x, {ByTimeout}, 1);
      ExpireTimes(ExpireOne(b, x), t[1..], now);
    }
  }

  lemma AddTimes(b: Base, x: Id, tv: Option<Timeval>, now: Timeval)
    requires Known(b, x) && NormalTimes(b.evs) && Normal(now) && (tv.Some? ==> Normal(tv.value))
    ensures NormalTimes(AddEvent(b, x, tv, now).evs)
  {
    hide QueueInsert, RemoveIf, AbortLoop, QueueRemove;
    var mid := b;
    if tv.Some? {
      QueueTimes(b, x, QTimeout);
      var b1 := RemoveIf(b, x, QTimeout);
      RescheduleTimes(b1, x);
      var b2 := Reschedule(b1, x);
      Meaning(now, tv.value);
      var b3 := SetWhen(b2, x, Add(now, tv.value));
      assert NormalTimes(b3.evs);
      QueueTimes(b3, x, QTimeout);
      mid := AddTimeout(b, x, tv.value, now);
      assert mid == QueueInsert(b3, x, QTimeout);
    }
    QueueTimes(mid, x, QInserted);
    QueueTimes(mid, x, QSignal);
  }

  lemma RescheduleTimes(b: Base, x: Id)
    requires Known(b, x)
    ensures SameTimes(b.evs, Reschedule(b, x).evs)
  {
    assert AbortLoop(b, x).evs == b.evs;
    QueueTimes(AbortLoop(b, x), x, QActive);
    hide AbortLoop, QueueRemove;
  }

  lemma DoTimes(b: Base, s: Step)
    requires Coherent(b) && NormalTimes(b.evs) && Enabled(b, s)
    ensures NormalTimes(Do(b, s).evs)
  {
    hide Coherent;
    match s
    case CallAdd(x, tv, now) =>
      AddTimes(b, x, tv, now);
    case CallDel(x) => DelTimes(b, x);
      hide Del;
    case CallActive(x, res, ncalls) => ActiveTimes(b, x, res, ncalls);
      hide Active;
    case CallPriority(x, pri) =>
    case CallSet(x, io, sig) =>
    case DoStart =>
    case DoNextEvent =>
      if b.activeq[b.pass.queue] != [] {
        QueueTimes(b, b.activeq[b.pass.queue][0], QActive);
      }
      hide QueueRemove;
    case DoNextCall =>
    case DoReturn =>
    case DoTimeouts(now) => ExpireTimes(b, b.tree, now);
      hide Expire;
    case DoCorrect(last, now) =>
      CorrectKeepsWaits(b, last, now);
      hide Correct;
  }

  // ---- the invariant of a run -----------------------------------------------------------------------

  /** While an event's callbacks are being called, the local counter is the event's own, or stopped,
      unless the event has been made active anew. */
  predicate Tracks(b: Base) {
    match b.pass
    case Looping(_, x, n) => Known(b, x) && (b.evs[x].pncalls && n != 0 ==> b.evs[x].ncalls == n)
    case Calling(_, x, n) => Known(b, x) && (b.evs[x].pncalls && n != 0 ==> b.evs[x].ncalls == n)
    case _ => true
  }

  ghost predicate Inv(b: Base) {
    Coherent(b) && NormalTimes(b.evs) && Tracks(b)
  }

  lemma DoCoherent(b: Base, s: Step)
    requires Coherent(b) && NormalTimes(b.evs) && Enabled(b, s)
    ensures Coherent(Do(b, s))
  {
    hide Coherent;
    match s
    case CallAdd(x, tv, now) => AddCoherent(b, x, tv, now);
    case CallDel(x) => DelCoherent(b, x);
    case CallActive(x, res, ncalls) => ActiveCoherent(b, x, res, ncalls);
    case CallPriority(x, pri) => PriorityCoherent(b, x, pri);
    case CallSet(x, io, sig) => SetUpCoherent(b, x, io, sig);
    case DoStart => StartCoherent(b);
    case DoNextEvent => NextEventCoherent(b);
    case DoNextCall => NextCallCoherent(b);
    case DoReturn => ReturnCoherent(b);
    case DoTimeouts(now) => TimeoutProcessExact(b, now);
    case DoCorrect(last, now) => CorrectKeepsWaits(b, last, now);
  }

  /** What a call does to the loop: the same event stays in its callback, the counter stays or is
      stopped, and only making an event active or setting it up changes its own two fields. */
  predicate LoopKept(b: Base, c: Base, x: Id) {
    && |c.evs| == |b.evs|
    && (forall y :: 0 <= y < |b.evs| && y != x ==>
          c.evs[y].ncalls == b.evs[y].ncalls && c.evs[y].pncalls == b.evs[y].pncalls)
    && (c.pass == b.pass || (b.pass.Calling? && c.pass == Calling(b.pass.queue, b.pass.ev, 0)))
  }

  predicate SameCalls(b: Base, c: Base, x: Id) {
    Known(b, x) && Known(c, x) && c.evs[x].ncalls == b.evs[x].ncalls && c.evs[x].pncalls == b.evs[x].pncalls
  }

  lemma QueueLoop(b: Base, x: Id, k: Queue)
    requires Known(b, x)
    ensures LoopKept(b, QueueInsert(b, x, k), x) && SameCalls(b, QueueInsert(b, x, k), x)
    ensures LoopKept(b, RemoveIf(b, x, k), x) && SameCalls(b, RemoveIf(b, x, k), x)
    ensures LoopKept(b, QueueRemove(b, x, k), x) && SameCalls(b, QueueRemove(b, x, k), x)
    ensures QueueInsert(b, x, k).pass == b.pass && RemoveIf(b, x, k).pass == b.pass
    ensures QueueRemove(b, x, k).pass == b.pass
  {
  }

  lemma AbortLoopKept(b: Base, x: Id)
    requires Known(b, x) && InProgram(b)
    ensures LoopKept(b, AbortLoop(b, x), x) && SameCalls(b, AbortLoop(b, x), x)
  {
  }

  lemma DelLoop(b: Base, x: Id)
    requires Known(b, x) && InProgram(b)
    ensures LoopKept(b, Del(b, x), x) && SameCalls(b, Del(b, x), x) && Del(b, x).pass == AbortLoop(b, x).pass
  {
    AbortLoopKept(b, x);
    hide AbortLoop, RemoveIf, QueueRemove, LoopKept, SameCalls;
    var b1 := AbortLoop(b, x);
    QueueLoop(b1, x, QTimeout);
    var b2 := RemoveIf(b1, x, QTimeout);
    KeptChain(b, b1, b2, x);
    QueueLoop(b2, x, QActive);
    var b3 := RemoveIf(b2, x, QActive);
    KeptChain(b, b2, b3, x);
    QueueLoop(b3, x, QInserted);
    QueueLoop(b3, x, QSignal);
    KeptChain(b, b3, Del(b, x), x);
  }

  lemma KeptChain(b: Base, c: Base, d: Base, x: Id)
    requires LoopKept(b, c, x) && SameCalls(b, c, x) && LoopKept(c, d, x) && SameCalls(c, d, x) && d.pass == c.pass
    ensures LoopKept(b, d, x) && SameCalls(b, d, x)
  {
  }

  /** The abort in event_add never happens: an event that is active has no loop. */
  lemma RescheduleLoop(b: Base, x: Id)
    requires Known(b, x) && NoLoop(b.evs)
    ensures LoopKept(b, Reschedule(b, x), x) && SameCalls(b, Reschedule(b, x), x) && Reschedule(b, x).pass == b.pass
  {
    if b.evs[x].active {
      assert AbortLoop(b, x) == b;
      QueueLoop(b, x, QActive);
    }
    hide QueueRemove, AbortLoop;
  }

  lemma AddLoop(b: Base, x: Id, tv: Option<Timeval>, now: Timeval)
    requires Coherent(b) && Known(b, x)
    ensures LoopKept(b, AddEvent(b, x, tv, now), x) && SameCalls(b, AddEvent(b, x, tv, now), x)
    ensures AddEvent(b, x, tv, now).pass == b.pass
  {
    var mid := b;
    if tv.Some? {
      RemoveIfCoherent(b, x, QTimeout);
      QueueLoop(b, x, QTimeout);
      var b1 := RemoveIf(b, x, QTimeout);
      assert NoLoop(b1.evs);
      RescheduleLoop(b1, x);
      hide Coherent, RemoveIf, Reschedule, QueueInsert;
      var b2 := Reschedule(b1, x);
      var b3 := SetWhen(b2, x, Add(now, tv.value));
      QueueLoop(b3, x, QTimeout);
      mid := AddTimeout(b, x, tv.value, now);
      assert mid == QueueInsert(b3, x, QTimeout);
    }
    hide Coherent, RemoveIf, Reschedule, QueueInsert, AddTimeout;
    assert LoopKept(b, mid, x) && SameCalls(b, mid, x) && mid.pass == b.pass;
    QueueLoop(mid, x, QInserted);
    QueueLoop(mid, x, QSignal);
  }

  lemma TracksKept(b: Base, c: Base, x: Id)
    requires Tracks(b) && LoopKept(b, c, x) && InProgram(b)
    requires SameCalls(b, c, x) || (Known(c, x) && !c.evs[x].pncalls)
    ensures Tracks(c)
  {
  }

  lemma ActiveLoop(b: Base, x: Id, res: set<Why>, ncalls: nat)
    requires Coherent(b) && Known(b, x)
    ensures var c := Active(b, x, res, ncalls);
            LoopKept(b, c, x) && Known(c, x) && !c.evs[x].pncalls && c.pass == b.pass
  {
    CoherentNoLoop(b, x);
    hide Coherent, QueueInsert;
    if !b.evs[x].active {
      QueueLoop(SetCalls(b, x, res, ncalls), x, QActive);
    }
  }

  lemma DoTracks(b: Base, s: Step)
    requires Coherent(b) && Tracks(b) && Enabled(b, s)
    ensures Tracks(Do(b, s))
  {
    if s.CallAdd? {
      AddLoop(b, s.x, s.tv, s.now);
      hide Coherent, AddEvent;
      TracksKept(b, Do(b, s), s.x);
    } else if s.CallDel? {
      DelLoop(b, s.x);
      hide Coherent, Del, AbortLoop;
      TracksKept(b, Do(b, s), s.x);
    } else if s.CallActive? {
      ActiveLoop(b, s.x, s.res, s.ncalls);
      hide Coherent, Active;
      TracksKept(b, Do(b, s), s.x);
    } else if s.DoTimeouts? {
      ExpirePass(b, b.tree, s.now);
    } else {
      hide Coherent, Expire, AddEvent, Del, Active, QueueInsert;
      DoTracksRest(b, s);
    }
  }

  lemma DoTracksRest(b: Base, s: Step)
    requires Tracks(b) && Enabled(b, s)
    requires !s.CallAdd? && !s.CallDel? && !s.CallActive? && !s.DoTimeouts?
    ensures Tracks(Do(b, s))
  {
    hide AddEvent, Del, Active, QueueInsert, Expire, Without;
  }

  lemma {:induction false} ExpirePass(b: Base, t: seq<Id>, now: Timeval)
    requires b.pass.Off?
    ensures Expire(b, t, now).pass.Off?
    decreases |t|
  {
    if t != [] && Known(b, t[0]) && !Less(now, b.evs[t[0]].when) {
      var x := t[0];
      var c := QueueRemove(b, x, QTimeout);
      DelLoop(c, x);
      assert Del(c, x).pass.Off?;
      hide QueueRemove, Del, Less;
      assert ExpireOne(b, x).pass.Off?;
      ExpirePass(ExpireOne(b, x), t[1..], now);
    }
  }

  lemma DoInv(b: Base, s: Step)
    requires Inv(b) && Enabled(b, s)
    ensures Inv(Do(b, s))
  {
    DoCoherent(b, s);
    DoTimes(b, s);
    DoTracks(b, s);
    hide Coherent, Do, NormalTimes, Tracks;
  }

  /** In every state of every run the flags name exactly the queues that hold an event, once each, and
      the two counts are those of the queues' events that are not internal. */
  lemma {:induction false} RunCoherent(b: Base, run: seq<Step>)
    requires Inv(b) && Valid(b, run)
    ensures Inv(After(b, run))
    decreases |run|
  {
    if run != [] {
      DoInv(b, run[0]);
      hide Inv, Do, Enabled;
      RunCoherent(Do(b, run[0]), run[1..]);
    }
  }

  /** event_init with n priorities and some events that have been set up. */
  function Fresh(internal: set<Id>, evs: seq<Ev>, n: nat): Base {
    Base(internal, evs, [], [], [], seq(n, _ => []), 0, 0, Off, 0)
  }


  lemma FreshInv(internal: set<Id>, evs: seq<Ev>, n: nat)
    requires forall x :: 0 <= x < |evs| ==> Idle(evs[x]) && evs[x].pri < n && Normal(evs[x].when)
    ensures Inv(Fresh(internal, evs, n))
  {
    var b := Fresh(internal, evs, n);
    CountEmpty(internal, b.activeq);
    forall p | 0 <= p < n ensures NamesActive(evs, b.activeq[p], p) {
      assert b.activeq[p] == [];
    }
    assert Names(evs, [], QTimeout) && Names(evs, [], QInserted) && Names(evs, [], QSignal);
    hide Normal;
  }
}
