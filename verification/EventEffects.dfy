/** What event_add, event_del, event_active and a whole event_process_active do, said of flags, queues,
    microseconds and calls. */
module EventEffects {
  import opened Seqs
  import opened Timeval
  import opened EventBase
  import opened EventSteps
  import opened EventCalls
  import opened EventTimers
  import opened EventRun
  import opened EventPass

  // ---- event_add ----------------------------------------------------------------------------------------

  /** An event that is waiting in an active queue because of its timeout. */
  predicate TimedOut(e: Ev) {
    e.active && ByTimeout in e.res
  }

  /** Nobody but x, and neither the loop nor a pointer that is written through. */
  predicate OnlyEvent(b: Base, c: Base, x: Id) {
    && c.internal == b.internal && c.pass == b.pass && c.stray == b.stray
    && |c.evs| == |b.evs| && |c.activeq| == |b.activeq|
    && forall y :: 0 <= y < |b.evs| && y != x ==> c.evs[y] == b.evs[y]
  }

  /** The active queues without x in that of priority p. */
  function Taken(qs: seq<seq<Id>>, p: nat, x: Id): (r: seq<seq<Id>>)
    requires p < |qs|
    ensures |r| == |qs|
  {
    qs[p := Without(qs[p], x)]
  }

  /** An event for a descriptor that is not active ends up in eventq, else one for a signal in signalq; it goes to
      the end of the queue it was not in, and the two queues are otherwise as they were. */
  predicate Enlisted(b: Base, c: Base, x: Id)
    requires Known(b, x) && Known(c, x)
  {
    var e, f := b.evs[x], c.evs[x];
    && (f.inserted <==> e.inserted || (e.io && !f.active))
    && (f.signal <==> e.signal || (e.sig && (e.inserted || !f.inserted)))
    && c.eventq == b.eventq + (if f.inserted && !e.inserted then [x] else [])
    && c.signalq == b.signalq + (if f.signal && !e.signal then [x] else [])
    && f == e.(timeout := f.timeout, inserted := f.inserted, signal := f.signal, active := f.active, when := f.when)
  }

  /** With a timeout tv, the event is in the tree, due tv after now, and no longer active if a timeout had made
      it so; without one its timer stays.  The other events keep their flags, times and places. */
  lemma AddEffect(b: Base, x: Id, tv: Option<Timeval>, now: Timeval)
    requires Coherent(b) && Known(b, x) && NormalTimes(b.evs) && Normal(now) && (tv.Some? ==> Normal(tv.value))
    ensures var c, e := AddEvent(b, x, tv, now), b.evs[x];
            var f, gone := c.evs[x], tv.Some? && TimedOut(e);
            && Coherent(c) && NormalTimes(c.evs) && OnlyEvent(b, c, x) && Enlisted(b, c, x)
            && (tv.Some? ==> x in c.tree && f.timeout && Micros(f.when) == Micros(now) + Micros(tv.value))
            && (tv.None? ==> c.tree == b.tree && f.when == e.when && f.timeout == e.timeout)
            && Without(c.tree, x) == Without(b.tree, x) && f.active == (e.active && !gone)
            && e.pri < |b.activeq| && c.activeq == if gone then Taken(b.activeq, e.pri, x) else b.activeq
  {
    hide Coherent, AddTimeout, Micros, Add, NormalTimes, Without, Taken, TimedOut, AddInterest, Enlisted, OnlyEvent;
    AddCoherent(b, x, tv, now);
    AddTimes(b, x, tv, now);
    CoherentNoLoop(b, x);
    if tv.Some? {
      Meaning(now, tv.value);
      TimerEffect(b, x, tv.value, now);
      InterestEffect(b, AddTimeout(b, x, tv.value, now), x);
    } else {
      Twice(b.evs, x, b.evs[x], b.evs[x]);
      InterestEffect(b, b, x);
    }
  }

  lemma InterestEffect(b: Base, d: Base, x: Id)
    requires Known(b, x) && Known(d, x) && |d.activeq| == |b.activeq|
    requires d == b.(evs := b.evs[x := d.evs[x]], activeq := d.activeq, tree := d.tree, count := d.count,
                     countActive := d.countActive)
    requires d.evs[x] == b.evs[x].(timeout := d.evs[x].timeout, active := d.evs[x].active, when := d.evs[x].when)
    ensures var c, f := AddInterest(d, x), AddInterest(d, x).evs[x];
            && OnlyEvent(b, c, x) && Enlisted(b, c, x) && c.tree == d.tree && c.activeq == d.activeq
            && f.timeout == d.evs[x].timeout && f.active == d.evs[x].active && f.when == d.evs[x].when
  {
  }

  lemma TimerEffect(b: Base, x: Id, tv: Timeval, now: Timeval)
    requires Coherent(b) && Known(b, x)
    ensures var c, e := AddTimeout(b, x, tv, now), b.evs[x];
            && e.pri < |b.activeq| && x in c.tree && Without(c.tree, x) == Without(b.tree, x)
            && c == b.(evs := b.evs[x := e.(timeout := true, active := e.active && !TimedOut(e), when := Add(now, tv))],
                       activeq := if TimedOut(e) then Taken(b.activeq, e.pri, x) else b.activeq,
                       tree := c.tree, count := c.count, countActive := c.countActive)
  {
    CoherentNoLoop(b, x);
    TreeWithout(b, x);
    hide Coherent, Without, TreeInsert, Add, RemoveIf, Reschedule, Taken, TimedOut, QueueInsert, SetFlag;
    var e := b.evs[x];
    var f := e.(timeout := false, active := e.active && !TimedOut(e));
    var b1 := RemoveIf(b, x, QTimeout);
    TakenBack(b1, x);
    TimedOutSame(e);
    Twice(b.evs, x, e.(timeout := false), f);
    var b2 := Reschedule(b1, x);
    assert b2.evs == b.evs[x := f];
    Twice(b.evs, x, f, f.(when := Add(now, tv)));
    Twice(b.evs, x, f.(when := Add(now, tv)), f.(when := Add(now, tv), timeout := true));
    var b3 := SetWhen(b2, x, Add(now, tv));
    InsertedBack(b.evs[x := f.(when := Add(now, tv), timeout := true)], b3.tree, x);
    QueuedTimer(b3, x);
  }

  lemma TimedOutSame(e: Ev)
    ensures TimedOut(e.(timeout := false)) == TimedOut(e) && (TimedOut(e) ==> e.active)
  {
  }

  lemma Twice(evs: seq<Ev>, x: Id, e: Ev, f: Ev)
    requires 0 <= x < |evs|
    ensures evs[x := e][x := f] == evs[x := f] && evs[x := evs[x]] == evs
  {
  }

  lemma QueuedTimer(b: Base, x: Id)
    requires Known(b, x)
    ensures var c, evs := QueueInsert(b, x, QTimeout), b.evs[x := b.evs[x].(timeout := true)];
            c == b.(evs := evs, tree := TreeInsert(evs, b.tree, x), count := c.count)
  {
    hide TreeInsert;
  }

  lemma TakenBack(b: Base, x: Id)
    requires Known(b, x) && b.evs[x].pri < |b.activeq| && (b.evs[x].active ==> !b.evs[x].pncalls)
    ensures var c, e := Reschedule(b, x), b.evs[x];
            c == if TimedOut(e) then
                   b.(evs := b.evs[x := e.(active := false)], activeq := Taken(b.activeq, e.pri, x),
                      count := c.count, countActive := c.countActive)
                 else b
  {
    hide Without;
    assert b.evs[x].active ==> AbortLoop(b, x) == b;
    hide AbortLoop;
  }

  /** Taking the event out of the tree, if it is there. */
  lemma TreeWithout(b: Base, x: Id)
    requires Coherent(b) && Known(b, x)
    ensures x !in Without(b.tree, x)
    ensures var c := RemoveIf(b, x, QTimeout);
            c == b.(evs := b.evs[x := b.evs[x].(timeout := false)], tree := Without(b.tree, x), count := c.count)
  {
    TreeNames(b);
    hide Coherent, NoDup, Without;
    WithoutMembers(b.tree, x);
    if !b.evs[x].timeout {
      WithoutAbsent(b.tree, x);
    }
  }

  lemma TreeNames(b: Base)
    requires Coherent(b)
    ensures Names(b.evs, b.tree, QTimeout)
  {
  }

  lemma {:induction false} InsertedBack(evs: seq<Ev>, t: seq<Id>, x: Id)
    requires x !in t
    ensures x in TreeInsert(evs, t, x) && Without(TreeInsert(evs, t, x), x) == t
  {
    hide Before;
    if t == [] || Before(evs, x, t[0]) {
      assert ([x] + t)[1..] == t;
    } else {
      InsertedBack(evs, t[1..], x);
      var r := TreeInsert(evs, t[1..], x);
      assert ([t[0]] + r)[1..] == r;
    }
  }

  /** timeout_process at a later time makes the event active by timeout exactly if that time has come. */
  lemma AddedFires(b: Base, x: Id, tv: Timeval, now: Timeval, t: Timeval)
    requires Coherent(b) && Known(b, x) && NormalTimes(b.evs) && Normal(now) && Normal(tv) && Normal(t)
    ensures var c := AddEvent(b, x, Some(tv), now);
            var f := TimeoutProcess(c, t).evs[x];
            if Micros(now) + Micros(tv) <= Micros(t)
            then f.active && f.res == {ByTimeout} && f.ncalls == 1 && !f.timeout && !f.inserted
            else f == c.evs[x] && f.timeout
  {
    AddEffect(b, x, Some(tv), now);
    var c := AddEvent(b, x, Some(tv), now);
    TimeoutProcessExact(c, t);
    TimesNormal(c, x);
    Meaning(t, When(c.evs, x));
    TreeNames(c);
    hide Coherent, AddEvent, TimeoutProcess, Due, Micros, Less, NormalTimes, Sorted;
  }

  lemma TimesNormal(c: Base, x: Id)
    requires NormalTimes(c.evs) && Known(c, x)
    ensures Normal(When(c.evs, x))
  {
  }

  // ---- event_del --------------------------------------------------------------------------------------

  /** The event leaves the tree, its active queue and eventq, or signalq if it was not in eventq; the others keep
      their flags, times and places. */
  lemma DelLeaves(b: Base, x: Id)
    requires Coherent(b) && Known(b, x)
    ensures var c, e := Del(b, x), b.evs[x];
            && Coherent(c) && c.internal == b.internal && |c.activeq| == |b.activeq|
            && c.evs == b.evs[x := e.(timeout := false, active := false, inserted := false,
                                      signal := e.signal && e.inserted)]
            && c.tree == Without(b.tree, x) && c.eventq == Without(b.eventq, x)
            && c.signalq == (if e.inserted then b.signalq else Without(b.signalq, x))
            && forall p :: 0 <= p < |b.activeq| ==> c.activeq[p] == Without(b.activeq[p], x)
  {
    hide Coherent, Without, AbortLoop, RemoveIf, QueueRemove;
    DelCoherent(b, x);
    AbortCoherent(b, x);
    var b1 := AbortLoop(b, x);
    AbortQueues(b, x);
    RemoveIfCoherent(b1, x, QTimeout);
    TreeWithout(b1, x);
    var b2 := RemoveIf(b1, x, QTimeout);
    RemoveIfCoherent(b2, x, QActive);
    ActiveWithout(b2, x);
    var e := b.evs[x];
    Twice(b.evs, x, e.(timeout := false), e.(timeout := false, active := false));
    var b3 := RemoveIf(b2, x, QActive);
    assert b3.evs == b.evs[x := e.(timeout := false, active := false)];
    InterestLeaves(b3, x);
    Twice(b.evs, x, b3.evs[x], Del(b, x).evs[x]);
  }

  lemma InterestLeaves(b: Base, x: Id)
    requires Coherent(b) && Known(b, x)
    ensures var c, e := if b.evs[x].inserted then QueueRemove(b, x, QInserted) else RemoveIf(b, x, QSignal), b.evs[x];
            c == b.(evs := b.evs[x := e.(inserted := false, signal := e.signal && e.inserted)],
                    eventq := Without(b.eventq, x),
                    signalq := if e.inserted then b.signalq else Without(b.signalq, x), count := c.count)
  {
    Gone(b, x);
    hide Coherent, Without;
    Twice(b.evs, x, b.evs[x], b.evs[x]);
  }

  lemma ActiveWithout(b: Base, x: Id)
    requires Coherent(b) && Known(b, x)
    ensures var c := RemoveIf(b, x, QActive);
            && c == b.(evs := b.evs[x := b.evs[x].(active := false)], activeq := c.activeq,
                       count := c.count, countActive := c.countActive)
            && |c.activeq| == |b.activeq|
            && forall p :: 0 <= p < |b.activeq| ==> c.activeq[p] == Without(b.activeq[p], x)
  {
    Gone(b, x);
    hide Coherent, Without;
  }

  lemma AbortQueues(b: Base, x: Id)
    requires Known(b, x)
    ensures var c := AbortLoop(b, x); c == b.(pass := c.pass, stray := c.stray)
  {
  }

  /** Taking an event out of the queues whose flag it does not have changes nothing. */
  lemma Gone(b: Base, x: Id)
    requires Coherent(b) && Known(b, x)
    ensures !b.evs[x].timeout ==> Without(b.tree, x) == b.tree
    ensures !b.evs[x].inserted ==> Without(b.eventq, x) == b.eventq
    ensures !b.evs[x].signal ==> Without(b.signalq, x) == b.signalq
    ensures forall p :: 0 <= p < |b.activeq| && !(b.evs[x].active && b.evs[x].pri == p) ==>
              Without(b.activeq[p], x) == b.activeq[p]
    ensures b.evs[x].pri < |b.activeq|
  {
    CoherentNoLoop(b, x);
    AbsentHere(b.evs, b.tree, x, QTimeout);
    AbsentHere(b.evs, b.eventq, x, QInserted);
    AbsentHere(b.evs, b.signalq, x, QSignal);
    forall p | 0 <= p < |b.activeq| && !(b.evs[x].active && b.evs[x].pri == p)
      ensures Without(b.activeq[p], x) == b.activeq[p]
    {
      NamesAt(b, p);
      WithoutAbsent(b.activeq[p], x);
    }
  }

  lemma AbsentHere(evs: seq<Ev>, q: seq<Id>, x: Id, k: Queue)
    requires Names(evs, q, k) && 0 <= x < |evs|
    ensures !Flag(evs[x], k) ==> Without(q, x) == q
  {
    hide NoDup, Without;
    if !Flag(evs[x], k) {
      WithoutAbsent(q, x);
    }
  }

  // ---- event_active -------------------------------------------------------------------------------------

  /** An event that is not active goes to the end of its priority's queue with its reasons and number of calls;
      one that is active gains the reasons and keeps its place and its calls.  Nothing else changes. */
  lemma ActiveJoins(b: Base, x: Id, res: set<Why>, ncalls: nat)
    requires Coherent(b) && Known(b, x)
    ensures var c, e := Active(b, x, res, ncalls), b.evs[x];
            && OnlyEvent(b, c, x) && c.tree == b.tree && c.eventq == b.eventq && c.signalq == b.signalq
            && c.evs[x].active && c.evs[x].res == (if e.active then e.res + res else res)
            && c.evs[x].ncalls == (if e.active then e.ncalls else ncalls) && !c.evs[x].pncalls
            && c.evs[x] == e.(active := true, res := c.evs[x].res, ncalls := c.evs[x].ncalls, pncalls := false)
            && e.pri < |b.activeq|
            && c.activeq == if e.active then b.activeq else b.activeq[e.pri := b.activeq[e.pri] + [x]]
  {
    CoherentNoLoop(b, x);
    hide Coherent;
  }

  /** event_priority_set says which queue a later event_active uses, unless the event is active already or the
      number is none of a queue, and then it changes nothing. */
  lemma PriorityUsed(b: Base, x: Id, pri: int, res: set<Why>, ncalls: nat)
    requires Coherent(b) && Known(b, x)
    ensures var c := PrioritySet(b, x, pri);
            if !b.evs[x].active && 0 <= pri < |b.activeq|
            then Active(c, x, res, ncalls).activeq == b.activeq[pri := b.activeq[pri] + [x]]
            else c == b
  {
    PriorityCoherent(b, x, pri);
    hide Coherent, Active;
    ActiveJoins(PrioritySet(b, x, pri), x, res, ncalls);
  }

  /** event_set puts an event into the middle priority. */
  lemma SetUpMiddle(b: Base, x: Id, io: bool, sig: bool, res: set<Why>, ncalls: nat)
    requires Coherent(b) && Known(b, x) && Idle(b.evs[x]) && x !in b.internal
    ensures var c, mid := SetUp(b, x, io, sig), |b.activeq| / 2;
            && OnlyEvent(b, c, x) && c.evs[x].io == io && c.evs[x].sig == sig && Idle(c.evs[x])
            && mid < |b.activeq|
            && Active(c, x, res, ncalls).activeq == b.activeq[mid := b.activeq[mid] + [x]]
  {
    CoherentNoLoop(b, x);
    SetUpCoherent(b, x, io, sig);
    hide Coherent, Active;
    ActiveJoins(SetUp(b, x, io, sig), x, res, ncalls);
  }

  // ---- event_process_active --------------------------------------------------------------------------------

  /** The events whose callbacks are called in the rest of event_process_active, in order. */
  function Called(b: Base, script: Script): (r: seq<Id>)
    requires Inv(b)
    decreases |script|, Left(b).0, Left(b).1, Left(b).2
  {
    match b.pass
    case Off => []
    case Between(q) =>
      EventEnabled(b);
      EventLeft(b);
      DoInv(b, DoNextEvent);
      Called(NextEvent(b), script)
    case Looping(q, x, n) =>
      CallEnabled(b);
      DoInv(b, DoNextCall);
      Called(NextCall(b), script)
    case Calling(q, x, n) =>
      var c := if script == [] then b else DoCalls(b, script[0]);
      DoInv(c, DoReturn);
      [x] + Called(Return(c), if script == [] then [] else script[1..])
  }

  /** Each of a list of events as often as it has calls. */
  function Repeated(evs: seq<Ev>, q: seq<Id>): seq<Id> {
    if q == [] then []
    else seq(if 0 <= q[0] < |evs| then evs[q[0]].ncalls else 0, _ => q[0]) + Repeated(evs, q[1..])
  }

  /** An event after its calls. */
  function Served(e: Ev): Ev {
    e.(active := false, ncalls := 0, pncalls := true)
  }

  /** The base after the calls of the event in its loop, if its callback calls nothing. */
  function AfterLoop(b: Base): Base
    requires b.pass.Looping? && Known(b, b.pass.ev)
  {
    b.(pass := Between(b.pass.queue), evs := b.evs[b.pass.ev := b.evs[b.pass.ev].(ncalls := 0)])
  }

  lemma LoopEnds(b: Base)
    requires b.pass.Looping? && Known(b, b.pass.ev) && b.evs[b.pass.ev].ncalls == b.pass.ncalls == 0
    ensures NextCall(b) == AfterLoop(b)
  {
    var x := b.pass.ev;
    assert b.evs[x].(ncalls := 0) == b.evs[x];
    Twice(b.evs, x, b.evs[x], b.evs[x]);
  }

  lemma LoopGoesOn(b: Base)
    requires b.pass.Looping? && Known(b, b.pass.ev) && b.evs[b.pass.ev].ncalls == b.pass.ncalls > 0
    ensures var x, d := b.pass.ev, NextCall(b);
            && d.pass == Calling(b.pass.queue, x, b.pass.ncalls - 1)
            && Return(d) == b.(pass := Looping(b.pass.queue, x, b.pass.ncalls - 1),
                               evs := b.evs[x := b.evs[x].(ncalls := b.pass.ncalls - 1)])
            && AfterLoop(Return(d)) == AfterLoop(b)
  {
    var x := b.pass.ev;
    Twice(b.evs, x, b.evs[x].(ncalls := b.pass.ncalls - 1), b.evs[x].(ncalls := 0));
  }

  lemma {:induction false} LoopCalls(b: Base, n: nat)
    requires Inv(b) && b.pass.Looping? && b.pass.ncalls == n && Known(b, b.pass.ev) && b.evs[b.pass.ev].ncalls == n
    ensures var x, c := b.pass.ev, AfterLoop(b);
            Inv(c) && PassRun(b, []) == PassRun(c, []) && Called(b, []) == seq(n, _ => x) + Called(c, [])
    decreases n
  {
    hide Inv, NextCall, AfterLoop, Return, Left;
    var x, c := b.pass.ev, AfterLoop(b);
    CallEnabled(b);
    DoInv(b, DoNextCall);
    var d := NextCall(b);
    if n == 0 {
      LoopEnds(b);
      NoneCalled(Called(c, []), x);
    } else {
      LoopGoesOn(b);
      ReturnInv(d);
      LoopCalls(Return(d), n - 1);
      OneMore(Called(c, []), x, n);
      CalledOnce(d);
    }
  }

  lemma ReturnInv(d: Base)
    requires Inv(d) && d.pass.Calling?
    ensures Inv(Return(d))
  {
    hide Inv;
    DoInv(d, DoReturn);
  }

  lemma CalledOnce(d: Base)
    requires Inv(d) && d.pass.Calling?
    ensures Inv(Return(d)) && Called(d, []) == [d.pass.ev] + Called(Return(d), [])
    ensures PassRun(d, []) == PassRun(Return(d), [])
  {
    hide Inv, Return;
    ReturnInv(d);
  }

  lemma NoneCalled(rest: seq<Id>, x: Id)
    ensures seq(0, _ => x) + rest == rest
  {
  }

  lemma OneMore(rest: seq<Id>, x: Id, n: nat)
    requires n > 0
    ensures [x] + (seq(n - 1, _ => x) + rest) == seq(n, _ => x) + rest
  {
  }

  /** The base after all events of a list have been taken from queue q and called. */
  predicate AllServed(b: Base, c: Base, q: nat, list: seq<Id>) {
    && c == b.(evs := c.evs, activeq := c.activeq, pass := Off, count := c.count, countActive := c.countActive)
    && |c.evs| == |b.evs| && |c.activeq| == |b.activeq| && q < |b.activeq| && c.activeq[q] == []
    && (forall p :: 0 <= p < |b.activeq| && p != q ==> c.activeq[p] == b.activeq[p])
    && (forall y :: 0 <= y < |b.evs| ==> c.evs[y] == if y in list then Served(b.evs[y]) else b.evs[y])
  }

  lemma {:induction false} RepeatedSame(evs: seq<Ev>, next: seq<Ev>, q: seq<Id>)
    requires |next| == |evs| && forall y :: y in q && 0 <= y < |evs| ==> next[y].ncalls == evs[y].ncalls
    ensures Repeated(next, q) == Repeated(evs, q)
  {
    if q != [] {
      RepeatedSame(evs, next, q[1..]);
    }
  }

  /** What the head of a queue becomes. */
  lemma HeadTaken(b: Base)
    requires Coherent(b) && Running(b) && b.activeq[b.pass.queue] != []
    ensures var q := b.pass.queue; var list := b.activeq[q]; var x := list[0];
            && x !in list[1..] && Known(b, x)
            && var d := NextEvent(b);
            && d == b.(evs := b.evs[x := b.evs[x].(active := false, pncalls := true)],
                       activeq := b.activeq[q := list[1..]], pass := Looping(q, x, b.evs[x].ncalls),
                       count := d.count, countActive := d.countActive)
  {
    var q := b.pass.queue;
    HeadActive(b, q);
    TailClear(b, q);
    var x := b.activeq[q][0];
    TreeTail(b.activeq[q], x);
    hide Coherent, Without;
    Twice(b.evs, x, b.evs[x].(active := false), b.evs[x].(active := false, pncalls := true));
  }

  lemma TailClear(b: Base, q: nat)
    requires Coherent(b) && q < |b.activeq| && b.activeq[q] != []
    ensures b.activeq[q][0] !in b.activeq[q][1..]
  {
    NamesAt(b, q);
  }

  /** The for loop of event_process_active, if no callback calls anything, calls the queue's events in order,
      each as often as it has calls, and leaves the queue empty. */
  lemma {:induction false} QueueCalls(b: Base)
    requires Inv(b) && b.pass.Between?
    ensures var q := b.pass.queue;
            && q < |b.activeq| && Called(b, []) == Repeated(b.evs, b.activeq[q])
            && AllServed(b, PassRun(b, []).0, q, b.activeq[q])
    decreases |At(b.activeq, b.pass.queue)|
  {
    InvParts(b);
    hide Inv, NextEvent, AfterLoop, AllServed, Left, Repeated, Served;
    var q := b.pass.queue;
    EventEnabled(b);
    DoInv(b, DoNextEvent);
    if b.activeq[q] == [] {
      EmptyQueue(b);
    } else {
      HeadTaken(b);
      var d, x, rest := NextEvent(b), b.activeq[q][0], b.activeq[q][1..];
      LoopCalls(d, b.evs[x].ncalls);
      var e := AfterLoop(d);
      HeadServed(b, d, x, rest);
      QueueCalls(e);
      assert b.activeq[q] == [x] + rest;
      RepeatedSame(b.evs, e.evs, rest);
      RepeatedHead(b.evs, x, rest);
      ServedMore(b, e, PassRun(e, []).0, q, x, rest);
    }
  }

  lemma InvParts(b: Base)
    requires Inv(b)
    ensures Coherent(b) && (b.pass.Between? ==> Running(b))
  {
    hide Coherent;
    PassKnown(b);
  }

  lemma EmptyQueue(b: Base)
    requires Inv(b) && Running(b) && b.activeq[b.pass.queue] == []
    ensures Called(b, []) == [] == Repeated(b.evs, []) && AllServed(b, PassRun(b, []).0, b.pass.queue, [])
  {
    hide Inv;
    EventEnabled(b);
    DoInv(b, DoNextEvent);
  }

  lemma HeadServed(b: Base, d: Base, x: Id, rest: seq<Id>)
    requires b.pass.Between? && b.pass.queue < |b.activeq| && Known(b, x)
    requires d == b.(evs := b.evs[x := b.evs[x].(active := false, pncalls := true)],
                     activeq := b.activeq[b.pass.queue := rest], pass := Looping(b.pass.queue, x, b.evs[x].ncalls),
                     count := d.count, countActive := d.countActive)
    ensures var e := AfterLoop(d);
            e == b.(evs := b.evs[x := Served(b.evs[x])], activeq := b.activeq[b.pass.queue := rest],
                    count := d.count, countActive := d.countActive)
  {
    Twice(b.evs, x, b.evs[x].(active := false, pncalls := true), Served(b.evs[x]));
  }

  lemma RepeatedHead(evs: seq<Ev>, x: Id, rest: seq<Id>)
    requires 0 <= x < |evs|
    ensures Repeated(evs, [x] + rest) == seq(evs[x].ncalls, _ => x) + Repeated(evs, rest)
  {
    assert ([x] + rest)[1..] == rest;
  }

  lemma ServedMore(b: Base, e: Base, c: Base, q: nat, x: Id, rest: seq<Id>)
    requires b.pass.Between? && q < |b.activeq| && Known(b, x) && x !in rest
    requires e == b.(evs := b.evs[x := Served(b.evs[x])], activeq := b.activeq[q := rest],
                     count := e.count, countActive := e.countActive)
    requires AllServed(e, c, q, rest)
    ensures AllServed(b, c, q, [x] + rest)
  {
    hide Served;
  }

  /** event_process_active when something is active and no callback calls anything: of the priorities with active
      events it serves the lowest-numbered one and no other. */
  lemma QuietPass(b: Base)
    requires Inv(b) && b.pass == Off && b.countActive > 0
    ensures var s := StartPass(b);
            && Inv(s) && s.pass.Between? && s.pass.queue < |b.activeq|
            && var q := s.pass.queue;
            && b.activeq[q] != [] && (forall p :: 0 <= p < q ==> b.activeq[p] == [])
            && Called(s, []) == Repeated(b.evs, b.activeq[q])
            && AllServed(b, PassRun(s, []).0, q, b.activeq[q])
  {
    hide Inv, Repeated, StartPass;
    InvParts(b);
    DoInv(b, DoStart);
    LowestQueueChosen(b);
    StartIs(b);
    QueueCalls(StartPass(b));
  }

  lemma StartIs(b: Base)
    ensures var s := StartPass(b); s == b.(pass := s.pass)
  {
  }
}
