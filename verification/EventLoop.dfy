/** event.c on its own fields: the queues, the counts and the events are changed in place. */
module EventLoop {
  import opened Seqs
  import opened Timeval
  import opened EventBase
  import opened EventSteps
  import opened EventCalls
  import opened EventTimers
  import opened EventRun
  import opened EventPass

  class Loop {
    const internal: set<Id>
    var evs: seq<Ev>
    var timetree: seq<Id>
    var eventqueue: seq<Id>
    var signalqueue: seq<Id>
    var activequeues: seq<seq<Id>>
    var eventCount: int
    var eventCountActive: int
    var pass: Pass
    var stray: nat

    function Value(): Base
      reads this
    {
      Base(internal, evs, timetree, eventqueue, signalqueue, activequeues, eventCount, eventCountActive, pass, stray)
    }

    constructor (own: set<Id>, events: seq<Ev>, npriorities: nat)
      ensures Value() == Fresh(own, events, npriorities)
    {
      internal := own;
      evs := events;
      timetree, eventqueue, signalqueue := [], [], [];
      activequeues := seq(npriorities, _ => []);
      eventCount, eventCountActive := 0, 0;
      pass := Off;
      stray := 0;
    }

    /** event_queue_insert */
    method QueueInsertEv(x: Id, k: Queue)
      requires 0 <= x < |evs|
      modifies this
      ensures Value() == QueueInsert(old(Value()), x, k)
    {
      var docount := if x in internal then 0 else 1;
      eventCount := eventCount + docount;
      evs := evs[x := SetFlag(evs[x], k, true)];
      match k {
        case QActive =>
          eventCountActive := eventCountActive + docount;
          var p := evs[x].pri;
          activequeues := Put(activequeues, p, At(activequeues, p) + [x]);
        case QSignal => signalqueue := signalqueue + [x];
        case QTimeout => timetree := TreeInsert(evs, timetree, x);
        case QInserted => eventqueue := eventqueue + [x];
      }
    }

    /** event_queue_remove */
    method QueueRemoveEv(x: Id, k: Queue)
      requires 0 <= x < |evs|
      modifies this
      ensures Value() == QueueRemove(old(Value()), x, k)
    {
      var docount := if x in internal then 0 else 1;
      eventCount := eventCount - docount;
      evs := evs[x := SetFlag(evs[x], k, false)];
      match k {
        case QActive =>
          eventCountActive := eventCountActive - docount;
          var p := evs[x].pri;
          activequeues := Put(activequeues, p, Without(At(activequeues, p), x));
        case QSignal => signalqueue := Without(signalqueue, x);
        case QTimeout => timetree := Without(timetree, x);
        case QInserted => eventqueue := Without(eventqueue, x);
      }
    }

    method RemoveIfFlagged(x: Id, k: Queue)
      requires 0 <= x < |evs|
      modifies this
      ensures Value() == RemoveIf(old(Value()), x, k)
    {
      hide QueueRemove;
      if Flag(evs[x], k) {
        QueueRemoveEv(x, k);
      }
    }

    /** Writing 0 through ev_pncalls, if there is anything to stop. */
    method Abort(x: Id)
      requires 0 <= x < |evs|
      modifies this
      ensures Value() == AbortLoop(old(Value()), x)
    {
      if evs[x].ncalls != 0 && evs[x].pncalls {
        match pass {
          case Off => stray := stray + 1;
          case Between(_) =>
          case Looping(q, ev, _) => pass := Looping(q, ev, 0);
          case Calling(q, ev, _) => pass := Calling(q, ev, 0);
        }
      }
    }

    /** event_del */
    method DelEvent(x: Id)
      requires 0 <= x < |evs|
      modifies this
      ensures Value() == Del(old(Value()), x)
    {
      hide AbortLoop, RemoveIf, QueueRemove;
      assert AbortLoop(Value(), x).evs == evs by {
        SameEvents(Value(), x);
      }
      Abort(x);
      RemoveIfFlagged(x, QTimeout);
      RemoveIfFlagged(x, QActive);
      if evs[x].inserted {
        QueueRemoveEv(x, QInserted);
      } else {
        RemoveIfFlagged(x, QSignal);
      }
    }

    /** event_active */
    method ActivateEvent(x: Id, res: set<Why>, ncalls: nat)
      requires 0 <= x < |evs|
      modifies this
      ensures Value() == Active(old(Value()), x, res, ncalls)
    {
      hide QueueInsert;
      if evs[x].active {
        evs := evs[x := evs[x].(res := evs[x].res + res)];
        return;
      }
      evs := evs[x := evs[x].(res := res, ncalls := ncalls, pncalls := false)];
      QueueInsertEv(x, QActive);
    }

    /** event_add: rescheduling a timer. */
    method SetTimer(x: Id, tv: Timeval, now: Timeval)
      requires 0 <= x < |evs|
      modifies this
      ensures Value() == AddTimeout(old(Value()), x, tv, now)
    {
      hide RemoveIf, AbortLoop, QueueRemove, QueueInsert;
      RemoveIfFlagged(x, QTimeout);
      if evs[x].active && ByTimeout in evs[x].res {
        assert AbortLoop(Value(), x).evs == evs by {
          SameEvents(Value(), x);
        }
        Abort(x);
        QueueRemoveEv(x, QActive);
      }
      evs := evs[x := evs[x].(when := Add(now, tv))];
      QueueInsertEv(x, QTimeout);
    }

    /** event_add */
    method AddEv(x: Id, tv: Option<Timeval>, now: Timeval)
      requires 0 <= x < |evs|
      modifies this
      ensures Value() == AddEvent(old(Value()), x, tv, now)
    {
      hide AddTimeout, QueueInsert;
      if tv.Some? {
        SetTimer(x, tv.value, now);
      }
      if evs[x].io && !evs[x].inserted && !evs[x].active {
        QueueInsertEv(x, QInserted);
      } else if evs[x].sig && !evs[x].signal {
        QueueInsertEv(x, QSignal);
      }
    }

    /** timeout_process: from the first timer of the tree until one is not due. */
    method ProcessTimeouts(now: Timeval)
      requires Coherent(Value())
      modifies this
      ensures Value() == TimeoutProcess(old(Value()), now)
    {
      hide Coherent, QueueRemove, Del, Active, Less;
      ghost var goal := TimeoutProcess(Value(), now);
      while timetree != []
        invariant Coherent(Value()) && Expire(Value(), timetree, now) == goal
        decreases |timetree|
      {
        var x := timetree[0];
        FirstTimer(Value());
        if Less(now, evs[x].when) {
          return;
        }
        ExpireOneCoherent(Value(), x);
        ExpireOneEffect(Value(), x);
        QueueRemoveEv(x, QTimeout);
        DelEvent(x);
        ActivateEvent(x, {ByTimeout}, 1);
      }
    }

    // ---- event_process_active ------------------------------------------------------------------------

    /** The first active queue that is not empty. */
    method FindQueue() returns (i: nat)
      ensures i == FirstNonEmpty(activequeues, 0)
    {
      i := 0;
      while i < |activequeues|
        invariant i <= |activequeues| && FirstNonEmpty(activequeues, i) == FirstNonEmpty(activequeues, 0)
      {
        if activequeues[i] != [] {
          return;
        }
        i := i + 1;
      }
    }

    /** Taking the first event of the queue out and pointing it at the counter. */
    method TakeFirst(q: nat)
      requires pass == Between(q) && At(activequeues, q) != [] && 0 <= At(activequeues, q)[0] < |evs|
      modifies this
      ensures Value() == NextEvent(old(Value()))
    {
      hide QueueRemove;
      var x := At(activequeues, q)[0];
      QueueRemoveEv(x, QActive);
      pass := Looping(q, x, evs[x].ncalls);
      evs := evs[x := evs[x].(pncalls := true)];
    }

    /** A callback making its calls. */
    method Callback(calls: seq<Step>)
      requires Inv(Value()) && pass.Calling?
      modifies this
      ensures Value() == DoCalls(old(Value()), calls)
    {
      hide Inv, Enabled, Do;
      ghost var goal := DoCalls(Value(), calls);
      var i := 0;
      while i < |calls|
        invariant i <= |calls| && Inv(Value()) && pass.Calling? && DoCalls(Value(), calls[i..]) == goal
      {
        assert calls[i..][0] == calls[i] && calls[i..][1..] == calls[i + 1..];
        if IsCall(calls[i]) && Enabled(Value(), calls[i]) {
          DoInv(Value(), calls[i]);
          CallStays(Value(), calls[i]);
          MakeCall(calls[i]);
        }
        i := i + 1;
      }
    }

    method MakeCall(s: Step)
      requires IsCall(s) && Enabled(Value(), s)
      modifies this
      ensures Value() == Do(old(Value()), s)
    {
      hide AddEvent, Del, Active;
      match s {
        case CallAdd(x, tv, now) => AddEv(x, tv, now);
        case CallDel(x) => DelEvent(x);
        case CallActive(x, res, ncalls) => ActivateEvent(x, res, ncalls);
        case CallPriority(x, pri) =>
          if !evs[x].active && 0 <= pri < |activequeues| {
            evs := evs[x := evs[x].(pri := pri)];
          }
        case CallSet(x, io, sig) =>
          evs := evs[x := evs[x].(io := io, sig := sig, ncalls := 0, pncalls := false, pri := |activequeues| / 2)];
      }
    }

    /** The while loop over one event's calls. */
    method CallRepeats(script: Script) returns (rest: Script)
      requires Inv(Value()) && pass.Looping?
      modifies this
      ensures Inv(Value()) && pass == Between(old(pass.queue))
      ensures PassRun(Value(), rest) == PassRun(old(Value()), script)
      ensures |rest| < |script| || (rest == script && activequeues == old(activequeues))
    {
      hide Inv, DoCalls;
      rest := script;
      ghost var goal := PassRun(Value(), script);
      while pass.ncalls > 0
        invariant Inv(Value()) && pass.Looping? && pass.queue == old(pass.queue)
        invariant PassRun(Value(), rest) == goal
        invariant |rest| < |script| || (rest == script && activequeues == old(activequeues))
        decreases |rest|, pass.ncalls
      {
        CallEnabled(Value());
        DoInv(Value(), DoNextCall);
        var x, n := pass.ev, pass.ncalls;
        pass := Calling(pass.queue, x, n - 1);
        evs := evs[x := evs[x].(ncalls := n - 1)];
        if rest != [] {
          Callback(rest[0]);
          rest := rest[1..];
        }
        DoInv(Value(), DoReturn);
        pass := Looping(pass.queue, pass.ev, pass.ncalls);
      }
      CallEnabled(Value());
      DoInv(Value(), DoNextCall);
      pass := Between(pass.queue);
    }

    /** event_process_active, with what its callbacks call. */
    method ProcessActive(script: Script) returns (rest: Script)
      requires Inv(Value()) && pass == Off
      modifies this
      ensures Inv(Value()) && pass == Off
      ensures Inv(StartPass(old(Value()))) && (Value(), rest) == PassRun(StartPass(old(Value())), script)
    {
      hide Inv;
      rest := script;
      DoInv(Value(), DoStart);
      if eventCountActive == 0 {
        return;
      }
      var i := FindQueue();
      pass := Between(i);
      ghost var goal := PassRun(Value(), script);
      EventEnabled(Value());
      while At(activequeues, i) != []
        invariant Inv(Value()) && pass == Between(i) && PassRun(Value(), rest) == goal
        decreases |rest|, |At(activequeues, i)|
      {
        EventEnabled(Value());
        EventLeft(Value());
        DoInv(Value(), DoNextEvent);
        TakeFirst(i);
        rest := CallRepeats(rest);
      }
      EventEnabled(Value());
      DoInv(Value(), DoNextEvent);
      pass := Off;
    }
  }

  lemma SameEvents(b: Base, x: Id)
    requires Known(b, x)
    ensures AbortLoop(b, x).evs == b.evs
  {
  }
}
