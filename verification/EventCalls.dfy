/** Each call into event.c, and each step of its processing, keeps a base coherent. */
module EventCalls {
  import opened Seqs
  import opened Timeval
  import opened EventBase
  import opened EventSteps

  // ---- each call keeps the base coherent ----------------------------------------------------------

  lemma AbortCoherent(b: Base, x: Id)
    requires Coherent(b) && Known(b, x)
    ensures Coherent(AbortLoop(b, x)) && AbortLoop(b, x).evs == b.evs
  {
    var c := AbortLoop(b, x);
    hide Names, NamesAllActive, Sorted, Counts, NoLoop, Priorities;
    assert PassOk(c);
    PassCoherent(b, c);
  }

  lemma RemoveIfCoherent(b: Base, x: Id, k: Queue)
    requires Coherent(b) && Known(b, x)
    ensures Coherent(RemoveIf(b, x, k)) && !Flag(RemoveIf(b, x, k).evs[x], k)
  {
    if Flag(b.evs[x], k) {
      RemoveCoherent(b, x, k);
    }
    hide Coherent;
  }

  lemma DelCoherent(b: Base, x: Id)
    requires Coherent(b) && Known(b, x)
    ensures Coherent(Del(b, x))
  {
    hide Coherent, AbortLoop, RemoveIf, QueueRemove;
    AbortCoherent(b, x);
    var b1 := AbortLoop(b, x);
    RemoveIfCoherent(b1, x, QTimeout);
    var b2 := RemoveIf(b1, x, QTimeout);
    RemoveIfCoherent(b2, x, QActive);
    var b3 := RemoveIf(b2, x, QActive);
    if b3.evs[x].inserted {
      RemoveCoherent(b3, x, QInserted);
    } else {
      RemoveIfCoherent(b3, x, QSignal);
    }
  }

  lemma CoherentNoLoop(b: Base, x: Id)
    requires Coherent(b) && Known(b, x)
    ensures b.evs[x].active ==> !b.evs[x].pncalls
    ensures b.evs[x].pri < |b.activeq|
  {
    hide Names, NamesAllActive, Sorted, Counts, PassOk;
  }

  lemma ActiveCoherent(b: Base, x: Id, res: set<Why>, ncalls: nat)
    requires Coherent(b) && Known(b, x)
    ensures Coherent(Active(b, x, res, ncalls))
  {
    CoherentNoLoop(b, x);
    var e := b.evs[x];
    hide Coherent, QueueInsert;
    if e.active {
      UpdateCoherent(b, x, e.(res := e.res + res));
    } else {
      UpdateCoherent(b, x, e.(res := res, ncalls := ncalls, pncalls := false));
      InsertCoherent(SetCalls(b, x, res, ncalls), x, QActive);
    }
  }

  lemma RescheduleCoherent(b: Base, x: Id)
    requires Coherent(b) && Known(b, x)
    ensures Coherent(Reschedule(b, x))
    ensures Reschedule(b, x).evs[x].timeout == b.evs[x].timeout
  {
    hide Coherent, AbortLoop;
    AbortCoherent(b, x);
    if b.evs[x].active {
      RemoveCoherent(AbortLoop(b, x), x, QActive);
    }
  }

  lemma AddTimeoutCoherent(b: Base, x: Id, tv: Timeval, now: Timeval)
    requires Coherent(b) && Known(b, x)
    ensures Coherent(AddTimeout(b, x, tv, now))
  {
    hide Coherent, QueueInsert, Reschedule, RemoveIf;
    RemoveIfCoherent(b, x, QTimeout);
    var b1 := RemoveIf(b, x, QTimeout);
    RescheduleCoherent(b1, x);
    var b2 := Reschedule(b1, x);
    CoherentNoLoop(b2, x);
    UpdateCoherent(b2, x, b2.evs[x].(when := Add(now, tv)));
    InsertCoherent(SetWhen(b2, x, Add(now, tv)), x, QTimeout);
  }

  lemma AddInterestCoherent(b: Base, x: Id)
    requires Coherent(b) && Known(b, x)
    ensures Coherent(AddInterest(b, x))
  {
    hide Coherent, QueueInsert;
    var e := b.evs[x];
    if e.io && !e.inserted && !e.active {
      InsertCoherent(b, x, QInserted);
    } else if e.sig && !e.signal {
      InsertCoherent(b, x, QSignal);
    }
  }

  lemma AddCoherent(b: Base, x: Id, tv: Option<Timeval>, now: Timeval)
    requires Coherent(b) && Known(b, x)
    ensures Coherent(AddEvent(b, x, tv, now))
  {
    hide Coherent, AddTimeout, AddInterest;
    if tv.None? {
      AddInterestCoherent(b, x);
    } else {
      AddTimeoutCoherent(b, x, tv.value, now);
      AddInterestCoherent(AddTimeout(b, x, tv.value, now), x);
    }
  }

  lemma PriorityCoherent(b: Base, x: Id, pri: int)
    requires Coherent(b) && Known(b, x)
    ensures Coherent(PrioritySet(b, x, pri))
  {
    if !b.evs[x].active && 0 <= pri < |b.activeq| {
      UpdateCoherent(b, x, b.evs[x].(pri := pri));
    }
    hide Coherent;
  }

  lemma SetUpCoherent(b: Base, x: Id, io: bool, sig: bool)
    requires Coherent(b) && Known(b, x) && Idle(b.evs[x]) && x !in b.internal
    ensures Coherent(SetUp(b, x, io, sig))
  {
    CoherentNoLoop(b, x);
    hide Coherent;
    UpdateCoherent(b, x, b.evs[x].(io := io, sig := sig, ncalls := 0, pncalls := false, pri := |b.activeq| / 2));
  }

  // ---- event_process_active ------------------------------------------------------------------------

  lemma {:induction false} CountEmpty(internal: set<Id>, qs: seq<seq<Id>>)
    requires forall i :: 0 <= i < |qs| ==> qs[i] == []
    ensures CountAll(internal, qs) == 0
  {
    if qs != [] {
      CountEmpty(internal, qs[1..]);
    }
  }

  /** A positive active count guarantees that event_process_active finds a queue, and it takes the
      lowest-numbered one that is not empty. */
  lemma LowestQueueChosen(b: Base)
    requires Coherent(b) && b.pass == Off && b.countActive > 0
    ensures var c := StartPass(b);
            && c.pass.Between? && c.pass.queue < |c.activeq| && c.activeq[c.pass.queue] != []
            && c.activeq == b.activeq && forall p :: 0 <= p < c.pass.queue ==> c.activeq[p] == []
  {
    hide Names, NamesAllActive, Sorted, NoLoop, Priorities, CountIn, CountAll;
    if FirstNonEmpty(b.activeq, 0) == |b.activeq| {
      CountEmpty(b.internal, b.activeq);
    }
  }

  lemma StartCoherent(b: Base)
    requires Coherent(b) && b.pass == Off
    ensures Coherent(StartPass(b))
  {
    if b.countActive != 0 {
      assert b.countActive > 0 by {
        hide Names, NamesAllActive, Sorted, NoLoop, Priorities, CountIn, CountAll;
      }
      LowestQueueChosen(b);
      PassCoherent(b, StartPass(b));
    }
    hide Coherent;
  }

  lemma HeadActive(b: Base, p: nat)
    requires Coherent(b) && p < |b.activeq| && b.activeq[p] != []
    ensures var x := b.activeq[p][0]; Known(b, x) && b.evs[x].active && b.evs[x].pri == p
  {
    NamesAt(b, p);
    hide Names, NamesAllActive, Sorted, Counts, NoLoop, Priorities, PassOk, NoDup;
    assert b.activeq[p][0] in b.activeq[p];
  }

  predicate Running(b: Base) {
    b.pass.Between? && b.pass.queue < |b.activeq|
  }

  lemma NextEventCoherent(b: Base)
    requires Coherent(b) && Running(b)
    ensures At(b.activeq, b.pass.queue) != [] ==> Known(b, At(b.activeq, b.pass.queue)[0])
    ensures Coherent(NextEvent(b))
  {
    var q := b.pass.queue;
    if b.activeq[q] == [] {
      PassCoherent(b, NextEvent(b));
    } else {
      HeadActive(b, q);
      var x := b.activeq[q][0];
      RemoveCoherent(b, x, QActive);
      var c := QueueRemove(b, x, QActive);
      CoherentNoLoop(c, x);
      UpdateCoherent(c, x, c.evs[x].(pncalls := true));
      var d := c.(evs := c.evs[x := c.evs[x].(pncalls := true)]);
      hide Names, NamesAllActive, Sorted, Counts, NoLoop, Priorities, Without;
      PassCoherent(d, NextEvent(b));
    }
  }

  lemma PassKnown(b: Base)
    requires Coherent(b)
    ensures PassOk(b)
  {
  }

  lemma NextCallCoherent(b: Base)
    requires Coherent(b) && b.pass.Looping?
    ensures Known(b, b.pass.ev) && Coherent(NextCall(b))
  {
    PassKnown(b);
    var q, x, n := b.pass.queue, b.pass.ev, b.pass.ncalls;
    CoherentNoLoop(b, x);
    hide Coherent;
    if n == 0 {
      PassCoherent(b, NextCall(b));
    } else {
      var e := b.evs[x].(ncalls := n - 1);
      UpdateCoherent(b, x, e);
      PassCoherent(b.(evs := b.evs[x := e]), NextCall(b));
    }
  }

  lemma ReturnCoherent(b: Base)
    requires Coherent(b) && b.pass.Calling?
    ensures Coherent(Return(b))
  {
    PassKnown(b);
    PassCoherent(b, Return(b));
    hide Coherent;
  }

  // ---- timers ----------------------------------------------------------------------------------------

  lemma ExpireOneCoherent(b: Base, x: Id)
    requires Coherent(b) && Known(b, x) && b.evs[x].timeout
    ensures Coherent(ExpireOne(b, x))
  {
    hide Coherent, Del, Active, QueueRemove;
    RemoveCoherent(b, x, QTimeout);
    DelCoherent(QueueRemove(b, x, QTimeout), x);
    ActiveCoherent(Del(QueueRemove(b, x, QTimeout), x), x, {ByTimeout}, 1);
  }
}
