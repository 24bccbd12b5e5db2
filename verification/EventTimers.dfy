/** timeout_process, timeout_correct and timeout_next. */
module EventTimers {
  import opened Seqs
  import opened Timeval
  import opened EventBase
  import opened EventSteps
  import opened EventCalls

  // ---- one timer ------------------------------------------------------------------------------------

  /** What becomes of an event whose time has come. */
  function Expired(e: Ev): Ev {
    e.(timeout := false, inserted := false, signal := e.inserted && e.signal, active := true,
       res := {ByTimeout}, ncalls := 1, pncalls := false)
  }

  /** The same base but for one event and the lists named. */
  predicate Moved(b: Base, c: Base, x: Id, e: Ev, tree: seq<Id>, activeq: seq<seq<Id>>)
    requires Known(b, x)
  {
    c.evs == b.evs[x := e] && c.internal == b.internal && c.tree == tree && c.activeq == activeq
  }

  lemma DelEffect(b: Base, x: Id)
    requires Known(b, x) && !b.evs[x].timeout
    ensures var e := b.evs[x];
            Moved(b, Del(b, x), x, e.(inserted := false, signal := e.inserted && e.signal, active := false), b.tree,
                  if e.active then Put(b.activeq, e.pri, Without(At(b.activeq, e.pri), x)) else b.activeq)
  {
    hide Put, At, Without;
    var c := AbortLoop(b, x);
    assert c.evs == b.evs && c.tree == b.tree && c.activeq == b.activeq;
    hide AbortLoop;
    assert RemoveIf(c, x, QTimeout) == c;
    var d := RemoveIf(c, x, QActive);
    assert d.evs == b.evs[x := b.evs[x].(active := false)];
  }

  lemma ActiveEffect(b: Base, x: Id, res: set<Why>, ncalls: nat)
    requires Known(b, x) && !b.evs[x].active
    ensures Moved(b, Active(b, x, res, ncalls), x,
                  b.evs[x].(active := true, res := res, ncalls := ncalls, pncalls := false), b.tree,
                  Put(b.activeq, b.evs[x].pri, At(b.activeq, b.evs[x].pri) + [x]))
  {
    hide Put, At;
  }

  lemma ExpireOneEffect(b: Base, x: Id)
    requires Coherent(b) && b.tree != [] && b.tree[0] == x
    ensures Known(b, x) && b.evs[x].pri < |b.activeq|
    ensures var p := b.evs[x].pri;
            Moved(b, ExpireOne(b, x), x, Expired(b.evs[x]), b.tree[1..],
                  b.activeq[p := Without(b.activeq[p], x) + [x]])
  {
    FirstTimer(b);
    CoherentNoLoop(b, x);
    var e := b.evs[x];
    var p := e.pri;
    if !e.active {
      NotQueued(b, x, p);
      WithoutAbsent(b.activeq[p], x);
    }
    hide Coherent, Without, Del, Active;
    var c := QueueRemove(b, x, QTimeout);
    TreeTail(b.tree, x);
    assert Moved(b, c, x, e.(timeout := false), b.tree[1..], b.activeq);
    DelEffect(c, x);
    ActiveEffect(Del(c, x), x, {ByTimeout}, 1);
    assert b.activeq[p := b.activeq[p]] == b.activeq;
  }

  lemma TreeTail(t: seq<Id>, x: Id)
    requires t != [] && t[0] == x
    ensures Without(t, x) == t[1..]
  {
  }

  lemma FirstTimer(b: Base)
    requires Coherent(b) && b.tree != []
    ensures Known(b, b.tree[0]) && b.evs[b.tree[0]].timeout
  {
    hide NamesAllActive, Sorted, Counts, NoLoop, Priorities, PassOk, NoDup;
    assert b.tree[0] in b.tree;
  }

  lemma NotQueued(b: Base, x: Id, p: nat)
    requires Coherent(b) && Known(b, x) && !b.evs[x].active && p < |b.activeq|
    ensures x !in b.activeq[p]
  {
    NamesAt(b, p);
    hide NamesAllActive, Sorted, Counts, NoLoop, Priorities, PassOk, NoDup, Names;
  }

  // ---- all the timers that are due --------------------------------------------------------------------

  /** The timers of a list, in its order, up to the first whose time is after now. */
  function Due(evs: seq<Ev>, t: seq<Id>, now: Timeval): (r: seq<Id>)
    ensures r <= t
  {
    if t == [] || Less(now, When(evs, t[0])) then [] else [t[0]] + Due(evs, t[1..], now)
  }

  function Minus(q: seq<Id>, gone: seq<Id>): seq<Id> {
    if q == [] then [] else (if q[0] in gone then [] else [q[0]]) + Minus(q[1..], gone)
  }

  predicate HasPriority(evs: seq<Ev>, x: Id, p: nat) {
    0 <= x < |evs| && evs[x].pri == p
  }

  function OfPriority(evs: seq<Ev>, q: seq<Id>, p: nat): seq<Id> {
    if q == [] then [] else (if HasPriority(evs, q[0], p) then [q[0]] else []) + OfPriority(evs, q[1..], p)
  }

  lemma {:induction false} MinusAppend(q: seq<Id>, x: Id, gone: seq<Id>)
    requires x !in gone
    ensures Minus(q + [x], gone) == Minus(q, gone) + [x]
  {
    if q == [] {
      assert q + [x] == [x];
    } else {
      MinusAppend(q[1..], x, gone);
      assert (q + [x])[1..] == q[1..] + [x];
    }
  }

  lemma {:induction false} MinusMore(q: seq<Id>, x: Id, gone: seq<Id>)
    requires NoDup(q)
    ensures Minus(Without(q, x), gone) == Minus(q, [x] + gone)
  {
    if q != [] {
      if q[0] == x {
        MinusOther(q[1..], x, gone);
      } else {
        MinusMore(q[1..], x, gone);
        assert ([q[0]] + Without(q[1..], x))[1..] == Without(q[1..], x);
      }
    }
  }

  lemma {:induction false} MinusOther(q: seq<Id>, x: Id, gone: seq<Id>)
    requires x !in q
    ensures Minus(q, [x] + gone) == Minus(q, gone)
  {
    if q != [] {
      MinusOther(q[1..], x, gone);
    }
  }

  /** Exactly the timers of a sorted tree that are due, none of the others. */
  lemma {:induction false} DueExact(evs: seq<Ev>, t: seq<Id>, now: Timeval, x: Id)
    requires Sorted(evs, t)
    ensures x in Due(evs, t, now) <==> x in t && !Less(now, When(evs, x))
  {
    if t != [] {
      SortedTail(evs, t);
      DueExact(evs, t[1..], now, x);
      hide When;
      if x in t[1..] && Less(now, When(evs, t[0])) {
        assert Before(evs, t[0], x);
        LessTransitive(now, When(evs, t[0]), When(evs, x));
      }
    }
  }

  lemma LessTransitive(a: Timeval, b: Timeval, c: Timeval)
    requires Less(a, b) && !Less(c, b)
    ensures Less(a, c)
  {
  }

  /** The state after the due timers in d, the front of the tree, have been moved. */
  predicate AllMoved(b: Base, c: Base, d: seq<Id>) {
    && |c.evs| == |b.evs| && c.internal == b.internal && |c.activeq| == |b.activeq|
    && (forall x :: 0 <= x < |b.evs| ==> c.evs[x] == if x in d then Expired(b.evs[x]) else b.evs[x])
    && (forall p :: 0 <= p < |b.activeq| ==> c.activeq[p] == Minus(b.activeq[p], d) + OfPriority(b.evs, d, p))
  }

  lemma {:induction false} ExpireAll(b: Base, now: Timeval)
    requires Coherent(b)
    ensures Coherent(Expire(b, b.tree, now))
    ensures var d := Due(b.evs, b.tree, now);
            && (forall x :: x in d ==> Known(b, x))
            && AllMoved(b, Expire(b, b.tree, now), d) && Expire(b, b.tree, now).tree == b.tree[|d|..]
    decreases |b.tree|
  {
    var d := Due(b.evs, b.tree, now);
    if d == [] {
      if b.tree != [] {
        FirstTimer(b);
      }
      NoneMoved(b);
    } else {
      var x := b.tree[0];
      FirstTimer(b);
      TreeFacts(b);
      ExpireOneCoherent(b, x);
      ExpireOneEffect(b, x);
      var c := ExpireOne(b, x);
      ExpireAll(c, now);
      hide Coherent, ExpireOne, AllMoved, Expired, Less;
      DueSame(b.evs, c.evs, b.tree[1..], now);
      var rest := Due(b.evs, b.tree[1..], now);
      assert d == [x] + rest;
      MovedOn(b, c, Expire(c, c.tree, now), x, rest);
    }
  }

  lemma TreeFacts(b: Base)
    requires Coherent(b) && b.tree != []
    ensures b.tree[0] !in b.tree[1..]
    ensures forall y :: y in b.tree ==> Known(b, y)
    ensures forall p :: 0 <= p < |b.activeq| ==> NoDup(b.activeq[p])
    ensures forall p, y :: 0 <= p < |b.activeq| && y in b.activeq[p] ==> Known(b, y) && b.evs[y].pri == p
  {
    hide Sorted, Counts, NoLoop, Priorities, PassOk;
    forall p | 0 <= p < |b.activeq| ensures NamesActive(b.evs, b.activeq[p], p) {
      NamesAt(b, p);
    }
    hide NamesAllActive;
  }

  lemma {:induction false} MinusNone(q: seq<Id>)
    ensures Minus(q, []) == q
  {
    if q != [] {
      MinusNone(q[1..]);
    }
  }

  lemma NoneMoved(b: Base)
    ensures AllMoved(b, b, [])
  {
    forall p | 0 <= p < |b.activeq| ensures b.activeq[p] == Minus(b.activeq[p], []) + OfPriority(b.evs, [], p) {
      MinusNone(b.activeq[p]);
    }
  }

  lemma {:induction false} DueSame(evs: seq<Ev>, next: seq<Ev>, t: seq<Id>, now: Timeval)
    requires forall x :: x in t ==> When(evs, x) == When(next, x)
    ensures Due(evs, t, now) == Due(next, t, now)
  {
    hide Less, When;
    if t != [] {
      assert t[0] in t;
      DueSame(evs, next, t[1..], now);
    }
  }

  lemma {:induction false} PrioritySame(evs: seq<Ev>, next: seq<Ev>, q: seq<Id>, p: nat)
    requires forall x :: x in q ==> HasPriority(evs, x, p) == HasPriority(next, x, p)
    ensures OfPriority(evs, q, p) == OfPriority(next, q, p)
  {
    hide HasPriority;
    if q != [] {
      assert q[0] in q;
      PrioritySame(evs, next, q[1..], p);
    }
  }

  /** Moving the first due timer and then the rest is moving them all. */
  lemma MovedOn(b: Base, c: Base, r: Base, x: Id, rest: seq<Id>)
    requires Known(b, x) && b.evs[x].pri < |b.activeq| && x !in rest
    requires forall y :: y in rest ==> Known(b, y)
    requires forall p :: 0 <= p < |b.activeq| ==> NoDup(b.activeq[p])
    requires forall p, y :: 0 <= p < |b.activeq| && y in b.activeq[p] ==> Known(b, y) && b.evs[y].pri == p
    requires Moved(b, c, x, Expired(b.evs[x]), c.tree,
                   b.activeq[b.evs[x].pri := Without(b.activeq[b.evs[x].pri], x) + [x]])
    requires AllMoved(c, r, rest)
    ensures AllMoved(b, r, [x] + rest)
  {
    var d := [x] + rest;
    forall y | 0 <= y < |b.evs| ensures r.evs[y] == if y in d then Expired(b.evs[y]) else b.evs[y] {
    }
    forall p | 0 <= p < |b.activeq|
      ensures r.activeq[p] == Minus(b.activeq[p], d) + OfPriority(b.evs, d, p)
    {
      PrioritySame(b.evs, c.evs, rest, p);
      MovedQueue(b.activeq[p], c.activeq[p], x, rest, b.evs, p);
    }
  }

  lemma MovedQueue(q: seq<Id>, r: seq<Id>, x: Id, rest: seq<Id>, evs: seq<Ev>, p: nat)
    requires NoDup(q) && 0 <= x < |evs| && x !in rest && forall y :: y in rest ==> 0 <= y < |evs|
    requires evs[x].pri == p ==> r == Without(q, x) + [x]
    requires evs[x].pri != p ==> r == q && x !in q
    ensures Minus(r, rest) + OfPriority(evs, rest, p) == Minus(q, [x] + rest) + OfPriority(evs, [x] + rest, p)
  {
    assert ([x] + rest)[1..] == rest;
    if evs[x].pri == p {
      MinusAppend(Without(q, x), x, rest);
      MinusMore(q, x, rest);
    } else {
      MinusOther(q, x, rest);
    }
  }

  /** timeout_process moves to the active queues exactly the events due by now, behind what was
      waiting there, in timeout order, and leaves the other timers and events as they were. */
  lemma TimeoutProcessExact(b: Base, now: Timeval)
    requires Coherent(b)
    ensures Coherent(TimeoutProcess(b, now))
    ensures var d, c := Due(b.evs, b.tree, now), TimeoutProcess(b, now);
            && (forall x :: x in d <==> x in b.tree && !Less(now, When(b.evs, x)))
            && (forall x :: x in d ==> Known(b, x)) && Sorted(b.evs, d)
            && AllMoved(b, c, d) && b.tree == d + c.tree
  {
    hide Coherent, AllMoved, Expire, Due, Sorted, Known, When, Less;
    ExpireAll(b, now);
    CoherentSorted(b);
    forall x ensures x in Due(b.evs, b.tree, now) <==> x in b.tree && !Less(now, When(b.evs, x)) {
      DueExact(b.evs, b.tree, now, x);
    }
    var d := Due(b.evs, b.tree, now);
    assert d == b.tree[..|d|];
    SortedFront(b.evs, b.tree, |d|);
  }

  lemma SortedFront(evs: seq<Ev>, t: seq<Id>, n: nat)
    requires Sorted(evs, t) && n <= |t|
    ensures Sorted(evs, t[..n]) && t == t[..n] + t[n..]
  {
    hide Before;
  }

  lemma CoherentSorted(b: Base)
    requires Coherent(b)
    ensures Sorted(b.evs, b.tree)
  {
  }

  // ---- clock correction ----------------------------------------------------------------------------------

  predicate NormalTimes(evs: seq<Ev>) {
    forall x :: 0 <= x < |evs| ==> Normal(evs[x].when)
  }

  lemma SubOrder(evs: seq<Ev>, next: seq<Ev>, x: Id, y: Id, off: Timeval)
    requires Normal(When(evs, x)) && Normal(When(evs, y)) && Normal(off)
    requires When(next, x) == Sub(When(evs, x), off) && When(next, y) == Sub(When(evs, y), off)
    ensures Before(evs, x, y) ==> Before(next, x, y)
  {
    var a, b := When(evs, x), When(evs, y);
    Meaning(a, b);
    Meaning(b, a);
    Meaning(a, off);
    Meaning(b, off);
    Meaning(Sub(a, off), Sub(b, off));
    Meaning(Sub(b, off), Sub(a, off));
    hide Less, Sub, Micros, When;
  }

  lemma CorrectTimes(b: Base, off: Timeval)
    requires NormalTimes(b.evs) && Normal(off)
    ensures NormalTimes(Correct(b, off).evs)
    ensures forall x :: x in b.tree && Known(b, x) ==> When(Correct(b, off).evs, x) == Sub(When(b.evs, x), off)
  {
    hide Sub, Micros;
    var c := Correct(b, off);
    forall x | 0 <= x < |c.evs| ensures Normal(c.evs[x].when) {
      Meaning(b.evs[x].when, off);
    }
  }

  lemma CorrectSorted(b: Base, off: Timeval)
    requires Coherent(b) && NormalTimes(b.evs) && Normal(off)
    ensures Sorted(Correct(b, off).evs, b.tree)
  {
    var c := Correct(b, off);
    CorrectTimes(b, off);
    TimersKnown(b);
    CoherentSorted(b);
    hide Coherent, Correct, Before;
    var t := b.tree;
    forall i, j | 0 <= i < j < |t| ensures Before(c.evs, t[i], t[j]) {
      assert Before(b.evs, t[i], t[j]);
      assert t[i] in t && t[j] in t;
      SubOrder(b.evs, c.evs, t[i], t[j], off);
    }
  }

  lemma TimersKnown(b: Base)
    requires Coherent(b)
    ensures forall x :: x in b.tree ==> Known(b, x)
  {
    hide NamesAllActive, Sorted, Counts, NoLoop, Priorities, PassOk, NoDup;
  }

  lemma CorrectNames(b: Base, off: Timeval)
    requires Coherent(b)
    ensures var c := Correct(b, off);
            && Names(c.evs, c.tree, QTimeout) && Names(c.evs, c.eventq, QInserted)
            && Names(c.evs, c.signalq, QSignal)
  {
    hide NamesAllActive, Sorted, Counts, NoLoop, Priorities, PassOk, NoDup;
  }

  lemma CorrectActive(b: Base, off: Timeval)
    requires Coherent(b)
    ensures var c := Correct(b, off);
            && NamesAllActive(c.evs, c.activeq) && Priorities(c.evs, |c.activeq|)
            && NoLoop(c.evs) && PassOk(c) && Counts(c)
  {
    hide Names, Sorted, CountIn, CountAll;
    var c := Correct(b, off);
    forall p | 0 <= p < |b.activeq| ensures NamesActive(c.evs, c.activeq[p], p) {
      assert NamesActive(b.evs, b.activeq[p], p);
      hide NoDup;
    }
  }

  /** After the clock has gone back from last to now, timeout_correct keeps the tree's order and how
      long each timer has still to wait. */
  lemma CorrectKeepsWaits(b: Base, last: Timeval, now: Timeval)
    requires Coherent(b) && NormalTimes(b.evs) && Normal(last) && Normal(now)
    ensures var c := Correct(b, Sub(last, now));
            && Coherent(c) && NormalTimes(c.evs) && c.tree == b.tree
            && forall x :: x in b.tree ==>
                 Micros(When(c.evs, x)) - Micros(now) == Micros(When(b.evs, x)) - Micros(last)
  {
    var off := Sub(last, now);
    Meaning(last, now);
    CorrectTimes(b, off);
    CorrectSorted(b, off);
    CorrectNames(b, off);
    CorrectActive(b, off);
    TimersKnown(b);
    var c := Correct(b, off);
    hide Names, NamesAllActive, Sorted, Counts, NoLoop, Priorities, PassOk, Correct, Sub, Micros;
    forall x | x in b.tree
      ensures Micros(When(c.evs, x)) - Micros(now) == Micros(When(b.evs, x)) - Micros(last)
    {
      Meaning(b.evs[x].when, off);
    }
  }

  /** When a timer is due, in microseconds. */
  function Deadline(b: Base, x: Id): int {
    Micros(When(b.evs, x))
  }

  /** timeout_next waits until the earliest timer, never past any, and not at all when one is due. */
  lemma NextNeverLate(b: Base, now: Timeval)
    requires Coherent(b) && NormalTimes(b.evs) && Normal(now) && b.tree != []
    ensures var wait := Micros(TimeoutNext(b, now));
            && wait >= 0
            && (wait == 0 <==> exists x :: x in b.tree && Deadline(b, x) <= Micros(now))
            && (forall x :: x in b.tree ==> wait == 0 || Micros(now) + wait <= Deadline(b, x))
            && (wait > 0 ==> exists x :: x in b.tree && Micros(now) + wait == Deadline(b, x))
  {
    hide *;
    FirstDue(b);
    var x0 := b.tree[0];
    NextWait(b, now);
    assert x0 in b.tree;
  }

  lemma FirstDue(b: Base)
    requires Coherent(b) && NormalTimes(b.evs) && b.tree != []
    ensures forall x :: x in b.tree ==> Deadline(b, b.tree[0]) <= Deadline(b, x)
    ensures Normal(When(b.evs, b.tree[0]))
  {
    hide Coherent, NormalTimes, Micros, Normal, When;
    FirstEarliest(b);
    assert b.tree[0] in b.tree;
  }

  lemma NextWait(b: Base, now: Timeval)
    requires b.tree != [] && Normal(When(b.evs, b.tree[0])) && Normal(now)
    ensures var d := Deadline(b, b.tree[0]) - Micros(now);
            Micros(TimeoutNext(b, now)) == if d <= 0 then 0 else d
  {
    hide Micros, Sub, Less, AtMost, When;
    var first := When(b.evs, b.tree[0]);
    Meaning(first, now);
    Zero();
    assert TimeoutNext(b, now) == if AtMost(first, now) then Timeval(0, 0) else Sub(first, now);
  }

  lemma FirstEarliest(b: Base)
    requires Coherent(b) && NormalTimes(b.evs) && b.tree != []
    ensures forall x :: x in b.tree ==> Normal(When(b.evs, x))
    ensures forall x :: x in b.tree ==> Micros(When(b.evs, b.tree[0])) <= Micros(When(b.evs, x))
  {
    hide Coherent, Sorted, Micros, Less;
    TimersKnown(b);
    CoherentSorted(b);
    SortedTail(b.evs, b.tree);
    var x0 := b.tree[0];
    assert x0 in b.tree;
    forall x | x in b.tree ensures Micros(When(b.evs, x0)) <= Micros(When(b.evs, x)) {
      if x != x0 {
        assert Before(b.evs, x0, x);
        Meaning(When(b.evs, x0), When(b.evs, x));
        Meaning(When(b.evs, x), When(b.evs, x0));
      }
    }
  }

  lemma Zero()
    ensures Micros(Timeval(0, 0)) == 0
  {
  }
}
