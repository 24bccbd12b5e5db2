/** Every step of event.c keeps the flags, the queues and the counts of a base coherent. */
module EventSteps {
  import opened Seqs
  import opened Timeval
  import opened EventBase

  // ---- lists --------------------------------------------------------------------------------------

  lemma NamesSame(evs: seq<Ev>, q: seq<Id>, k: Queue, x: Id, e: Ev)
    requires Names(evs, q, k) && 0 <= x < |evs| && Flag(e, k) == Flag(evs[x], k)
    ensures Names(evs[x := e], q, k)
  {
    hide NoDup, Flag;
  }

  lemma NamesGain(evs: seq<Ev>, q: seq<Id>, k: Queue, x: Id, e: Ev, r: seq<Id>)
    requires Names(evs, q, k) && 0 <= x < |evs| && Flag(e, k)
    requires NoDup(r) && forall y :: y in r <==> y in q || y == x
    ensures Names(evs[x := e], r, k)
  {
    hide NoDup, Flag;
  }

  lemma NamesLose(evs: seq<Ev>, q: seq<Id>, k: Queue, x: Id, e: Ev)
    requires Names(evs, q, k) && 0 <= x < |evs| && !Flag(e, k)
    ensures Names(evs[x := e], Without(q, x), k)
  {
    WithoutMembers(q, x);
    hide NoDup, Flag, Without;
  }

  lemma ActiveSame(evs: seq<Ev>, qs: seq<seq<Id>>, x: Id, e: Ev)
    requires NamesAllActive(evs, qs) && 0 <= x < |evs|
    requires e.active == evs[x].active && (e.active ==> e.pri == evs[x].pri)
    ensures NamesAllActive(evs[x := e], qs)
  {
    hide NoDup;
    forall p | 0 <= p < |qs| ensures NamesActive(evs[x := e], qs[p], p) {
      assert NamesActive(evs, qs[p], p);
    }
  }

  lemma ActiveGain(evs: seq<Ev>, qs: seq<seq<Id>>, x: Id, e: Ev)
    requires NamesAllActive(evs, qs) && 0 <= x < |evs| && !evs[x].active && e.active && e.pri < |qs|
    ensures NamesAllActive(evs[x := e], qs[e.pri := qs[e.pri] + [x]])
  {
    var next := qs[e.pri := qs[e.pri] + [x]];
    forall p | 0 <= p < |qs| ensures NamesActive(evs[x := e], next[p], p) {
      assert NamesActive(evs, qs[p], p);
      if p == e.pri {
        AppendMembers(qs[p], x);
      }
      hide NoDup;
    }
  }

  lemma ActiveLose(evs: seq<Ev>, qs: seq<seq<Id>>, x: Id, e: Ev)
    requires NamesAllActive(evs, qs) && 0 <= x < |evs| && evs[x].active && !e.active && evs[x].pri < |qs|
    ensures NamesAllActive(evs[x := e], qs[evs[x].pri := Without(qs[evs[x].pri], x)])
  {
    var p0 := evs[x].pri;
    var next := qs[p0 := Without(qs[p0], x)];
    forall p | 0 <= p < |qs| ensures NamesActive(evs[x := e], next[p], p) {
      assert NamesActive(evs, qs[p], p);
      if p == p0 {
        WithoutMembers(qs[p], x);
      }
      hide NoDup, Without;
    }
  }

  lemma AppendMembers(q: seq<Id>, x: Id)
    requires NoDup(q) && x !in q
    ensures NoDup(q + [x]) && forall y :: y in q + [x] <==> y in q || y == x
  {
    assert NoDup([x]);
    NoDupAppend(q, [x]);
  }

  // ---- counts -------------------------------------------------------------------------------------

  function One(internal: set<Id>, x: Id): int {
    if x in internal then 0 else 1
  }

  lemma {:induction false} CountAppend(internal: set<Id>, q: seq<Id>, x: Id)
    ensures CountIn(internal, q + [x]) == CountIn(internal, q) + One(internal, x)
  {
    if q == [] {
      assert q + [x] == [x];
    } else {
      CountAppend(internal, q[1..], x);
      assert (q + [x])[1..] == q[1..] + [x];
    }
  }

  lemma {:induction false} CountWithout(internal: set<Id>, q: seq<Id>, x: Id)
    requires x in q
    ensures CountIn(internal, Without(q, x)) == CountIn(internal, q) - One(internal, x)
  {
    if q[0] != x {
      CountWithout(internal, q[1..], x);
    }
  }

  lemma {:induction false} CountPut(internal: set<Id>, qs: seq<seq<Id>>, p: nat, q: seq<Id>)
    requires p < |qs|
    ensures CountAll(internal, qs[p := q]) ==
            CountAll(internal, qs) - CountIn(internal, qs[p]) + CountIn(internal, q)
  {
    if p == 0 {
      assert qs[0 := q][1..] == qs[1..];
    } else {
      CountPut(internal, qs[1..], p - 1, q);
      assert qs[p := q][1..] == qs[1..][p - 1 := q];
    }
  }

  // ---- the tree -----------------------------------------------------------------------------------

  lemma {:induction false} InsertMembers(evs: seq<Ev>, t: seq<Id>, x: Id)
    requires NoDup(t) && x !in t
    ensures var r := TreeInsert(evs, t, x);
            NoDup(r) && forall y :: y in r <==> y in t || y == x
  {
    hide Before;
    if t != [] && !Before(evs, x, t[0]) {
      InsertMembers(evs, t[1..], x);
      var r := TreeInsert(evs, t[1..], x);
      assert ([t[0]] + r)[1..] == r;
    } else {
      assert ([x] + t)[1..] == t;
    }
  }

  lemma {:induction false} InsertCount(internal: set<Id>, evs: seq<Ev>, t: seq<Id>, x: Id)
    ensures CountIn(internal, TreeInsert(evs, t, x)) == CountIn(internal, t) + One(internal, x)
  {
    hide Before;
    if t != [] && !Before(evs, x, t[0]) {
      InsertCount(internal, evs, t[1..], x);
      var r := TreeInsert(evs, t[1..], x);
      assert ([t[0]] + r)[1..] == r;
    } else {
      assert ([x] + t)[1..] == t;
    }
  }

  lemma BeforeTotal(evs: seq<Ev>, x: Id, y: Id)
    requires x != y
    ensures Before(evs, x, y) <==> !Before(evs, y, x)
  {
  }

  lemma BeforeTransitive(evs: seq<Ev>, x: Id, y: Id, z: Id)
    requires Before(evs, x, y) && Before(evs, y, z)
    ensures Before(evs, x, z)
  {
  }

  lemma SortedCons(evs: seq<Ev>, x: Id, t: seq<Id>)
    requires Sorted(evs, t) && forall y :: y in t ==> Before(evs, x, y)
    ensures Sorted(evs, [x] + t)
  {
    hide Before;
    var r := [x] + t;
    forall i, j | 0 <= i < j < |r| ensures Before(evs, r[i], r[j]) {
      assert r[j] == t[j - 1] && r[j] in t;
      if i > 0 {
        assert r[i] == t[i - 1];
      }
    }
  }

  lemma SortedTail(evs: seq<Ev>, t: seq<Id>)
    requires Sorted(evs, t) && t != []
    ensures Sorted(evs, t[1..]) && forall y :: y in t[1..] ==> Before(evs, t[0], y)
  {
    hide Before;
    forall y | y in t[1..] ensures Before(evs, t[0], y) {
      var j :| 0 <= j < |t[1..]| && t[1..][j] == y;
      assert t[j + 1] == y;
    }
  }

  lemma {:induction false} InsertSorted(evs: seq<Ev>, t: seq<Id>, x: Id)
    requires Sorted(evs, t) && NoDup(t) && x !in t
    ensures Sorted(evs, TreeInsert(evs, t, x))
  {
    hide Before;
    if t == [] {
    } else if Before(evs, x, t[0]) {
      SortedTail(evs, t);
      forall y | y in t ensures Before(evs, x, y) {
        if y != t[0] {
          BeforeTransitive(evs, x, t[0], y);
        }
      }
      SortedCons(evs, x, t);
    } else {
      SortedTail(evs, t);
      InsertSorted(evs, t[1..], x);
      BeforeTotal(evs, x, t[0]);
      InsertMembers(evs, t[1..], x);
      SortedCons(evs, t[0], TreeInsert(evs, t[1..], x));
    }
  }

  lemma {:induction false} WithoutSorted(evs: seq<Ev>, t: seq<Id>, x: Id)
    requires Sorted(evs, t) && NoDup(t)
    ensures Sorted(evs, Without(t, x))
  {
    hide Before;
    if t != [] {
      SortedTail(evs, t);
      if t[0] != x {
        WithoutSorted(evs, t[1..], x);
        WithoutMembers(t[1..], x);
        SortedCons(evs, t[0], Without(t[1..], x));
      }
    }
  }

  /** The order depends only on the times of the timers in the tree. */
  lemma SortedSame(evs: seq<Ev>, next: seq<Ev>, t: seq<Id>)
    requires Sorted(evs, t) && forall x :: x in t ==> When(next, x) == When(evs, x)
    ensures Sorted(next, t)
  {
    hide When;
    forall i, j | 0 <= i < j < |t| ensures Before(next, t[i], t[j]) {
      assert Before(evs, t[i], t[j]);
    }
  }

  lemma SortedUpdate(evs: seq<Ev>, t: seq<Id>, x: Id, e: Ev)
    requires Sorted(evs, t) && 0 <= x < |evs| && (e.when == evs[x].when || x !in t)
    ensures Sorted(evs[x := e], t)
  {
    SortedSame(evs, evs[x := e], t);
  }

  // ---- queue operations -----------------------------------------------------------------------------

  lemma NamesAt(b: Base, p: nat)
    requires NamesAllActive(b.evs, b.activeq) && p < |b.activeq|
    ensures NamesActive(b.evs, b.activeq[p], p)
  {
  }

  lemma InsertNames(b: Base, x: Id, k: Queue)
    requires Coherent(b) && Known(b, x) && !Flag(b.evs[x], k)
    ensures var c := QueueInsert(b, x, k);
            && Names(c.evs, c.tree, QTimeout) && Names(c.evs, c.eventq, QInserted)
            && Names(c.evs, c.signalq, QSignal) && NamesAllActive(c.evs, c.activeq)
  {
    var e := SetFlag(b.evs[x], k, true);
    assert !(k == QActive) ==> e.active == b.evs[x].active;
    hide Names, NamesAllActive, NamesActive, Priorities, Sorted, Counts, NoLoop, PassOk, TreeInsert, NoDup;
    if k != QTimeout {
      NamesSame(b.evs, b.tree, QTimeout, x, e);
    } else {
      AbsentFrom(b, x, k);
      InsertMembers(b.evs[x := e], b.tree, x);
      NamesGain(b.evs, b.tree, k, x, e, TreeInsert(b.evs[x := e], b.tree, x));
    }
    if k != QInserted {
      NamesSame(b.evs, b.eventq, QInserted, x, e);
    } else {
      AbsentFrom(b, x, k);
      AppendMembers(b.eventq, x);
      NamesGain(b.evs, b.eventq, k, x, e, b.eventq + [x]);
    }
    if k != QSignal {
      NamesSame(b.evs, b.signalq, QSignal, x, e);
    } else {
      AbsentFrom(b, x, k);
      AppendMembers(b.signalq, x);
      NamesGain(b.evs, b.signalq, k, x, e, b.signalq + [x]);
    }
    if k != QActive {
      ActiveSame(b.evs, b.activeq, x, e);
    } else {
      PriorityOk(b, x);
      ActiveGain(b.evs, b.activeq, x, e);
    }
  }

  lemma PriorityOk(b: Base, x: Id)
    requires Priorities(b.evs, |b.activeq|) && Known(b, x)
    ensures b.evs[x].pri < |b.activeq|
  {
  }

  lemma AbsentFrom(b: Base, x: Id, k: Queue)
    requires Coherent(b) && Known(b, x) && !Flag(b.evs[x], k)
    ensures k == QTimeout ==> NoDup(b.tree) && x !in b.tree
    ensures k == QInserted ==> NoDup(b.eventq) && x !in b.eventq
    ensures k == QSignal ==> NoDup(b.signalq) && x !in b.signalq
  {
    hide NamesAllActive, Priorities, Sorted, Counts, NoLoop, PassOk, NoDup;
  }

  lemma PresentIn(b: Base, x: Id, k: Queue)
    requires Coherent(b) && Known(b, x) && Flag(b.evs[x], k)
    ensures k == QTimeout ==> NoDup(b.tree) && x in b.tree
    ensures k == QInserted ==> NoDup(b.eventq) && x in b.eventq
    ensures k == QSignal ==> NoDup(b.signalq) && x in b.signalq
    ensures k == QActive ==> var p := b.evs[x].pri; p < |b.activeq| && NoDup(b.activeq[p]) && x in b.activeq[p]
  {
    PriorityOk(b, x);
    NamesAt(b, b.evs[x].pri);
    hide NamesAllActive, Priorities, Sorted, Counts, NoLoop, PassOk, NoDup;
  }

  lemma RemoveNames(b: Base, x: Id, k: Queue)
    requires Coherent(b) && Known(b, x) && Flag(b.evs[x], k)
    ensures var c := QueueRemove(b, x, k);
            && Names(c.evs, c.tree, QTimeout) && Names(c.evs, c.eventq, QInserted)
            && Names(c.evs, c.signalq, QSignal) && NamesAllActive(c.evs, c.activeq)
  {
    var e := SetFlag(b.evs[x], k, false);
    hide Names, NamesAllActive, NamesActive, Priorities, Sorted, Counts, NoLoop, PassOk, Without, NoDup;
    if k != QTimeout {
      NamesSame(b.evs, b.tree, QTimeout, x, e);
    } else {
      NamesLose(b.evs, b.tree, k, x, e);
    }
    if k != QInserted {
      NamesSame(b.evs, b.eventq, QInserted, x, e);
    } else {
      NamesLose(b.evs, b.eventq, k, x, e);
    }
    if k != QSignal {
      NamesSame(b.evs, b.signalq, QSignal, x, e);
    } else {
      NamesLose(b.evs, b.signalq, k, x, e);
    }
    if k != QActive {
      ActiveSame(b.evs, b.activeq, x, e);
    } else {
      PriorityOk(b, x);
      ActiveLose(b.evs, b.activeq, x, e);
    }
  }

  lemma InsertCounts(b: Base, x: Id, k: Queue)
    requires Coherent(b) && Known(b, x)
    ensures Counts(QueueInsert(b, x, k))
  {
    PriorityOk(b, x);
    hide Names, NamesAllActive, Priorities, Sorted, NoLoop, PassOk, CountIn, CountAll, TreeInsert;
    match k
    case QTimeout => InsertCount(b.internal, b.evs[x := SetFlag(b.evs[x], k, true)], b.tree, x);
    case QInserted => CountAppend(b.internal, b.eventq, x);
    case QSignal => CountAppend(b.internal, b.signalq, x);
    case QActive =>
      var p := b.evs[x].pri;
      CountAppend(b.internal, b.activeq[p], x);
      CountPut(b.internal, b.activeq, p, b.activeq[p] + [x]);
  }

  lemma RemoveCounts(b: Base, x: Id, k: Queue)
    requires Coherent(b) && Known(b, x) && Flag(b.evs[x], k)
    ensures Counts(QueueRemove(b, x, k))
  {
    PresentIn(b, x, k);
    hide Names, NamesAllActive, Priorities, Sorted, NoLoop, PassOk, CountIn, CountAll, Without, NoDup;
    match k
    case QTimeout => CountWithout(b.internal, b.tree, x);
    case QInserted => CountWithout(b.internal, b.eventq, x);
    case QSignal => CountWithout(b.internal, b.signalq, x);
    case QActive =>
      var p := b.evs[x].pri;
      CountWithout(b.internal, b.activeq[p], x);
      CountPut(b.internal, b.activeq, p, Without(b.activeq[p], x));
  }

  lemma InsertSortedTree(b: Base, x: Id, k: Queue)
    requires Coherent(b) && Known(b, x) && !Flag(b.evs[x], k)
    ensures var c := QueueInsert(b, x, k); Sorted(c.evs, c.tree)
  {
    var e := SetFlag(b.evs[x], k, true);
    SortedUpdate(b.evs, b.tree, x, e);
    if k == QTimeout {
      AbsentFrom(b, x, k);
      InsertSorted(b.evs[x := e], b.tree, x);
    }
    hide Names, NamesAllActive, Priorities, Sorted, NoLoop, PassOk, Counts, TreeInsert, NoDup;
  }

  lemma RemoveSortedTree(b: Base, x: Id, k: Queue)
    requires Coherent(b) && Known(b, x) && Flag(b.evs[x], k)
    ensures var c := QueueRemove(b, x, k); Sorted(c.evs, c.tree)
  {
    var e := SetFlag(b.evs[x], k, false);
    SortedUpdate(b.evs, b.tree, x, e);
    if k == QTimeout {
      PresentIn(b, x, k);
      WithoutSorted(b.evs[x := e], b.tree, x);
    }
    hide Names, NamesAllActive, Priorities, Sorted, NoLoop, PassOk, Counts, Without, NoDup;
  }

  lemma InsertSmall(b: Base, x: Id, k: Queue)
    requires Coherent(b) && Known(b, x) && (k == QActive ==> !b.evs[x].pncalls)
    ensures var c := QueueInsert(b, x, k);
            Priorities(c.evs, |c.activeq|) && NoLoop(c.evs) && PassOk(c)
  {
    hide Names, NamesAllActive, Sorted, Counts, TreeInsert;
  }

  lemma RemoveSmall(b: Base, x: Id, k: Queue)
    requires Coherent(b) && Known(b, x)
    ensures var c := QueueRemove(b, x, k);
            Priorities(c.evs, |c.activeq|) && NoLoop(c.evs) && PassOk(c)
  {
    hide Names, NamesAllActive, Sorted, Counts, Without;
  }

  lemma InsertCoherent(b: Base, x: Id, k: Queue)
    requires Coherent(b) && Known(b, x) && !Flag(b.evs[x], k) && (k == QActive ==> !b.evs[x].pncalls)
    ensures Coherent(QueueInsert(b, x, k))
  {
    InsertNames(b, x, k);
    InsertCounts(b, x, k);
    InsertSortedTree(b, x, k);
    InsertSmall(b, x, k);
    hide QueueInsert, Names, NamesAllActive, Sorted, Counts, Priorities, NoLoop, PassOk;
  }

  lemma RemoveCoherent(b: Base, x: Id, k: Queue)
    requires Coherent(b) && Known(b, x) && Flag(b.evs[x], k)
    ensures Coherent(QueueRemove(b, x, k))
  {
    RemoveNames(b, x, k);
    RemoveCounts(b, x, k);
    RemoveSortedTree(b, x, k);
    RemoveSmall(b, x, k);
    hide QueueRemove, Names, NamesAllActive, Sorted, Counts, Priorities, NoLoop, PassOk;
  }

  // ---- changes to one event that no queue depends on -------------------------------------------------

  /** A change that keeps the four flags, a used priority and a used time. */
  lemma UpdateCoherent(b: Base, x: Id, e: Ev)
    requires Coherent(b) && Known(b, x)
    requires e.timeout == b.evs[x].timeout && e.inserted == b.evs[x].inserted
    requires e.signal == b.evs[x].signal && e.active == b.evs[x].active
    requires e.pri < |b.activeq| && (e.active ==> e.pri == b.evs[x].pri && !e.pncalls)
    requires e.timeout ==> e.when == b.evs[x].when
    ensures Coherent(b.(evs := b.evs[x := e]))
  {
    NamesSame(b.evs, b.tree, QTimeout, x, e);
    NamesSame(b.evs, b.eventq, QInserted, x, e);
    NamesSame(b.evs, b.signalq, QSignal, x, e);
    ActiveSame(b.evs, b.activeq, x, e);
    if !e.timeout {
      AbsentFrom(b, x, QTimeout);
    }
    SortedUpdate(b.evs, b.tree, x, e);
    hide Names, NamesAllActive, Sorted, CountIn, CountAll;
  }

  /** The part of a base that its invariant does not depend on. */
  lemma PassCoherent(b: Base, c: Base)
    requires Coherent(b) && PassOk(c) && c == b.(pass := c.pass, stray := c.stray)
    ensures Coherent(c)
  {
    hide Names, NamesAllActive, Sorted, CountIn, CountAll, NoLoop, Priorities;
  }
}
