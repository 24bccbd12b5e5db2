/** The state of a libevent base (event.c) as one value, and what the library does to it. */
module EventBase {
  import opened Seqs
  import opened Timeval

  type Id = int

  /** Bits of ev_res. */
  datatype Why = ByTimeout | ByRead | ByWrite | BySignal

  datatype Queue = QTimeout | QInserted | QSignal | QActive

  /** struct event: the four queue bits of ev_flags, then the fields the base uses.
      pncalls says whether ev_pncalls points at the counter of event_process_active. */
  datatype Ev = Ev(
    timeout: bool, inserted: bool, signal: bool, active: bool,
    io: bool, sig: bool, pri: nat, ncalls: nat, pncalls: bool, res: set<Why>, when: Timeval)

  /** Where event_process_active stands: not running, between two events of a queue, in the while
      loop of one event, or inside its callback; ncalls is the local counter. */
  datatype Pass =
    | Off
    | Between(queue: nat)
    | Looping(queue: nat, ev: Id, ncalls: nat)
    | Calling(queue: nat, ev: Id, ncalls: nat)

  /** struct event_base with all events there are; stray counts writes through an ev_pncalls whose
      event_process_active has returned. */
  datatype Base = Base(
    internal: set<Id>, evs: seq<Ev>,
    tree: seq<Id>, eventq: seq<Id>, signalq: seq<Id>, activeq: seq<seq<Id>>,
    count: int, countActive: int, pass: Pass, stray: nat)

  function Flag(e: Ev, k: Queue): bool {
    match k
    case QTimeout => e.timeout
    case QInserted => e.inserted
    case QSignal => e.signal
    case QActive => e.active
  }

  function SetFlag(e: Ev, k: Queue, on: bool): Ev {
    match k
    case QTimeout => e.(timeout := on)
    case QInserted => e.(inserted := on)
    case QSignal => e.(signal := on)
    case QActive => e.(active := on)
  }

  predicate Known(b: Base, x: Id) {
    0 <= x < |b.evs|
  }

  /** docount */
  function Weight(b: Base, x: Id): int {
    if x in b.internal then 0 else 1
  }

  // ---- the timer tree, as the sequence its in-order walk gives -----------------------------------

  function When(evs: seq<Ev>, x: Id): Timeval {
    if 0 <= x < |evs| then evs[x].when else Timeval(0, 0)
  }

  /** compare: by timeout, then by address. */
  predicate Before(evs: seq<Ev>, x: Id, y: Id) {
    Less(When(evs, x), When(evs, y)) || (!Less(When(evs, y), When(evs, x)) && x < y)
  }

  /** RB_INSERT */
  function TreeInsert(evs: seq<Ev>, t: seq<Id>, x: Id): seq<Id> {
    if t == [] || Before(evs, x, t[0]) then [x] + t else [t[0]] + TreeInsert(evs, t[1..], x)
  }

  /** The active queue of one priority, and putting another in its place. */
  function At(qs: seq<seq<Id>>, p: nat): seq<Id> {
    if p < |qs| then qs[p] else []
  }

  function Put(qs: seq<seq<Id>>, p: nat, q: seq<Id>): (r: seq<seq<Id>>)
    ensures |r| == |qs|
  {
    if p < |qs| then qs[p := q] else qs
  }

  // ---- event_queue_insert and event_queue_remove --------------------------------------------------

  /** Its callers make sure that the event is not on the queue yet. */
  function QueueInsert(b: Base, x: Id, k: Queue): (r: Base)
    requires Known(b, x)
    ensures |r.evs| == |b.evs|
  {
    var evs := b.evs[x := SetFlag(b.evs[x], k, true)];
    var c := b.(evs := evs, count := b.count + Weight(b, x));
    match k
    case QTimeout => c.(tree := TreeInsert(evs, b.tree, x))
    case QInserted => c.(eventq := b.eventq + [x])
    case QSignal => c.(signalq := b.signalq + [x])
    case QActive =>
      var p := b.evs[x].pri;
      c.(countActive := b.countActive + Weight(b, x), activeq := Put(b.activeq, p, At(b.activeq, p) + [x]))
  }

  /** Its callers make sure that the event is on the queue. */
  function QueueRemove(b: Base, x: Id, k: Queue): (r: Base)
    requires Known(b, x)
    ensures |r.evs| == |b.evs|
  {
    var evs := b.evs[x := SetFlag(b.evs[x], k, false)];
    var c := b.(evs := evs, count := b.count - Weight(b, x));
    match k
    case QTimeout => c.(tree := Without(b.tree, x))
    case QInserted => c.(eventq := Without(b.eventq, x))
    case QSignal => c.(signalq := Without(b.signalq, x))
    case QActive =>
      var p := b.evs[x].pri;
      c.(countActive := b.countActive - Weight(b, x), activeq := Put(b.activeq, p, Without(At(b.activeq, p), x)))
  }

  function RemoveIf(b: Base, x: Id, k: Queue): (r: Base)
    requires Known(b, x)
    ensures |r.evs| == |b.evs|
  {
    if Flag(b.evs[x], k) then QueueRemove(b, x, k) else b
  }

  // ---- what a program calls -----------------------------------------------------------------------

  /** The counter that the event points at, if it has calls counted and points at one, becomes 0. */
  function AbortLoop(b: Base, x: Id): Base
    requires Known(b, x)
  {
    if b.evs[x].ncalls == 0 || !b.evs[x].pncalls then b
    else
      match b.pass
      case Off => b.(stray := b.stray + 1)
      case Between(_) => b
      case Looping(q, ev, _) => b.(pass := Looping(q, ev, 0))
      case Calling(q, ev, _) => b.(pass := Calling(q, ev, 0))
  }

  /** event_del */
  function Del(b: Base, x: Id): (r: Base)
    requires Known(b, x)
    ensures |r.evs| == |b.evs|
  {
    var c := RemoveIf(RemoveIf(AbortLoop(b, x), x, QTimeout), x, QActive);
    if c.evs[x].inserted then QueueRemove(c, x, QInserted) else RemoveIf(c, x, QSignal)
  }

  function SetCalls(b: Base, x: Id, res: set<Why>, ncalls: nat): Base
    requires Known(b, x)
  {
    b.(evs := b.evs[x := b.evs[x].(res := res, ncalls := ncalls, pncalls := false)])
  }

  /** event_active */
  function Active(b: Base, x: Id, res: set<Why>, ncalls: nat): (r: Base)
    requires Known(b, x)
    ensures |r.evs| == |b.evs|
  {
    var e := b.evs[x];
    if e.active then b.(evs := b.evs[x := e.(res := e.res + res)])
    else QueueInsert(SetCalls(b, x, res, ncalls), x, QActive)
  }

  /** A timeout that has made the event active is taken back. */
  function Reschedule(b: Base, x: Id): (r: Base)
    requires Known(b, x)
    ensures |r.evs| == |b.evs|
  {
    if b.evs[x].active && ByTimeout in b.evs[x].res then QueueRemove(AbortLoop(b, x), x, QActive) else b
  }

  function SetWhen(b: Base, x: Id, when: Timeval): Base
    requires Known(b, x)
  {
    b.(evs := b.evs[x := b.evs[x].(when := when)])
  }

  /** event_add's part for a timeout, tv from now. */
  function AddTimeout(b: Base, x: Id, tv: Timeval, now: Timeval): (r: Base)
    requires Known(b, x)
    ensures |r.evs| == |b.evs|
  {
    QueueInsert(SetWhen(Reschedule(RemoveIf(b, x, QTimeout), x), x, Add(now, tv)), x, QTimeout)
  }

  /** event_add's part for descriptors and signals. */
  function AddInterest(b: Base, x: Id): (r: Base)
    requires Known(b, x)
    ensures |r.evs| == |b.evs|
  {
    var e := b.evs[x];
    if e.io && !e.inserted && !e.active then QueueInsert(b, x, QInserted)
    else if e.sig && !e.signal then QueueInsert(b, x, QSignal)
    else b
  }

  /** event_add */
  function AddEvent(b: Base, x: Id, tv: Option<Timeval>, now: Timeval): (r: Base)
    requires Known(b, x)
    ensures |r.evs| == |b.evs|
  {
    if tv.None? then AddInterest(b, x) else AddInterest(AddTimeout(b, x, tv.value, now), x)
  }

  /** event_priority_set */
  function PrioritySet(b: Base, x: Id, pri: int): Base
    requires Known(b, x)
  {
    if b.evs[x].active || pri < 0 || pri >= |b.activeq| then b
    else b.(evs := b.evs[x := b.evs[x].(pri := pri)])
  }

  predicate Idle(e: Ev) {
    !e.timeout && !e.inserted && !e.signal && !e.active
  }

  /** event_set; only for an event that is in no queue, and not for the library's own. */
  function SetUp(b: Base, x: Id, io: bool, sig: bool): Base
    requires Known(b, x) && Idle(b.evs[x]) && x !in b.internal
  {
    b.(evs := b.evs[x := b.evs[x].(io := io, sig := sig, ncalls := 0, pncalls := false, pri := |b.activeq| / 2)])
  }

  // ---- event_process_active -----------------------------------------------------------------------

  /** The first queue from p on that is not empty, or their number. */
  function FirstNonEmpty(qs: seq<seq<Id>>, p: nat): (r: nat)
    requires p <= |qs|
    ensures p <= r <= |qs| && (r < |qs| ==> qs[r] != [])
    ensures forall i :: p <= i < r ==> qs[i] == []
    decreases |qs| - p
  {
    if p == |qs| || qs[p] != [] then p else FirstNonEmpty(qs, p + 1)
  }

  /** Entering event_process_active. */
  function StartPass(b: Base): Base {
    if b.countActive == 0 then b else b.(pass := Between(FirstNonEmpty(b.activeq, 0)))
  }

  /** The for loop takes the queue's first event, or ends. */
  function NextEvent(b: Base): (r: Base)
    requires b.pass.Between?
    requires At(b.activeq, b.pass.queue) != [] ==> Known(b, At(b.activeq, b.pass.queue)[0])
    ensures |r.evs| == |b.evs|
  {
    var q := b.pass.queue;
    if At(b.activeq, q) == [] then b.(pass := Off)
    else
      var x := At(b.activeq, q)[0];
      var c := QueueRemove(b, x, QActive);
      c.(evs := c.evs[x := c.evs[x].(pncalls := true)], pass := Looping(q, x, c.evs[x].ncalls))
  }

  /** The while loop: one more call, or on to the next event. */
  function NextCall(b: Base): (r: Base)
    requires b.pass.Looping? && Known(b, b.pass.ev)
    ensures |r.evs| == |b.evs|
  {
    var q, x, n := b.pass.queue, b.pass.ev, b.pass.ncalls;
    if n == 0 then b.(pass := Between(q))
    else b.(evs := b.evs[x := b.evs[x].(ncalls := n - 1)], pass := Calling(q, x, n - 1))
  }

  function Return(b: Base): Base
    requires b.pass.Calling?
  {
    b.(pass := Looping(b.pass.queue, b.pass.ev, b.pass.ncalls))
  }

  // ---- timers ---------------------------------------------------------------------------------------

  /** One round of timeout_process. */
  function ExpireOne(b: Base, x: Id): (r: Base)
    requires Known(b, x)
    ensures |r.evs| == |b.evs|
  {
    Active(Del(QueueRemove(b, x, QTimeout), x), x, {ByTimeout}, 1)
  }

  /** timeout_process over the timers in t, the rest of the tree. */
  function Expire(b: Base, t: seq<Id>, now: Timeval): (r: Base)
    ensures |r.evs| == |b.evs|
    decreases |t|
  {
    if t == [] || !Known(b, t[0]) || Less(now, b.evs[t[0]].when) then b
    else Expire(ExpireOne(b, t[0]), t[1..], now)
  }

  function TimeoutProcess(b: Base, now: Timeval): (r: Base)
    ensures |r.evs| == |b.evs|
  {
    Expire(b, b.tree, now)
  }

  /** timeout_correct */
  function Correct(b: Base, off: Timeval): (r: Base)
    ensures |r.evs| == |b.evs|
  {
    b.(evs := seq(|b.evs|, x requires 0 <= x < |b.evs| =>
                    if x in b.tree then b.evs[x].(when := Sub(b.evs[x].when, off)) else b.evs[x]))
  }

  const TIMEOUT_DEFAULT := Timeval(5, 0)

  /** timeout_next */
  function TimeoutNext(b: Base, now: Timeval): Timeval {
    if b.tree == [] then TIMEOUT_DEFAULT
    else
      var first := When(b.evs, b.tree[0]);
      if AtMost(first, now) then Timeval(0, 0) else Sub(first, now)
  }

  // ---- what always holds -----------------------------------------------------------------------------

  /** The list holds just the events with this flag bit, once each. */
  ghost predicate Names(evs: seq<Ev>, q: seq<Id>, k: Queue) {
    NoDup(q) && forall x :: x in q <==> 0 <= x < |evs| && Flag(evs[x], k)
  }

  /** The active queue of priority p holds just the active events of that priority, once each. */
  ghost predicate NamesActive(evs: seq<Ev>, q: seq<Id>, p: nat) {
    NoDup(q) && forall x :: x in q <==> 0 <= x < |evs| && evs[x].active && evs[x].pri == p
  }

  ghost predicate NamesAllActive(evs: seq<Ev>, qs: seq<seq<Id>>) {
    forall p :: 0 <= p < |qs| ==> NamesActive(evs, qs[p], p)
  }

  predicate Priorities(evs: seq<Ev>, n: nat) {
    forall x :: 0 <= x < |evs| ==> evs[x].pri < n
  }

  predicate Sorted(evs: seq<Ev>, t: seq<Id>) {
    forall i, j :: 0 <= i < j < |t| ==> Before(evs, t[i], t[j])
  }

  /** How many of a list are not internal. */
  function CountIn(internal: set<Id>, q: seq<Id>): nat {
    if q == [] then 0 else (if q[0] in internal then 0 else 1) + CountIn(internal, q[1..])
  }

  function CountAll(internal: set<Id>, qs: seq<seq<Id>>): nat {
    if qs == [] then 0 else CountIn(internal, qs[0]) + CountAll(internal, qs[1..])
  }

  predicate Counts(b: Base) {
    && b.countActive == CountAll(b.internal, b.activeq)
    && b.count == CountIn(b.internal, b.tree) + CountIn(b.internal, b.eventq)
                  + CountIn(b.internal, b.signalq) + b.countActive
  }

  /** An event that waits in an active queue has no loop to abort. */
  predicate NoLoop(evs: seq<Ev>) {
    forall x :: 0 <= x < |evs| && evs[x].active ==> !evs[x].pncalls
  }

  predicate PassOk(b: Base) {
    match b.pass
    case Off => true
    case Between(q) => q < |b.activeq|
    case Looping(q, x, _) => q < |b.activeq| && Known(b, x)
    case Calling(q, x, _) => q < |b.activeq| && Known(b, x)
  }

  ghost predicate Coherent(b: Base) {
    && Names(b.evs, b.tree, QTimeout) && Names(b.evs, b.eventq, QInserted) && Names(b.evs, b.signalq, QSignal)
    && NamesAllActive(b.evs, b.activeq) && Priorities(b.evs, |b.activeq|)
    && Sorted(b.evs, b.tree) && Counts(b) && NoLoop(b.evs) && PassOk(b)
  }
}
