/** Handing connections to worker threads (thread.c): a queue and a pipe for each worker, and one free
    list of queue items.  Each step is what one thread does under one lock or in one system call. */
module Dispatch {
  import opened Seqs

  /** A CQ_ITEM is its place in the order of allocation. */
  type Id = int

  const ITEMS_PER_ALLOC: nat := 64

  /** An item on a connection queue, with the connection it holds. */
  datatype Entry = Entry(item: Id, sfd: int)

  /** dispatch_conn_new: found the free list empty, holds an item, or has pushed it for worker w. */
  datatype Dispatcher = DIdle | DNeeds(sfd: int) | DHas(sfd: int, item: Id) | DPushed(w: nat)

  /** thread_libevent_process: has read a byte, or has taken an item. */
  datatype Worker = WIdle | WAwake | WHas(e: Entry)

  /** Worker w is thread w + 1.  made counts the items allocated, lost[w] the bytes that could not be
      written; sent and taken are histories. */
  datatype Sys = Sys(
    last: nat, free: seq<Id>, made: nat, disp: Dispatcher,
    queues: seq<seq<Entry>>, pipes: seq<nat>, workers: seq<Worker>, lost: seq<nat>,
    sent: seq<seq<int>>, taken: seq<seq<int>>)

  datatype Step =
    | Accept(sfd: int)     // cqi_new looks at the free list
    | Allocate             // cqi_new allocates items and links the others to the free list
    | Push                 // the worker is chosen, and cq_push
    | Write(ok: bool)      // one byte to the worker's pipe
    | Wake(w: nat)         // the worker reads one byte
    | Peek(w: nat)         // cq_peek
    | Release(w: nat)      // cqi_free

  /** The ids from a up to b. */
  function Upto(a: nat, b: nat): seq<Id>
    decreases b - a
  {
    if a >= b then [] else [a] + Upto(a + 1, b)
  }

  predicate Shape(s: Sys) {
    && |s.workers| > 0
    && |s.queues| == |s.pipes| == |s.workers| == |s.lost| == |s.sent| == |s.taken|
    && (s.disp.DPushed? ==> s.disp.w < |s.workers|)
  }

  predicate Enabled(s: Sys, t: Step)
    requires Shape(s)
  {
    match t
    case Accept(_) => s.disp.DIdle?
    case Allocate => s.disp.DNeeds?
    case Push => s.disp.DHas?
    case Write(_) => s.disp.DPushed?
    case Wake(w) => w < |s.workers| && s.workers[w].WIdle? && s.pipes[w] > 0
    case Peek(w) => w < |s.workers| && s.workers[w].WAwake?
    case Release(w) => w < |s.workers| && s.workers[w].WHas?
  }

  /** tid for the next connection: last_thread % (num_threads - 1), past the dispatch thread. */
  function NextTid(last: nat, n: nat): (tid: nat)
    requires n > 0
    ensures 1 <= tid <= n
  {
    last % n + 1
  }

  function Do(s: Sys, t: Step): (u: Sys)
    requires Shape(s) && Enabled(s, t)
    ensures Shape(u) && |u.workers| == |s.workers|
  {
    match t
    case Accept(sfd) =>
      if s.free == [] then s.(disp := DNeeds(sfd)) else s.(free := s.free[1..], disp := DHas(sfd, s.free[0]))
    case Allocate =>
      var end := s.made + ITEMS_PER_ALLOC;
      s.(free := Upto(s.made + 1, end) + s.free, made := end, disp := DHas(s.disp.sfd, s.made))
    case Push =>
      var tid := NextTid(s.last, |s.workers|);
      var w := tid - 1;
      s.(last := tid, disp := DPushed(w), queues := s.queues[w := s.queues[w] + [Entry(s.disp.item, s.disp.sfd)]],
         sent := s.sent[w := s.sent[w] + [s.disp.sfd]])
    case Write(ok) =>
      var w := s.disp.w;
      if ok then s.(disp := DIdle, pipes := s.pipes[w := s.pipes[w] + 1])
      else s.(disp := DIdle, lost := s.lost[w := s.lost[w] + 1])
    case Wake(w) => s.(pipes := s.pipes[w := s.pipes[w] - 1], workers := s.workers[w := WAwake])
    case Peek(w) =>
      if s.queues[w] == [] then s.(workers := s.workers[w := WIdle])
      else
        s.(workers := s.workers[w := WHas(s.queues[w][0])], queues := s.queues[w := s.queues[w][1..]],
           taken := s.taken[w := s.taken[w] + [s.queues[w][0].sfd]])
    case Release(w) => s.(free := [s.workers[w].e.item] + s.free, workers := s.workers[w := WIdle])
  }

  // ---- what always holds --------------------------------------------------------------------------

  /** The bytes on their way to worker w, or read and not yet acted on, or not yet or never written. */
  function Due(s: Sys, w: nat): nat
    requires Shape(s) && w < |s.workers|
  {
    s.pipes[w] + (if s.workers[w].WAwake? then 1 else 0) + (if s.disp == DPushed(w) then 1 else 0) + s.lost[w]
  }

  predicate Signalled(s: Sys)
    requires Shape(s)
  {
    forall w :: 0 <= w < |s.workers| ==> |s.queues[w]| == Due(s, w)
  }

  function Sfds(q: seq<Entry>): (r: seq<int>)
    ensures |r| == |q|
  {
    if q == [] then [] else [q[0].sfd] + Sfds(q[1..])
  }

  predicate InOrder(s: Sys)
    requires Shape(s)
  {
    forall w :: 0 <= w < |s.workers| ==> s.sent[w] == s.taken[w] + Sfds(s.queues[w])
  }

  function Items(q: seq<Entry>): multiset<Id> {
    if q == [] then multiset{} else multiset{q[0].item} + Items(q[1..])
  }

  function Queued(qs: seq<seq<Entry>>): multiset<Id> {
    if qs == [] then multiset{} else Items(qs[0]) + Queued(qs[1..])
  }

  function InHand(w: Worker): multiset<Id> {
    if w.WHas? then multiset{w.e.item} else multiset{}
  }

  function Handled(ws: seq<Worker>): multiset<Id> {
    if ws == [] then multiset{} else InHand(ws[0]) + Handled(ws[1..])
  }

  function Held(d: Dispatcher): multiset<Id> {
    if d.DHas? then multiset{d.item} else multiset{}
  }

  function Sum(free: multiset<Id>, held: multiset<Id>, queued: multiset<Id>, handled: multiset<Id>): multiset<Id> {
    free + held + queued + handled
  }

  /** Every item that somebody has: the free list, the dispatcher, a queue or a worker. */
  function Owned(s: Sys): multiset<Id> {
    Sum(multiset(s.free), Held(s.disp), Queued(s.queues), Handled(s.workers))
  }

  /** Each item that was ever allocated has exactly one owner. */
  predicate OneOwner(s: Sys) {
    Owned(s) == multiset(Upto(0, s.made))
  }

  predicate Inv(s: Sys) {
    Shape(s) && Signalled(s) && InOrder(s) && OneOwner(s)
  }

  // ---- sums -----------------------------------------------------------------------------------------

  lemma {:induction false} ItemsAppend(q: seq<Entry>, e: Entry)
    ensures Items(q + [e]) == Items(q) + multiset{e.item}
  {
    if q == [] {
      assert q + [e] == [e] && [e][1..] == [];
    } else {
      ItemsAppend(q[1..], e);
      assert (q + [e])[1..] == q[1..] + [e];
    }
  }

  lemma {:induction false} SfdsAppend(q: seq<Entry>, e: Entry)
    ensures Sfds(q + [e]) == Sfds(q) + [e.sfd]
  {
    if q == [] {
      assert q + [e] == [e] && [e][1..] == [];
    } else {
      SfdsAppend(q[1..], e);
      assert (q + [e])[1..] == q[1..] + [e];
    }
  }

  lemma {:induction false} QueuedGain(qs: seq<seq<Entry>>, w: nat, q: seq<Entry>, x: Id)
    requires w < |qs| && Items(q) == Items(qs[w]) + multiset{x}
    ensures Queued(qs[w := q]) == Queued(qs) + multiset{x}
  {
    hide Items;
    if w == 0 {
      assert qs[0 := q][1..] == qs[1..];
    } else {
      QueuedGain(qs[1..], w - 1, q, x);
      assert qs[w := q][1..] == qs[1..][w - 1 := q];
    }
  }

  lemma {:induction false} QueuedLose(qs: seq<seq<Entry>>, w: nat, q: seq<Entry>, x: Id)
    requires w < |qs| && Items(qs[w]) == Items(q) + multiset{x}
    ensures Queued(qs) == Queued(qs[w := q]) + multiset{x}
  {
    QueuedGain(qs[w := q], w, qs[w], x);
    assert qs[w := q][w := qs[w]] == qs;
    hide Queued;
  }

  lemma {:induction false} HandledSame(ws: seq<Worker>, i: nat, v: Worker)
    requires i < |ws| && InHand(v) == InHand(ws[i])
    ensures Handled(ws[i := v]) == Handled(ws)
  {
    hide InHand;
    if i == 0 {
      assert ws[0 := v][1..] == ws[1..];
    } else {
      HandledSame(ws[1..], i - 1, v);
      assert ws[i := v][1..] == ws[1..][i - 1 := v];
    }
  }

  lemma {:induction false} HandledGain(ws: seq<Worker>, i: nat, v: Worker, x: Id)
    requires i < |ws| && InHand(v) == InHand(ws[i]) + multiset{x}
    ensures Handled(ws[i := v]) == Handled(ws) + multiset{x}
  {
    hide InHand;
    if i == 0 {
      assert ws[0 := v][1..] == ws[1..];
    } else {
      HandledGain(ws[1..], i - 1, v, x);
      assert ws[i := v][1..] == ws[1..][i - 1 := v];
    }
  }

  lemma {:induction false} UptoSplit(a: nat, b: nat, c: nat)
    requires a <= b <= c
    ensures Upto(a, c) == Upto(a, b) + Upto(b, c)
    decreases b - a
  {
    if a < b {
      UptoSplit(a + 1, b, c);
    }
  }

  // ---- each step ------------------------------------------------------------------------------------

  lemma DoSignalled(s: Sys, t: Step)
    requires Shape(s) && Signalled(s) && Enabled(s, t)
    ensures Signalled(Do(s, t))
  {
    hide Upto, Sfds, Items;
    if t.Push? {
      assert s.disp != DPushed(NextTid(s.last, |s.workers|) - 1);
    }
  }

  lemma DoInOrder(s: Sys, t: Step)
    requires Shape(s) && InOrder(s) && Enabled(s, t)
    ensures InOrder(Do(s, t))
  {
    if t.Push? {
      var w := NextTid(s.last, |s.workers|) - 1;
      SfdsAppend(s.queues[w], Entry(s.disp.item, s.disp.sfd));
    } else if t.Peek? && s.queues[t.w] != [] {
      var q := s.queues[t.w];
      assert Sfds(q) == [q[0].sfd] + Sfds(q[1..]);
    }
    hide Sfds, Upto;
  }

  /** One item moves from one of the four kinds of owner to another. */
  lemma Moves(f: multiset<Id>, h: multiset<Id>, q: multiset<Id>, w: multiset<Id>, x: Id)
    ensures Sum(f + multiset{x}, multiset{}, q, w) == Sum(f, multiset{x}, q, w)
    ensures Sum(f, multiset{}, q + multiset{x}, w) == Sum(f, multiset{x}, q, w)
    ensures Sum(f + multiset{x}, h, q, w) == Sum(f, h, q, w + multiset{x})
    ensures Sum(f, h, q + multiset{x}, w) == Sum(f, h, q, w + multiset{x})
  {
  }

  lemma FreeHead(x: Id, rest: seq<Id>)
    ensures multiset([x] + rest) == multiset(rest) + multiset{x}
  {
  }

  lemma AcceptOwner(s: Sys, sfd: int)
    requires Shape(s) && OneOwner(s) && s.disp.DIdle?
    ensures OneOwner(Do(s, Accept(sfd)))
  {
    hide Queued, Handled, Upto, Sum;
    if s.free != [] {
      assert s.free == [s.free[0]] + s.free[1..];
      FreeHead(s.free[0], s.free[1..]);
      Moves(multiset(s.free[1..]), multiset{}, Queued(s.queues), Handled(s.workers), s.free[0]);
    }
  }

  lemma Gathered(f: multiset<Id>, g: multiset<Id>, q: multiset<Id>, w: multiset<Id>, x: Id)
    ensures Sum(g + f, multiset{x}, q, w) == Sum(f, multiset{}, q, w) + (multiset{x} + g)
  {
  }

  /** What a step leaves of the parts that hold items. */
  predicate Parts(u: Sys, free: seq<Id>, made: nat, disp: Dispatcher, queues: seq<seq<Entry>>, workers: seq<Worker>) {
    u.free == free && u.made == made && u.disp == disp && u.queues == queues && u.workers == workers
  }

  lemma PartsOwned(u: Sys, free: seq<Id>, made: nat, disp: Dispatcher, queues: seq<seq<Entry>>, workers: seq<Worker>)
    requires Parts(u, free, made, disp, queues, workers)
    ensures Owned(u) == Sum(multiset(free), Held(disp), Queued(queues), Handled(workers))
    ensures OneOwner(u) <==> Owned(u) == multiset(Upto(0, made))
  {
    hide Sum, Queued, Handled, Upto;
  }

  lemma AllocateParts(s: Sys)
    requires Shape(s) && s.disp.DNeeds?
    ensures Parts(Do(s, Allocate), Upto(s.made + 1, s.made + ITEMS_PER_ALLOC) + s.free, s.made + ITEMS_PER_ALLOC,
                  DHas(s.disp.sfd, s.made), s.queues, s.workers)
  {
    hide Upto;
  }

  lemma PushParts(s: Sys)
    requires Shape(s) && s.disp.DHas?
    ensures var w := NextTid(s.last, |s.workers|) - 1;
            Parts(Do(s, Push), s.free, s.made, DPushed(w),
                  s.queues[w := s.queues[w] + [Entry(s.disp.item, s.disp.sfd)]], s.workers)
  {
  }

  lemma PeekParts(s: Sys, w: nat)
    requires Shape(s) && w < |s.workers| && s.workers[w].WAwake? && s.queues[w] != []
    ensures Parts(Do(s, Peek(w)), s.free, s.made, s.disp, s.queues[w := s.queues[w][1..]],
                  s.workers[w := WHas(s.queues[w][0])])
  {
  }

  lemma AllocateOwner(s: Sys)
    requires Shape(s) && OneOwner(s) && s.disp.DNeeds?
    ensures OneOwner(Do(s, Allocate))
  {
    var end := s.made + ITEMS_PER_ALLOC;
    var block := Upto(s.made + 1, end);
    AllocateParts(s);
    PartsOwned(Do(s, Allocate), block + s.free, end, DHas(s.disp.sfd, s.made), s.queues, s.workers);
    PartsOwned(s, s.free, s.made, s.disp, s.queues, s.workers);
    hide Queued, Handled, Sum, Do, OneOwner, Owned, Parts;
    UptoSplit(0, s.made, end);
    assert Upto(s.made, end) == [s.made] + block;
    hide Upto;
    Gathered(multiset(s.free), multiset(block), Queued(s.queues), Handled(s.workers), s.made);
    JoinedBags(block, s.free);
    JoinedBags([s.made], block);
    JoinedBags(Upto(0, s.made), [s.made] + block);
  }

  lemma JoinedBags(a: seq<Id>, b: seq<Id>)
    ensures multiset(a + b) == multiset(a) + multiset(b)
  {
  }

  lemma PushOwner(s: Sys)
    requires Shape(s) && OneOwner(s) && s.disp.DHas?
    ensures OneOwner(Do(s, Push))
  {
    var w := NextTid(s.last, |s.workers|) - 1;
    var e := Entry(s.disp.item, s.disp.sfd);
    var queues := s.queues[w := s.queues[w] + [e]];
    PushParts(s);
    PartsOwned(Do(s, Push), s.free, s.made, DPushed(w), queues, s.workers);
    PartsOwned(s, s.free, s.made, s.disp, s.queues, s.workers);
    hide Queued, Handled, Upto, Items, NextTid, Sum, Do, OneOwner, Owned, Parts;
    ItemsAppend(s.queues[w], e);
    QueuedGain(s.queues, w, s.queues[w] + [e], e.item);
    Moves(multiset(s.free), multiset{}, Queued(s.queues), Handled(s.workers), e.item);
  }

  lemma PeekOwner(s: Sys, w: nat)
    requires Shape(s) && OneOwner(s) && w < |s.workers| && s.workers[w].WAwake?
    ensures OneOwner(Do(s, Peek(w)))
  {
    if s.queues[w] == [] {
      PeekNoneOwner(s, w);
    } else {
      PeekSomeOwner(s, w);
    }
    hide OneOwner, Do;
  }

  lemma PeekNoneOwner(s: Sys, w: nat)
    requires Shape(s) && OneOwner(s) && w < |s.workers| && s.workers[w].WAwake? && s.queues[w] == []
    ensures OneOwner(Do(s, Peek(w)))
  {
    hide Queued, Handled, Upto, Items, Sum, OneOwner, Owned, Do, Parts;
    HandIdle(s.workers, w);
    PeekNoneParts(s, w);
    PartsOwned(Do(s, Peek(w)), s.free, s.made, s.disp, s.queues, s.workers[w := WIdle]);
    SelfParts(s);
    PartsOwned(s, s.free, s.made, s.disp, s.queues, s.workers);
  }

  lemma PeekNoneParts(s: Sys, w: nat)
    requires Shape(s) && w < |s.workers| && s.workers[w].WAwake? && s.queues[w] == []
    ensures Parts(Do(s, Peek(w)), s.free, s.made, s.disp, s.queues, s.workers[w := WIdle])
  {
  }

  lemma HandIdle(ws: seq<Worker>, w: nat)
    requires w < |ws| && ws[w].WAwake?
    ensures Handled(ws[w := WIdle]) == Handled(ws)
  {
    HandledSame(ws, w, WIdle);
  }

  lemma PeekSomeOwner(s: Sys, w: nat)
    requires Shape(s) && OneOwner(s) && w < |s.workers| && s.workers[w].WAwake? && s.queues[w] != []
    ensures OneOwner(Do(s, Peek(w)))
  {
    hide Queued, Handled, Upto, Items, Sum, Do, OneOwner, Owned, Parts, Held, InHand;
    var e, rest := s.queues[w][0], s.queues[w][1..];
    var queues, workers := s.queues[w := rest], s.workers[w := WHas(e)];
    PeekParts(s, w);
    PartsOwned(Do(s, Peek(w)), s.free, s.made, s.disp, queues, workers);
    SelfParts(s);
    PartsOwned(s, s.free, s.made, s.disp, s.queues, s.workers);
    ItemsHead(s.queues[w]);
    QueuedLose(s.queues, w, rest, e.item);
    HandTakes(s.workers, w, e);
    Moves(multiset(s.free), Held(s.disp), Queued(queues), Handled(s.workers), e.item);
  }

  lemma SelfParts(s: Sys)
    ensures Parts(s, s.free, s.made, s.disp, s.queues, s.workers)
  {
  }

  lemma HandTakes(ws: seq<Worker>, w: nat, e: Entry)
    requires w < |ws| && ws[w].WAwake?
    ensures Handled(ws[w := WHas(e)]) == Handled(ws) + multiset{e.item}
  {
    HandledGain(ws, w, WHas(e), e.item);
  }

  lemma ItemsHead(q: seq<Entry>)
    requires q != []
    ensures Items(q) == Items(q[1..]) + multiset{q[0].item}
  {
  }

  lemma ReleaseOwner(s: Sys, w: nat)
    requires Shape(s) && OneOwner(s) && w < |s.workers| && s.workers[w].WHas?
    ensures OneOwner(Do(s, Release(w)))
  {
    hide Queued, Handled, Upto, Sum;
    var x := s.workers[w].e.item;
    var idle := s.workers[w := WIdle];
    HandledGain(idle, w, s.workers[w], x);
    assert idle[w := s.workers[w]] == s.workers;
    FreeHead(x, s.free);
    Moves(multiset(s.free), Held(s.disp), Queued(s.queues), Handled(idle), x);
  }

  lemma DoOwner(s: Sys, t: Step)
    requires Shape(s) && OneOwner(s) && Enabled(s, t)
    ensures OneOwner(Do(s, t))
  {
    match t
    case Accept(sfd) => AcceptOwner(s, sfd);
    case Allocate => AllocateOwner(s);
    case Push => PushOwner(s);
    case Write(ok) =>
    case Wake(w) => HandledSame(s.workers, w, WAwake);
    case Peek(w) => PeekOwner(s, w);
    case Release(w) => ReleaseOwner(s, w);
  }

  lemma DoInv(s: Sys, t: Step)
    requires Inv(s) && Enabled(s, t)
    ensures Inv(Do(s, t))
  {
    DoSignalled(s, t);
    DoInOrder(s, t);
    DoOwner(s, t);
    hide Signalled, InOrder, OneOwner, Do;
  }

  // ---- runs -----------------------------------------------------------------------------------------

  predicate Valid(s: Sys, run: seq<Step>)
    requires Shape(s)
    decreases |run|
  {
    run == [] || (Enabled(s, run[0]) && Valid(Do(s, run[0]), run[1..]))
  }

  function After(s: Sys, run: seq<Step>): (u: Sys)
    requires Shape(s) && Valid(s, run)
    ensures Shape(u) && |u.workers| == |s.workers|
    decreases |run|
  {
    if run == [] then s else After(Do(s, run[0]), run[1..])
  }

  /** thread_init with n workers. */
  function Start(n: nat): Sys {
    Sys(0, [], 0, DIdle, seq(n, _ => []), seq(n, _ => 0), seq(n, _ => WIdle), seq(n, _ => 0),
        seq(n, _ => []), seq(n, _ => []))
  }

  lemma {:induction false} NothingOwned(qs: seq<seq<Entry>>, ws: seq<Worker>)
    requires forall i :: 0 <= i < |qs| ==> qs[i] == []
    requires forall i :: 0 <= i < |ws| ==> ws[i] == WIdle
    ensures Queued(qs) == multiset{} && Handled(ws) == multiset{}
    decreases |qs| + |ws|
  {
    if qs != [] {
      NothingOwned(qs[1..], ws);
    } else if ws != [] {
      NothingOwned(qs, ws[1..]);
    }
  }

  lemma StartInv(n: nat)
    requires n > 0
    ensures Inv(Start(n))
  {
    var s := Start(n);
    NothingOwned(s.queues, s.workers);
    assert Upto(0, 0) == [];
    hide Queued, Handled, Upto;
  }

  lemma {:induction false} RunInv(s: Sys, run: seq<Step>)
    requires Inv(s) && Valid(s, run)
    ensures Inv(After(s, run))
    decreases |run|
  {
    assert Shape(s);
    hide Inv, Do, Enabled;
    if run != [] {
      DoInv(s, run[0]);
      RunInv(Do(s, run[0]), run[1..]);
    }
  }

  /** However the threads interleave: a worker that has read a byte finds a connection on its queue;
      the connections it has taken are the first of those sent to it, in order and once each; and each
      item has one owner. */
  lemma EveryRun(n: nat, run: seq<Step>, w: nat)
    requires n > 0 && Valid(Start(n), run) && w < n
    ensures var s := After(Start(n), run);
            && w < |s.workers| && |s.queues| == |s.workers| == |s.taken| == |s.sent|
            && (s.workers[w].WAwake? ==> s.queues[w] != [])
            && s.taken[w] <= s.sent[w]
            && (forall x :: Owned(s)[x] == if x in Upto(0, s.made) then 1 else 0)
  {
    StartInv(n);
    RunInv(Start(n), run);
    var s := After(Start(n), run);
    hide After, Valid, Start, Queued, Handled;
    assert |s.queues[w]| == Due(s, w);
    UptoNoDup(0, s.made);
    forall x ensures Owned(s)[x] == if x in Upto(0, s.made) then 1 else 0 {
      NoDupCount(Upto(0, s.made), x);
    }
  }

  lemma {:induction false} UptoNoDup(a: nat, b: nat)
    ensures NoDup(Upto(a, b)) && forall x :: x in Upto(a, b) ==> a <= x < b
    decreases b - a
  {
    if a < b {
      UptoNoDup(a + 1, b);
      assert ([a] + Upto(a + 1, b))[1..] == Upto(a + 1, b);
    }
  }

  /** Once no byte is under way and none was lost, a worker has taken everything sent to it; a
      connection whose byte could not be written stays behind on the queue. */
  lemma QuietMeansTaken(s: Sys, w: nat)
    requires Inv(s) && w < |s.workers| && !s.workers[w].WAwake? && s.disp != DPushed(w) && s.pipes[w] == 0
    ensures s.taken[w] == s.sent[w] <==> s.lost[w] == 0
  {
    assert |s.queues[w]| == Due(s, w);
    assert s.sent[w] == s.taken[w] + Sfds(s.queues[w]);
    hide OneOwner;
    if s.taken[w] == s.sent[w] {
      assert |s.taken[w]| == |s.taken[w]| + |Sfds(s.queues[w])|;
    }
  }

  // ---- the choice of workers --------------------------------------------------------------------------

  /** The threads that k dispatches in a row go to. */
  function Tids(last: nat, n: nat, k: nat): (r: seq<nat>)
    requires n > 0
    ensures |r| == k
    decreases k
  {
    if k == 0 then [] else [NextTid(last, n)] + Tids(NextTid(last, n), n, k - 1)
  }

  lemma Multiples(n: nat, k: int)
    ensures k >= 1 ==> n * k >= n
    ensures k <= 0 ==> n * k <= 0
  {
  }

  lemma Distribute(n: int, a: int, b: int)
    ensures n * (a - b) == n * a - n * b && n * (a + b) == n * a + n * b
  {
  }

  lemma ModIs(x: nat, n: nat, q: int, r: nat)
    requires n > 0 && x == n * q + r && r < n
    ensures x % n == r
  {
    assert x == n * (x / n) + x % n;
    Distribute(n, x / n, q);
    Multiples(n, x / n - q);
    Multiples(n, q - x / n);
    Distribute(n, q, x / n);
  }

  lemma TidStep(last: nat, n: nat, j: nat)
    requires n > 0
    ensures (NextTid(last, n) + j) % n == (last + 1 + j) % n
  {
    var q, a := last / n, last % n + 1 + j;
    assert last == n * q + last % n;
    Distribute(n, q, a / n);
    ModIs(last + 1 + j, n, q + a / n, a % n);
  }

  lemma {:induction false} TidAt(last: nat, n: nat, k: nat, j: nat)
    requires n > 0 && j < k
    ensures Tids(last, n, k)[j] == (last + j) % n + 1
    decreases k
  {
    if j > 0 {
      TidAt(NextTid(last, n), n, k - 1, j - 1);
      TidStep(last, n, j - 1);
    }
  }

  /** Different places within n of each other have different remainders. */
  lemma ModDistinct(a: nat, n: nat, i: nat, j: nat)
    requires n > 0 && i < j < i + n
    ensures (a + i) % n != (a + j) % n
  {
    var x, y := a + i, a + j;
    assert x == n * (x / n) + x % n && y == n * (y / n) + y % n;
    Distribute(n, y / n, x / n);
    Multiples(n, y / n - x / n);
  }

  /** Any n thread numbers in a row, n being the number of workers, are all of them. */
  lemma EachTidOnce(last: nat, n: nat, tid: nat)
    requires n > 0 && 1 <= tid <= n
    ensures multiset(Tids(last, n, n))[tid] == 1
  {
    var r := Tids(last, n, n);
    forall i, j | 0 <= i < j < |r| ensures r[i] != r[j] {
      TidAt(last, n, n, i);
      TidAt(last, n, n, j);
      ModDistinct(last, n, i, j);
    }
    NoDupFromIndices(r);
    forall x | x in r ensures 1 <= x <= n {
      var j :| 0 <= j < |r| && r[j] == x;
      TidAt(last, n, n, j);
    }
    AllThere(r, n, tid);
    NoDupCount(r, tid);
  }

  /** n different numbers between 1 and n are all of them. */
  lemma AllThere(r: seq<nat>, n: nat, tid: nat)
    requires NoDup(r) && |r| == n && (forall x :: x in r ==> 1 <= x <= n) && 1 <= tid <= n
    ensures tid in r
  {
    if tid !in r {
      Crowded(r, n, tid);
    }
  }

  lemma {:induction false} Crowded(r: seq<nat>, n: nat, gone: nat)
    requires NoDup(r) && (forall x :: x in r ==> 1 <= x <= n && x != gone) && 1 <= gone <= n
    ensures |r| < n
    decreases n
  {
    if r != [] {
      WithoutMembers(r, n);
      var rest := Without(r, n);
      if gone == n {
        Shorter(r, n - 1);
      } else {
        Crowded(rest, n - 1, gone);
      }
    }
  }

  lemma {:induction false} Shorter(r: seq<nat>, n: nat)
    requires NoDup(r) && forall x :: x in r ==> 1 <= x <= n
    ensures |r| <= n
    decreases n
  {
    if r != [] {
      assert r[0] in r;
      WithoutMembers(r, n);
      Shorter(Without(r, n), n - 1);
    }
  }

  /** How many connections a run dispatches. */
  function Pushes(run: seq<Step>): nat {
    if run == [] then 0 else (if run[0].Push? then 1 else 0) + Pushes(run[1..])
  }

  /** The thread numbers that a run dispatches to follow one another, whatever happens in between. */
  lemma {:induction false} SentTids(s: Sys, run: seq<Step>, w: nat)
    requires Shape(s) && Valid(s, run) && w < |s.workers|
    ensures |After(s, run).sent[w]| ==
            |s.sent[w]| + multiset(Tids(s.last, |s.workers|, Pushes(run)))[w + 1]
    decreases |run|
  {
    hide Enabled, Do, Tids, NextTid, After, Valid;
    if run == [] {
      NothingSent(s);
    } else {
      FirstStep(s, run);
      SentStep(s, run[0], w);
      SentTids(Do(s, run[0]), run[1..], w);
      if run[0].Push? {
        var tid := NextTid(s.last, |s.workers|);
        TidsFirst(s.last, |s.workers|, Pushes(run[1..]));
        CountFirst(tid, Tids(tid, |s.workers|, Pushes(run[1..])), w + 1);
      }
    }
  }

  lemma NothingSent(s: Sys)
    requires Shape(s)
    ensures Valid(s, []) && After(s, []) == s && Tids(s.last, |s.workers|, 0) == []
  {
  }

  lemma FirstStep(s: Sys, run: seq<Step>)
    requires Shape(s) && Valid(s, run) && run != []
    ensures Enabled(s, run[0]) && Valid(Do(s, run[0]), run[1..])
    ensures After(s, run) == After(Do(s, run[0]), run[1..])
  {
    hide Do, Enabled;
  }

  lemma TidsFirst(last: nat, n: nat, k: nat)
    requires n > 0
    ensures Tids(last, n, k + 1) == [NextTid(last, n)] + Tids(NextTid(last, n), n, k)
  {
    hide NextTid;
  }

  lemma CountFirst(x: nat, rest: seq<nat>, y: nat)
    ensures multiset([x] + rest)[y] == (if x == y then 1 else 0) + multiset(rest)[y]
  {
  }

  lemma SentStep(s: Sys, t: Step, w: nat)
    requires Shape(s) && Enabled(s, t) && w < |s.workers|
    ensures var u, tid := Do(s, t), NextTid(s.last, |s.workers|);
            && w < |u.sent| && |u.workers| == |s.workers| && u.last == (if t.Push? then tid else s.last)
            && |u.sent[w]| == |s.sent[w]| + (if t.Push? && tid == w + 1 then 1 else 0)
  {
  }

  /** In any run in which as many connections are dispatched as there are workers, from any state and with
      anything happening in between, each worker is sent exactly one. */
  lemma RoundRobin(s: Sys, run: seq<Step>, w: nat)
    requires Shape(s) && Valid(s, run) && Pushes(run) == |s.workers| && w < |s.workers|
    ensures |After(s, run).sent[w]| == |s.sent[w]| + 1
  {
    hide After, Valid;
    SentTids(s, run, w);
    EachTidOnce(s.last, |s.workers|, w + 1);
  }
}
