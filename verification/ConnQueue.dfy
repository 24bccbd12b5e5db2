/** The linked lists of thread.c: connection queues and the free list of queue items. */
module ConnQueue {
  import opened Dispatch

  class CqItem {
    var sfd: int
    var next: CqItem?

    constructor ()
      ensures next == null
    {
      sfd := 0;
      next := null;
    }
  }

  /** What comes after entry i. */
  ghost function Follower(items: seq<CqItem>, i: nat, end: CqItem?): CqItem? {
    if i + 1 < |items| then items[i + 1] else end
  }

  /** The items are linked in this order, and the last one's next is end. */
  ghost predicate Linked(items: seq<CqItem>, end: CqItem?)
    reads items
  {
    forall i :: 0 <= i < |items| ==> items[i].next == Follower(items, i, end)
  }

  ghost predicate Distinct(items: seq<CqItem>) {
    forall i, j :: 0 <= i < j < |items| ==> items[i] != items[j]
  }

  lemma NextLinked(items: seq<CqItem>, end: CqItem?, i: nat)
    requires Linked(items, end) && i < |items|
    ensures items[i].next == Follower(items, i, end)
  {
  }

  /** A list without its first item. */
  lemma RestLinked(items: seq<CqItem>, end: CqItem?)
    requires Linked(items, end) && Distinct(items) && items != []
    ensures Linked(items[1..], end) && Distinct(items[1..]) && items[0] !in items[1..]
  {
    var rest := items[1..];
    forall i | 0 <= i < |rest| ensures rest[i].next == Follower(rest, i, end) {
      NextLinked(items, end, i + 1);
    }
  }

  /** Two lists, the first of which leads to the second. */
  lemma JoinLinked(front: seq<CqItem>, back: seq<CqItem>)
    requires Distinct(front) && Distinct(back) && forall x :: x in front ==> x !in back
    requires Linked(front, if back == [] then null else back[0]) && Linked(back, null)
    ensures Distinct(front + back) && Linked(front + back, null)
  {
    var all, end := front + back, if back == [] then null else back[0];
    forall i | 0 <= i < |all| ensures all[i].next == Follower(all, i, null) {
      if i < |front| {
        NextLinked(front, end, i);
      } else {
        NextLinked(back, null, i - |front|);
      }
    }
    forall i, j | 0 <= i < j < |all| ensures all[i] != all[j] {
      if i < |front| <= j {
        assert all[i] in front && all[j] in back;
      }
    }
  }

  lemma OneLinked(item: CqItem)
    ensures Distinct([item]) && (item.next == null ==> Linked([item], null))
  {
  }

  lemma NoneLinked(end: CqItem?)
    ensures Distinct([]) && Linked([], end)
  {
  }

  /** A list whose last item has been made to lead to another one. */
  twostate lemma Relinked(items: seq<CqItem>, new end: CqItem?)
    requires items != [] && Distinct(items) && old(Linked(items, null))
    requires forall x :: x in items && x != items[|items| - 1] ==> x.next == old(x.next)
    requires items[|items| - 1].next == end
    ensures Linked(items, end)
  {
    forall i | 0 <= i < |items| ensures items[i].next == Follower(items, i, end) {
      assert old(items[i].next) == Follower(items, i, null);
    }
  }

  twostate lemma SameLinked(items: seq<CqItem>)
    requires old(Linked(items, null)) && forall x :: x in items ==> x.next == old(x.next)
    ensures Linked(items, null)
  {
  }

  class Cq {
    var head: CqItem?
    var tail: CqItem?
    ghost var items: seq<CqItem>

    ghost predicate Valid()
      reads this, items
    {
      && Distinct(items) && Linked(items, null)
      && head == (if items == [] then null else items[0])
      && tail == (if items == [] then null else items[|items| - 1])
    }

    /** cq_init */
    constructor ()
      ensures Valid() && items == []
    {
      head, tail := null, null;
      items := [];
    }

    /** cq_push: what one thread does while it holds the lock. */
    method CqPush(item: CqItem)
      requires Valid() && item !in items
      modifies this, item`next, items
      ensures Valid() && items == old(items) + [item]
      ensures forall x :: x in items ==> x.sfd == old(x.sfd)
    {
      hide Linked, Distinct;
      ghost var was := items;
      item.next := null;
      OneLinked(item);
      if tail == null {
        NoneLinked(item);
        head := item;
      } else {
        tail.next := item;
        Relinked(was, item);
      }
      tail := item;
      items := items + [item];
      JoinLinked(was, [item]);
    }

    /** cq_peek: the first item, which leaves the queue, or NULL. */
    method CqPeek() returns (item: CqItem?)
      requires Valid()
      modifies this
      ensures Valid()
      ensures old(items) == [] ==> item == null && items == []
      ensures old(items) != [] ==> item == old(items)[0] && items == old(items)[1..]
    {
      item := head;
      if item != null {
        NextLinked(items, null, 0);
        head := item.next;
        if head == null {
          tail := null;
        }
        items := items[1..];
        RestLinked(old(items), null);
      }
    }
  }

  class CqiFreelist {
    var head: CqItem?
    ghost var items: seq<CqItem>

    ghost predicate Valid()
      reads this, items
    {
      && Distinct(items) && Linked(items, null)
      && head == (if items == [] then null else items[0])
    }

    constructor ()
      ensures Valid() && items == []
    {
      head := null;
      items := [];
    }

    /** cqi_free */
    method CqiFree(item: CqItem)
      requires Valid() && item !in items
      modifies this, item`next
      ensures Valid() && items == [item] + old(items)
    {
      ghost var was := items;
      assert forall i :: 0 <= i < |was| ==> was[i] != item;
      item.next := head;
      head := item;
      items := [item] + items;
      assert Linked(was, null);
      forall i | 0 <= i < |items| ensures items[i].next == Follower(items, i, null) {
        if i > 0 {
          NextLinked(was, null, i - 1);
        }
      }
    }

    /** The first time cqi_new holds the lock: the first free item, or NULL. */
    method TakeFree() returns (item: CqItem?)
      requires Valid()
      modifies this
      ensures Valid()
      ensures old(items) == [] ==> item == null && items == []
      ensures old(items) != [] ==> item == old(items)[0] && items == old(items)[1..] && item !in items
    {
      item := head;
      if item != null {
        NextLinked(items, null, 0);
        head := item.next;
        items := items[1..];
        RestLinked(old(items), null);
      }
    }

    /** The second time: all items of the new block but the first go in front of the free list, whatever
        other threads have put there since. */
    method AddBlock(first: CqItem, last: CqItem, ghost block: seq<CqItem>)
      requires Valid() && Distinct(block) && Linked(block, null) && forall x :: x in block ==> x !in items
      requires |block| > 1 && block[0] == first && block[|block| - 1] == last
      modifies this, last`next
      ensures Valid() && items == block[1..] + old(items)
    {
      hide Linked, Distinct;
      ghost var was, free := items, head;
      NextLinked(block, null, 0);
      assert last in block;
      last.next := head;
      Relinked(block, free);
      SameLinked(was);
      head := first.next;
      items := block[1..] + was;
      RestLinked(block, free);
      JoinLinked(block[1..], was);
    }

    /** cqi_new, when no other thread changes the free list between the two. */
    method CqiNew() returns (item: CqItem)
      requires Valid()
      modifies this
      ensures Valid() && item !in items
      ensures old(items) != [] ==> item == old(items)[0] && items == old(items)[1..]
      ensures old(items) == [] ==> fresh(item) && |items| == ITEMS_PER_ALLOC - 1
      ensures old(items) == [] ==> forall x :: x in items ==> fresh(x)
    {
      var free := TakeFree();
      if free != null {
        item := free;
      } else {
        var last;
        ghost var block: seq<CqItem>;
        item, last, block := NewBlock();
        assert item in block && last in block && forall x :: x in block[1..] ==> x in block;
        assert block[1..] + [] == block[1..];
        AddBlock(item, last, block);
      }
    }

    /** The items of one malloc, linked together one after another. */
    static method NewBlock() returns (first: CqItem, last: CqItem, ghost block: seq<CqItem>)
      ensures |block| == ITEMS_PER_ALLOC && block[0] == first && block[|block| - 1] == last
      ensures Distinct(block) && Linked(block, null)
      ensures forall x :: x in block ==> fresh(x)
    {
      hide Linked, Distinct;
      first := new CqItem();
      block := [first];
      OneLinked(first);
      last := first;
      var i := 1;
      while i < ITEMS_PER_ALLOC
        invariant 1 <= i <= ITEMS_PER_ALLOC && |block| == i && block[0] == first && block[i - 1] == last
        invariant Distinct(block) && Linked(block, null) && forall x :: x in block ==> fresh(x)
      {
        assert last in block;
        var item := new CqItem();
        OneLinked(item);
        label Before:
        last.next := item;
        Relinked@Before(block, item);
        JoinLinked(block, [item]);
        last := item;
        block := block + [item];
        i := i + 1;
      }
    }
  }
}
