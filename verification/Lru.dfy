/** The doubly linked LRU lists of items.c: item_link_q and item_unlink_q over the next and
    prev fields of items, with heads and tails per slab class.  `lists` is what they stand for. */
module Lru {
  import opened Seqs

  type Addr = int

  const NULL: Addr := 0
  const LARGEST_ID: nat := 255

  /** The link fields of an item. */
  datatype Links = Links(prev: Addr, next: Addr)

  // ---- one list ---------------------------------------------------------------------------

  /** The fields spell out the list, forwards and backwards, and end in NULL both ways. */
  ghost predicate Spells(m: map<Addr, Links>, list: seq<Addr>, head: Addr, tail: Addr) {
    && (forall x :: x in list ==> x in m && x != NULL)
    && head == (if list == [] then NULL else list[0])
    && tail == (if list == [] then NULL else list[|list| - 1])
    && forall i {:trigger list[i]} :: 0 <= i < |list| ==>
         && m[list[i]].prev == (if i == 0 then NULL else list[i - 1])
         && m[list[i]].next == (if i == |list| - 1 then NULL else list[i + 1])
  }

  lemma {:induction false} WithoutAt(list: seq<Addr>, k: nat)
    requires NoDup(list) && k < |list|
    ensures Without(list, list[k]) == list[..k] + list[k + 1..]
  {
    if k > 0 {
      NoDupIndices(list, 0, k);
      WithoutAt(list[1..], k - 1);
    }
  }

  /** item_link_q on the fields of one list. */
  function Linked(m: map<Addr, Links>, it: Addr, head: Addr): map<Addr, Links> {
    var n := m[it := Links(NULL, head)];
    if head != NULL && head in n then n[head := n[head].(prev := it)] else n
  }

  lemma LinkedSpells(m: map<Addr, Links>, list: seq<Addr>, head: Addr, tail: Addr, it: Addr)
    requires Spells(m, list, head, tail) && NoDup(list) && it !in list && it != NULL
    ensures Spells(Linked(m, it, head), [it] + list, it, if tail == NULL then it else tail)
  {
    var n, l := Linked(m, it, head), [it] + list;
    forall i | 0 <= i < |l|
      ensures l[i] in n
      ensures n[l[i]].prev == (if i == 0 then NULL else l[i - 1])
      ensures n[l[i]].next == (if i == |l| - 1 then NULL else l[i + 1])
    {
      if i > 0 {
        assert l[i] == list[i - 1] && list[i - 1] in list;
      }
      if i > 1 {
        NoDupIndices(list, 0, i - 1);
      }
    }
    hide NoDup, Linked;
    forall x | x in l
      ensures x in n && x != NULL
    {
      assert x == it || x in list;
      var i :| 0 <= i < |l| && l[i] == x;
    }
  }

  /** item_unlink_q on the fields of one list. */
  function Unlinked(m: map<Addr, Links>, it: Addr): map<Addr, Links>
    requires it in m
  {
    var it_ := m[it];
    var n := if it_.next in m && it_.next != NULL then m[it_.next := m[it_.next].(prev := it_.prev)] else m;
    if it_.prev in n && it_.prev != NULL then n[it_.prev := n[it_.prev].(next := it_.next)] else n
  }

  /** Where entry i of the shortened list stood. */
  function Shift(i: nat, k: nat): nat {
    if i < k then i else i + 1
  }

  /** What the two writes of item_unlink_q do to an item x of the list. */
  lemma UnlinkedAt(m: map<Addr, Links>, it: Addr, x: Addr)
    requires it in m && x in m && x != it && x != NULL
    requires m[it].next == NULL || m[it].next in m
    requires m[it].prev == NULL || m[it].prev in m
    ensures var n := Unlinked(m, it);
      && x in n
      && n[x].prev == (if x == m[it].next then m[it].prev else m[x].prev)
      && n[x].next == (if x == m[it].prev then m[it].next else m[x].next)
  {
  }

  lemma ShiftAt(list: seq<Addr>, k: nat, i: int)
    requires k < |list|
    ensures |list[..k] + list[k + 1..]| == |list| - 1
    ensures 0 <= i < |list| - 1 ==> (list[..k] + list[k + 1..])[i] == list[Shift(i, k)]
  {
  }

  lemma UnlinkedFields(m: map<Addr, Links>, list: seq<Addr>, head: Addr, tail: Addr, k: nat, i: nat)
    requires Spells(m, list, head, tail) && NoDup(list) && k < |list| && i < |list| - 1
    ensures var n, l := Unlinked(m, list[k]), list[..k] + list[k + 1..];
      && l[i] in n
      && n[l[i]].prev == (if i == 0 then NULL else l[i - 1])
      && n[l[i]].next == (if i == |l| - 1 then NULL else l[i + 1])
  {
    hide NoDup, Unlinked, Spells;
    ShiftAt(list, k, i);
    ShiftAt(list, k, i - 1);
    ShiftAt(list, k, i + 1);
    UnlinkedShift(m, list, head, tail, k, i);
  }

  lemma UnlinkedShift(m: map<Addr, Links>, list: seq<Addr>, head: Addr, tail: Addr, k: nat, i: nat)
    requires Spells(m, list, head, tail) && NoDup(list) && k < |list| && i < |list| - 1
    ensures var n, x := Unlinked(m, list[k]), list[Shift(i, k)];
      && x in n
      && n[x].prev == (if i == 0 then NULL else list[Shift(i - 1, k)])
      && n[x].next == (if i == |list| - 2 then NULL else list[Shift(i + 1, k)])
  {
    hide NoDup, Unlinked, Spells;
    var j := Shift(i, k);
    Apart(list, j, k);
    Apart(list, j, k - 1);
    Apart(list, j, k + 1);
    SpelledAt(m, list, head, tail, k);
    SpelledAt(m, list, head, tail, j);
    UnlinkedAt(m, list[k], list[j]);
  }

  lemma SpelledAt(m: map<Addr, Links>, list: seq<Addr>, head: Addr, tail: Addr, i: nat)
    requires Spells(m, list, head, tail) && i < |list|
    ensures list[i] in m && list[i] != NULL
    ensures m[list[i]].prev == (if i == 0 then NULL else list[i - 1])
    ensures m[list[i]].next == (if i == |list| - 1 then NULL else list[i + 1])
    ensures i > 0 ==> list[i - 1] in m
    ensures i + 1 < |list| ==> list[i + 1] in m
  {
    assert list[i] in list;
    if i > 0 {
      assert list[i - 1] in list;
    }
    if i + 1 < |list| {
      assert list[i + 1] in list;
    }
  }

  lemma Apart(list: seq<Addr>, i: int, j: int)
    requires NoDup(list)
    ensures 0 <= i < |list| && 0 <= j < |list| && i != j ==> list[i] != list[j]
  {
    if 0 <= i < |list| && 0 <= j < |list| && i < j {
      NoDupIndices(list, i, j);
    } else if 0 <= i < |list| && 0 <= j < i {
      NoDupIndices(list, j, i);
    }
  }

  lemma UnlinkedEnds(m: map<Addr, Links>, list: seq<Addr>, head: Addr, tail: Addr, k: nat)
    requires Spells(m, list, head, tail) && NoDup(list) && k < |list|
    ensures var it, l := list[k], list[..k] + list[k + 1..];
      && it in m
      && (if head == it then m[it].next else head) == (if l == [] then NULL else l[0])
      && (if tail == it then m[it].prev else tail) == (if l == [] then NULL else l[|l| - 1])
  {
    hide NoDup, Spells;
    SpelledAt(m, list, head, tail, k);
    Apart(list, 0, k);
    Apart(list, k, |list| - 1);
    SpelledEnds(m, list, head, tail);
    ShiftAt(list, k, 0);
    ShiftAt(list, k, |list| - 2);
    var l := list[..k] + list[k + 1..];
    assert |l| > 0 ==> l[0] == list[Shift(0, k)] && l[|l| - 1] == list[Shift(|list| - 2, k)];
  }

  lemma SpelledEnds(m: map<Addr, Links>, list: seq<Addr>, head: Addr, tail: Addr)
    requires Spells(m, list, head, tail) && list != []
    ensures head == list[0] && tail == list[|list| - 1]
  {
  }

  lemma UnlinkedSpells(m: map<Addr, Links>, list: seq<Addr>, head: Addr, tail: Addr, k: nat)
    requires Spells(m, list, head, tail) && NoDup(list) && k < |list|
    ensures var it := list[k];
      it in m && Spells(Unlinked(m, it), list[..k] + list[k + 1..],
                        if head == it then m[it].next else head, if tail == it then m[it].prev else tail)
  {
    hide NoDup, Unlinked, Spells;
    UnlinkedEnds(m, list, head, tail, k);
    var n, l := Unlinked(m, list[k]), list[..k] + list[k + 1..];
    forall i | 0 <= i < |l|
      ensures l[i] in n && l[i] != NULL
      ensures n[l[i]].prev == (if i == 0 then NULL else l[i - 1])
      ensures n[l[i]].next == (if i == |l| - 1 then NULL else l[i + 1])
    {
      UnlinkedFields(m, list, head, tail, k, i);
      ShiftAt(list, k, i);
      SpelledAt(m, list, head, tail, Shift(i, k));
    }
    SpellsFrom(n, l, if head == list[k] then m[list[k]].next else head,
               if tail == list[k] then m[list[k]].prev else tail);
  }

  lemma SpellsFrom(m: map<Addr, Links>, list: seq<Addr>, head: Addr, tail: Addr)
    requires forall i {:trigger list[i]} :: 0 <= i < |list| ==>
      && list[i] in m && list[i] != NULL
      && m[list[i]].prev == (if i == 0 then NULL else list[i - 1])
      && m[list[i]].next == (if i == |list| - 1 then NULL else list[i + 1])
    requires head == (if list == [] then NULL else list[0])
    requires tail == (if list == [] then NULL else list[|list| - 1])
    ensures Spells(m, list, head, tail)
  {
  }

  /** Writes outside a list leave it spelled. */
  lemma SpellsFrame(m: map<Addr, Links>, n: map<Addr, Links>, list: seq<Addr>, head: Addr, tail: Addr)
    requires Spells(m, list, head, tail) && forall x :: x in list ==> x in n && x in m && n[x] == m[x]
    ensures Spells(n, list, head, tail)
  {
  }

  // ---- all the lists ----------------------------------------------------------------------

  /** Every list is spelled by the fields, its head, its tail and its size; no item is on two. */
  ghost predicate Coherent(m: map<Addr, Links>, lists: seq<seq<Addr>>, heads: seq<Addr>, tails: seq<Addr>,
                           sizes: seq<int>)
  {
    && |heads| == |tails| == |sizes| == |lists| == LARGEST_ID
    && (forall c :: 0 <= c < LARGEST_ID ==>
          NoDup(lists[c]) && sizes[c] == |lists[c]| && Spells(m, lists[c], heads[c], tails[c]))
    && forall c, d, x :: 0 <= c < LARGEST_ID && 0 <= d < LARGEST_ID && x in lists[c] && x in lists[d] ==> c == d
  }

  lemma CoherentAt(m: map<Addr, Links>, lists: seq<seq<Addr>>, heads: seq<Addr>, tails: seq<Addr>,
                   sizes: seq<int>, c: nat)
    requires Coherent(m, lists, heads, tails, sizes) && c < LARGEST_ID
    ensures |heads| == |tails| == |sizes| == |lists| == LARGEST_ID
    ensures NoDup(lists[c]) && Spells(m, lists[c], heads[c], tails[c])
  {
    hide Spells, NoDup;
  }

  lemma LinkCoherent(m: map<Addr, Links>, lists: seq<seq<Addr>>, heads: seq<Addr>, tails: seq<Addr>, sizes: seq<int>,
                     it: Addr, c: nat)
    requires Coherent(m, lists, heads, tails, sizes)
    requires c < LARGEST_ID && it != NULL && forall d :: 0 <= d < LARGEST_ID ==> it !in lists[d]
    ensures Coherent(Linked(m, it, heads[c]), lists[c := [it] + lists[c]], heads[c := it],
                     if tails[c] == NULL then tails[c := it] else tails, sizes[c := sizes[c] + 1])
  {
    hide Spells, Linked, NoDup;
    CoherentAt(m, lists, heads, tails, sizes, c);
    HeadListed(m, lists, heads, tails, sizes, c);
    var n, list, tail := Linked(m, it, heads[c]), [it] + lists[c], if tails[c] == NULL then it else tails[c];
    LinkedSpells(m, lists[c], heads[c], tails[c], it);
    NoDupFirst(it, lists[c]);
    forall d | 0 <= d < LARGEST_ID && d != c
      ensures Spells(n, lists[d], heads[d], tails[d])
    {
      CoherentAt(m, lists, heads, tails, sizes, d);
      LinkedFrame(m, it, heads[c], lists[d], heads[d], tails[d]);
    }
    Recohere(m, n, lists, heads, tails, sizes, c, list, it, tail);
    assert tails[c := tail] == if tails[c] == NULL then tails[c := it] else tails;
  }

  lemma NoDupFirst(x: Addr, list: seq<Addr>)
    requires NoDup(list) && x !in list
    ensures NoDup([x] + list)
  {
    assert ([x] + list)[1..] == list;
  }

  lemma LinkedFrame(m: map<Addr, Links>, it: Addr, head: Addr, list: seq<Addr>, h: Addr, t: Addr)
    requires Spells(m, list, h, t) && it !in list && (head != NULL ==> head !in list)
    ensures Spells(Linked(m, it, head), list, h, t)
  {
    var n := Linked(m, it, head);
    assert forall x :: x in list ==> x in m && x != NULL;
    SpellsFrame(m, n, list, h, t);
  }

  /** One list is replaced by one of its own items and items of no list. */
  lemma Recohere(m: map<Addr, Links>, n: map<Addr, Links>, lists: seq<seq<Addr>>, heads: seq<Addr>, tails: seq<Addr>,
                 sizes: seq<int>, c: nat, list: seq<Addr>, h: Addr, t: Addr)
    requires Coherent(m, lists, heads, tails, sizes) && c < LARGEST_ID
    requires NoDup(list) && Spells(n, list, h, t)
    requires forall x, d :: x in list && 0 <= d < LARGEST_ID && d != c ==> x !in lists[d]
    requires forall d :: 0 <= d < LARGEST_ID && d != c ==> Spells(n, lists[d], heads[d], tails[d])
    ensures Coherent(n, lists[c := list], heads[c := h], tails[c := t], sizes[c := |list|])
  {
    hide Spells, NoDup;
  }

  lemma UnlinkCoherent(m: map<Addr, Links>, lists: seq<seq<Addr>>, heads: seq<Addr>, tails: seq<Addr>, sizes: seq<int>,
                       it: Addr, c: nat, k: nat)
    requires Coherent(m, lists, heads, tails, sizes)
    requires c < LARGEST_ID && k < |lists[c]| && lists[c][k] == it
    ensures it in m
    ensures Coherent(Unlinked(m, it), lists[c := Without(lists[c], it)],
                     heads[c := if heads[c] == it then m[it].next else heads[c]],
                     tails[c := if tails[c] == it then m[it].prev else tails[c]], sizes[c := sizes[c] - 1])
  {
    hide Spells, Unlinked, Without, NoDup;
    assert it in lists[c];
    NeighboursListed(m, lists[c], heads[c], tails[c], k);
    WithoutAt(lists[c], k);
    WithoutMembers(lists[c], it);
    UnlinkedSpells(m, lists[c], heads[c], tails[c], k);
    forall d | 0 <= d < LARGEST_ID && d != c
      ensures Spells(Unlinked(m, it), lists[d], heads[d], tails[d])
    {
      UnlinkedFrame(m, it, lists[d], heads[d], tails[d]);
    }
    forall x, d | x in Without(lists[c], it) && 0 <= d < LARGEST_ID && d != c ensures x !in lists[d] {
      assert x in lists[c];
    }
    Recohere(m, Unlinked(m, it), lists, heads, tails, sizes, c, Without(lists[c], it),
             if heads[c] == it then m[it].next else heads[c], if tails[c] == it then m[it].prev else tails[c]);
  }

  lemma UnlinkedFrame(m: map<Addr, Links>, it: Addr, list: seq<Addr>, h: Addr, t: Addr)
    requires it in m && Spells(m, list, h, t)
    requires (m[it].next != NULL ==> m[it].next !in list) && (m[it].prev != NULL ==> m[it].prev !in list)
    ensures Spells(Unlinked(m, it), list, h, t)
  {
    SpellsFrame(m, Unlinked(m, it), list, h, t);
  }

  lemma NeighboursListed(m: map<Addr, Links>, list: seq<Addr>, head: Addr, tail: Addr, k: nat)
    requires Spells(m, list, head, tail) && NoDup(list) && k < |list|
    ensures var it := list[k];
      && it in m
      && (m[it].next != NULL ==> m[it].next in list && m[it].next in m && m[it].next != it)
      && (m[it].prev != NULL ==> m[it].prev in list && m[it].prev in m && m[it].prev != it)
      && (m[it].next != NULL && m[it].prev != NULL ==> m[it].next != m[it].prev)
  {
    assert list[k] in list;
    Apart(list, k, k + 1);
    Apart(list, k, k - 1);
    Apart(list, k - 1, k + 1);
    hide NoDup;
  }

  class Queues {
    var links: map<Addr, Links>
    var heads: array<Addr>
    var tails: array<Addr>
    var sizes: array<int>
    ghost var lists: seq<seq<Addr>>

    ghost predicate Valid()
      reads this, heads, tails, sizes
    {
      heads != tails && heads != sizes && tails != sizes && Coherent(links, lists, heads[..], tails[..], sizes[..])
    }

    /** item_init */
    constructor ()
      ensures Valid() && fresh(heads) && fresh(tails) && fresh(sizes)
      ensures forall c :: 0 <= c < LARGEST_ID ==> lists[c] == []
    {
      links := map[];
      heads := new Addr[LARGEST_ID](_ => NULL);
      tails := new Addr[LARGEST_ID](_ => NULL);
      sizes := new int[LARGEST_ID](_ => 0);
      lists := seq(LARGEST_ID, _ => []);
    }

    /** item_link_q: the item, on no list so far, becomes the head of class c. */
    method ItemLinkQ(it: Addr, c: nat)
      requires Valid() && c < LARGEST_ID && it != NULL && forall d :: 0 <= d < LARGEST_ID ==> it !in lists[d]
      modifies this`links, this`lists, heads, tails, sizes
      ensures Valid() && lists == old(lists)[c := [it] + old(lists)[c]]
    {
      hide Coherent, Linked;
      LinkCoherent(links, lists, heads[..], tails[..], sizes[..], it, c);
      HeadListed(links, lists, heads[..], tails[..], sizes[..], c);
      ghost var more := lists[c := [it] + lists[c]];
      Attach(it, heads[c]);
      GrowEnds(it, c);
      lists := more;
    }

    /** The item comes to point at the head, and the head back at it. */
    method Attach(it: Addr, head: Addr)
      requires head != NULL ==> head in links
      modifies this`links
      ensures links == Linked(old(links), it, head)
    {
      links := links[it := Links(NULL, head)];
      if links[it].next != NULL {
        links := links[links[it].next := links[links[it].next].(prev := it)];
      }
    }

    /** The ends of a list that gets a new head, and its size. */
    method GrowEnds(it: Addr, c: nat)
      requires c < heads.Length == tails.Length == sizes.Length
      requires heads != tails && heads != sizes && tails != sizes
      modifies heads, tails, sizes
      ensures heads[..] == old(heads[..])[c := it]
      ensures tails[..] == if old(tails[c]) == NULL then old(tails[..])[c := it] else old(tails[..])
      ensures sizes[..] == old(sizes[..])[c := old(sizes[c]) + 1]
    {
      heads[c] := it;
      if tails[c] == NULL {
        tails[c] := it;
      }
      sizes[c] := sizes[c] + 1;
    }

    /** item_unlink_q: entry k of class c goes. */
    method ItemUnlinkQ(it: Addr, c: nat, ghost k: nat)
      requires Valid() && c < LARGEST_ID && k < |lists[c]| && lists[c][k] == it
      modifies this`links, this`lists, heads, tails, sizes
      ensures Valid() && lists == old(lists)[c := Without(old(lists)[c], it)]
    {
      hide Coherent, Spells, NoDup, Unlinked, Without;
      CoherentAt(links, lists, heads[..], tails[..], sizes[..], c);
      UnlinkCoherent(links, lists, heads[..], tails[..], sizes[..], it, c, k);
      NeighboursListed(links, lists[c], heads[c], tails[c], k);
      ghost var rest := lists[c := Without(lists[c], it)];
      ShrinkEnds(it, c);
      Bridge(it);
      lists := rest;
    }

    /** The ends of a list whose item goes, and its size. */
    method ShrinkEnds(it: Addr, c: nat)
      requires c < heads.Length == tails.Length == sizes.Length && it in links
      requires heads != tails && heads != sizes && tails != sizes
      modifies heads, tails, sizes
      ensures heads[..] == old(heads[..])[c := if old(heads[c]) == it then links[it].next else old(heads[c])]
      ensures tails[..] == old(tails[..])[c := if old(tails[c]) == it then links[it].prev else old(tails[c])]
      ensures sizes[..] == old(sizes[..])[c := old(sizes[c]) - 1]
    {
      if heads[c] == it {
        heads[c] := links[it].next;
      }
      if tails[c] == it {
        tails[c] := links[it].prev;
      }
      sizes[c] := sizes[c] - 1;
    }

    /** The neighbours of an item come to point at each other. */
    method Bridge(it: Addr)
      requires it in links
      requires links[it].next != NULL ==> links[it].next in links && links[it].next != it
      requires links[it].prev != NULL ==> links[it].prev in links && links[it].prev != it
      modifies this`links
      ensures links == Unlinked(old(links), it)
    {
      if links[it].next != NULL {
        links := links[links[it].next := links[links[it].next].(prev := links[it].prev)];
      }
      if links[it].prev != NULL {
        links := links[links[it].prev := links[links[it].prev].(next := links[it].next)];
      }
    }
  }

  lemma HeadListed(m: map<Addr, Links>, lists: seq<seq<Addr>>, heads: seq<Addr>, tails: seq<Addr>,
                   sizes: seq<int>, c: nat)
    requires Coherent(m, lists, heads, tails, sizes) && c < LARGEST_ID
    ensures |heads| == |tails| == |sizes| == |lists| == LARGEST_ID
    ensures heads[c] != NULL ==> heads[c] in m && heads[c] in lists[c]
  {
    assert lists[c] == [] || lists[c][0] in lists[c];
  }
}
