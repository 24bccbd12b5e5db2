/** Small facts about sequences that the list-shaped state of the other modules needs. */
module Seqs {

  datatype Option<+T> = None | Some(value: T)

  predicate NoDup<T(==)>(s: seq<T>) {
    s == [] || (s[0] !in s[1..] && NoDup(s[1..]))
  }

  /** Take the first occurrence of x out of s. */
  function Without<T(==)>(s: seq<T>, x: T): seq<T> {
    if s == [] then []
    else if s[0] == x then s[1..]
    else [s[0]] + Without(s[1..], x)
  }

  lemma {:induction false} WithoutMembers<T>(s: seq<T>, x: T)
    requires NoDup(s)
    ensures NoDup(Without(s, x))
    ensures forall y :: y in Without(s, x) <==> y in s && y != x
    ensures |Without(s, x)| == |s| - (if x in s then 1 else 0)
  {
    if s != [] && s[0] != x {
      WithoutMembers(s[1..], x);
    }
  }

  lemma {:induction false} WithoutAbsent<T>(s: seq<T>, x: T)
    requires x !in s
    ensures Without(s, x) == s
  {
    if s != [] {
      WithoutAbsent(s[1..], x);
    }
  }

  lemma {:induction false} NoDupIndices<T>(s: seq<T>, i: nat, j: nat)
    requires NoDup(s) && i < j < |s|
    ensures s[i] != s[j]
  {
    if i == 0 {
      assert s[j] == s[1..][j - 1];
    } else {
      NoDupIndices(s[1..], i - 1, j - 1);
    }
  }

  /** The occurrence that is taken out, and everything else in order. */
  lemma {:induction false} WithoutAt<T>(s: seq<T>, x: T, j: nat)
    requires NoDup(s) && j < |s| && s[j] == x
    ensures Without(s, x) == s[..j] + s[j + 1..]
  {
    if j > 0 {
      NoDupIndices(s, 0, j);
      WithoutAt(s[1..], x, j - 1);
      assert s[..j] == [s[0]] + s[1..][..j - 1];
      assert s[j + 1..] == s[1..][j..];
    }
  }

  lemma {:induction false} NoDupFromIndices<T>(s: seq<T>)
    requires forall i, j :: 0 <= i < j < |s| ==> s[i] != s[j]
    ensures NoDup(s)
  {
    if s != [] {
      NoDupFromIndices(s[1..]);
    }
  }

  lemma {:induction false} NoDupAppend<T>(s: seq<T>, t: seq<T>)
    requires NoDup(s) && NoDup(t) && forall x :: x in s ==> x !in t
    ensures NoDup(s + t)
  {
    if s == [] {
      assert s + t == t;
    } else {
      NoDupAppend(s[1..], t);
      assert (s + t)[1..] == s[1..] + t;
    }
  }

  lemma {:induction false} NoDupCount<T>(s: seq<T>, x: T)
    requires NoDup(s)
    ensures multiset(s)[x] == if x in s then 1 else 0
  {
    if s != [] {
      NoDupCount(s[1..], x);
      assert s == [s[0]] + s[1..];
    }
  }

  lemma {:induction false} NoDupSize(s: seq<int>, bound: nat)
    requires NoDup(s) && forall x :: x in s ==> 0 <= x < bound
    ensures |s| <= bound
    decreases bound
  {
    if s != [] {
      var x := s[0];
      assert x in s;
      WithoutMembers(s, bound - 1);
      NoDupSize(Without(s, bound - 1), bound - 1);
    }
  }

  /** Taking out entry i of a list. */
  function Omit<T>(q: seq<T>, i: nat): seq<T>
    requires i < |q|
  {
    q[..i] + q[i + 1..]
  }

  lemma OmitIn<T>(q: seq<T>, i: nat, x: T)
    requires i < |q|
    ensures x in Omit(q, i) ==> x in q
    ensures x in q && x != q[i] ==> x in Omit(q, i)
  {
    assert q == q[..i] + ([q[i]] + q[i + 1..]);
  }

  lemma OmitCounts<T>(q: seq<T>, i: nat)
    requires i < |q|
    ensures multiset(Omit(q, i)) == multiset(q) - multiset{q[i]}
  {
    assert q == q[..i] + [q[i]] + q[i + 1..];
  }
}
