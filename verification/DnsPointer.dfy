/** What a compression pointer means (section 4.1.4 of RFC 1035), whatever name stands behind it. */
module DnsPointer {
  import opened Seqs
  import opened DnsName

  /** The same outcome, but that a name that is found ends at e. */
  function EndingAt(r: Parsed, e: nat): Parsed {
    if r.Done? then Done(r.name, e) else r
  }

  /** The index after the first pointer only shows in the result. */
  lemma {:induction false} EndOnly(p: seq<byte>, size: nat, at: Place, e: nat)
    requires at.end.None?
    ensures NameParse(p, size, at.(end := Some(e))) == EndingAt(NameParse(p, size, at), e)
    decreases if |at.out| < size then size - |at.out| else 0
  {
    hide TakeLabel, NameParse;
    var at' := at.(end := Some(e));
    if Chase(p, at.j, |p|).None? {
      NameLoops(p, size, at);
      NameLoops(p, size, at');
    } else {
      var j := Chase(p, at.j, |p|).value;
      ParsesRound(p, size, at);
      ParsesRound(p, size, at');
      ChaseStops(p, at.j, |p|);
      if Hop(p, at.j).None? {
        assert Chased(p, at, j) == at && Chased(p, at', j) == at';
        EndRound(p, size, at, e);
        var r := Round(p, size, at);
        if r.Go? && |r.at.out| > |at.out| && |at.out| < size {
          EndOnly(p, size, r.at, e);
        }
      } else {
        var c, c' := Chased(p, at, j), Chased(p, at', j);
        assert c == Place(j, Some(at.j + 2), at.out) && c' == Place(j, Some(e), at.out);
        EndRound(p, size, Place(j, None, at.out), at.j + 2);
        EndRound(p, size, Place(j, None, at.out), e);
        var r := Round(p, size, Place(j, None, at.out));
        if r.Go? && |r.at.out| > |at.out| && |at.out| < size {
          EndOnly(p, size, r.at, at.j + 2);
          EndOnly(p, size, r.at, e);
        }
      }
    }
  }

  lemma NameLoops(p: seq<byte>, size: nat, at: Place)
    requires Chase(p, at.j, |p|).None?
    ensures NameParse(p, size, at) == Loops
  {
    hide Chase;
  }

  lemma ParsesRound(p: seq<byte>, size: nat, at: Place)
    requires Chase(p, at.j, |p|).Some?
    ensures var r := Round(p, size, Chased(p, at, Chase(p, at.j, |p|).value));
            NameParse(p, size, at) ==
              if r.Stop? then r.res
              else if |r.at.out| > |at.out| && |at.out| < size then NameParse(p, size, r.at) else Failed
  {
    hide Chase, Round, Chased;
  }

  lemma {:induction false} ChaseStops(p: seq<byte>, j: nat, k: nat)
    requires Chase(p, j, k).Some?
    ensures Hop(p, Chase(p, j, k).value).None? && (Hop(p, j).None? ==> Chase(p, j, k).value == j)
    decreases k
  {
    hide Hop;
    if Hop(p, j).Some? {
      ChaseStops(p, Hop(p, j).value, k - 1);
    }
  }

  /** A round where no pointer can be followed. */
  lemma EndRound(p: seq<byte>, size: nat, at: Place, e: nat)
    requires at.end.None? && Hop(p, at.j).None?
    ensures var r, s := Round(p, size, at), Round(p, size, Place(at.j, Some(e), at.out));
            if r.Stop? then s == Stop(EndingAt(r.res, e))
            else r.at.end.None? && s == Go(Place(r.at.j, Some(e), r.at.out))
  {
  }

  lemma {:induction false} ChaseMore(p: seq<byte>, j: nat, k: nat, l: nat)
    requires Chase(p, j, k).Some? && k <= l
    ensures Chase(p, j, l) == Chase(p, j, k)
    decreases k
  {
    hide Hop;
    if Hop(p, j).Some? {
      ChaseMore(p, Hop(p, j).value, k - 1, l - 1);
    }
  }

  lemma ChaseHop(p: seq<byte>, j: nat)
    requires Hop(p, j).Some?
    ensures Chase(p, j, |p|) == Chase(p, Hop(p, j).value, |p|)
  {
    hide Chase, Hop, EndsAfter;
    var t := Hop(p, j).value;
    ChaseStep(p, j, |p| - 1);
    if Chase(p, j, |p|).Some? {
      ChaseMore(p, t, |p| - 1, |p|);
    }
    if Chase(p, t, |p|).Some? {
      var l := ChaseCount(p, t, |p|);
      EndsStep(p, j, l);
      TrailShort(p, j, l + 1);
      CountChase(p, j, |p|, l + 1);
    }
  }

  lemma ChaseStep(p: seq<byte>, j: nat, k: nat)
    requires Hop(p, j).Some?
    ensures Chase(p, j, k + 1) == Chase(p, Hop(p, j).value, k)
  {
    hide Hop;
  }

  lemma EndsStep(p: seq<byte>, j: nat, l: nat)
    requires Hop(p, j).Some? && EndsAfter(p, Hop(p, j).value, l)
    ensures EndsAfter(p, j, l + 1)
  {
    hide Hop;
  }

  /** A byte of 192 to 255 and the next one name an index t of the packet in fourteen bits, high bits first; the
      name there is the name behind t, with the same failures, and ends after the two bytes. */
  lemma PointerFollowed(p: seq<byte>, size: nat, j: nat, out: seq<byte>, t: nat)
    requires j + 1 < |p| && p[j] >= 192 && t == (p[j] as int - 192) * 256 + p[j + 1] as int && t < |p|
    ensures NameParse(p, size, Place(j, None, out)) == EndingAt(NameParse(p, size, Place(t, None, out)), j + 2)
  {
    assert Hop(p, j) == Some(t);
    ChaseHop(p, j);
    var a, b := Place(j, None, out), Place(t, None, out);
    EndOnly(p, size, b, j + 2);
    if Chase(p, t, |p|).Some? {
      var i := Chase(p, t, |p|).value;
      assert Chased(p, a, i) == Place(i, Some(j + 2), out);
      ChaseStops(p, t, |p|);
      assert Chased(p, b.(end := Some(j + 2)), i) == Place(i, Some(j + 2), out);
      hide NameParse, Chased, Round, Hop;
      ParsesRound(p, size, a);
      ParsesRound(p, size, b.(end := Some(j + 2)));
    } else {
      NameLoops(p, size, a);
      NameLoops(p, size, b);
    }
  }

  /** A pointer out of the packet, or one that the packet's end cuts, is refused. */
  lemma PointerRefused(p: seq<byte>, size: nat, j: nat, out: seq<byte>)
    requires j < |p| && p[j] >= 192
    requires j + 1 >= |p| || (p[j] as int - 192) * 256 + p[j + 1] as int >= |p|
    ensures NameParse(p, size, Place(j, None, out)) == Failed
  {
    assert Hop(p, j).None?;
    ChaseHere(p, j, |p|);
    ParsesRound(p, size, Place(j, None, out));
  }

  lemma ChaseHere(p: seq<byte>, j: nat, k: nat)
    requires Hop(p, j).None?
    ensures Chase(p, j, k) == Some(j)
  {
  }

  /** A byte of 1 to 63 starts a label of that many bytes: the name goes on after it with a dot between, if there
      is room, and a zero byte ends it. */
  lemma LabelFollowed(p: seq<byte>, size: nat, j: nat, out: seq<byte>)
    requires j < |p| && p[j] < 64
    ensures var longer := out + (if out == [] then [] else [46]) +
                          (if j + 1 + p[j] <= |p| then p[j + 1..j + 1 + p[j]] else []);
            NameParse(p, size, Place(j, None, out)) ==
              if p[j] == 0 then if |out| < size then Done(out, j + 1) else Failed
              else if |out| + (if out == [] then 0 else 1) + p[j] >= size then Failed
              else if j + 1 + p[j] > |p| then ReadsPast
              else NameParse(p, size, Place(j + 1 + p[j], None, longer))
  {
    hide NameParse, Chase, Round, Hop, Chased;
    ShortByte(p, size, Place(j, None, out));
    ChaseHere(p, j, |p|);
    NoneChased(p, Place(j, None, out));
    ParsesRound(p, size, Place(j, None, out));
  }

  lemma NoneChased(p: seq<byte>, at: Place)
    requires Hop(p, at.j).None?
    ensures Chased(p, at, at.j) == at
  {
    hide Hop;
  }

  lemma ShortByte(p: seq<byte>, size: nat, at: Place)
    requires at.j < |p| && p[at.j] < 64
    ensures Hop(p, at.j).None?
    ensures var n, j := p[at.j], at.j;
            Round(p, size, at) ==
              if n == 0 then
                Stop(if |at.out| < size then Done(at.out, if at.end.Some? then at.end.value else j + 1) else Failed)
              else if |at.out| + (if at.out == [] then 0 else 1) + n >= size then Stop(Failed)
              else if j + 1 + n > |p| then Stop(ReadsPast)
              else Go(Place(j + 1 + n, at.end, at.out + (if at.out == [] then [] else [46]) + p[j + 1..j + 1 + n]))
  {
  }
}
