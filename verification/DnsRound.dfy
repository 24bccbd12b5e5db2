/** Names written by dnsname_to_labels and read by name_parse. */
module DnsRound {
  import opened Seqs
  import opened DnsName

  // ---- what dnsname_to_labels writes ------------------------------------------------------------------

  /** No label is longer than 63 bytes. */
  predicate LabelsFit(rest: seq<byte>)
    decreases |rest|
  {
    var n := NextDot(rest);
    n <= 63 && (n < |rest| ==> LabelsFit(rest[n + 1..]))
  }

  /** No label is empty. */
  predicate NoEmptyLabel(rest: seq<byte>)
    decreases |rest|
  {
    var n := NextDot(rest);
    n > 0 && (n < |rest| ==> NoEmptyLabel(rest[n + 1..]))
  }

  /** A name of a host: labels of 1 to 63 bytes (section 2.3.4 of RFC 1035), no zero byte. */
  predicate ProperName(name: seq<byte>) {
    |name| <= 255 && 0 !in name && LabelsFit(name) && NoEmptyLabel(name)
  }

  /** The labels of a name, each after its length. */
  function Wire(rest: seq<byte>): seq<byte>
    requires LabelsFit(rest)
    decreases |rest|
  {
    var n := NextDot(rest);
    if n == |rest| then [n] + rest else [n] + rest[..n] + Wire(rest[n + 1..])
  }

  lemma {:induction false} EncodeFromWire(rest: seq<byte>)
    ensures EncodeFrom(rest) == if LabelsFit(rest) then Labels(Wire(rest)) else LabelTooLong
    decreases |rest|
  {
    var n := NextDot(rest);
    if n <= 63 && n < |rest| {
      EncodeFromWire(rest[n + 1..]);
    }
  }

  /** The last label is empty. */
  predicate EndsEmpty(rest: seq<byte>)
    decreases |rest|
  {
    var n := NextDot(rest);
    if n == |rest| then n == 0 else EndsEmpty(rest[n + 1..])
  }

  lemma {:induction false} WireEnd(rest: seq<byte>)
    requires LabelsFit(rest) && 0 !in rest
    ensures Wire(rest) != [] && |Wire(rest)| == |rest| + 1
    ensures Wire(rest)[|Wire(rest)| - 1] == 0 <==> EndsEmpty(rest)
    decreases |rest|
  {
    var n := NextDot(rest);
    if n < |rest| {
      WireEnd(rest[n + 1..]);
    }
  }

  lemma {:induction false} ProperNotEmpty(rest: seq<byte>)
    requires NoEmptyLabel(rest)
    ensures !EndsEmpty(rest)
    decreases |rest|
  {
    var n := NextDot(rest);
    if n < |rest| {
      ProperNotEmpty(rest[n + 1..]);
    }
  }

  /** What is written for any name: its labels, and one zero byte at the end; it fails exactly for a name
      of more than 255 bytes or a label of more than 63. */
  lemma EncodeIs(name: seq<byte>)
    requires 0 !in name
    ensures Encode(name).Labels? <==> |name| <= 255 && LabelsFit(name)
    ensures Encode(name).Labels? ==>
              && |Encode(name).bytes| == |name| + (if EndsEmpty(name) then 1 else 2)
              && Encode(name).bytes == (if EndsEmpty(name) then Wire(name) else Wire(name) + [0])
  {
    EncodeFromWire(name);
    if LabelsFit(name) {
      WireEnd(name);
    }
    hide LabelsFit, EndsEmpty, Wire;
  }

  // ---- reading it back --------------------------------------------------------------------------------

  /** The labels before the first empty one. */
  function Kept(rest: seq<byte>): seq<byte>
    decreases |rest|
  {
    var n := NextDot(rest);
    if n == 0 then []
    else if n == |rest| then rest
    else rest[..n] + Dotted(Kept(rest[n + 1..]))
  }

  function Dotted(s: seq<byte>): seq<byte> {
    if s == [] then [] else [DOT] + s
  }

  /** More labels behind what has been read. */
  function Extended(out: seq<byte>, s: seq<byte>): seq<byte> {
    if s == [] then out else if out == [] then s else out + [DOT] + s
  }

  /** The packet holds the bytes from j on, and a zero after them if there has to be one. */
  predicate Holds(p: seq<byte>, j: nat, bytes: seq<byte>, zero: bool) {
    && j + |bytes| <= |p| && p[j..j + |bytes|] == bytes
    && (zero ==> j + |bytes| < |p| && p[j + |bytes|] == 0)
  }

  lemma NoPointer(p: seq<byte>, size: nat, at: Place)
    requires at.j < |p| && p[at.j] < 64
    ensures Chase(p, at.j, |p|) == Some(at.j) && Chased(p, at, at.j) == at
  {
  }

  lemma ZeroEnds(p: seq<byte>, size: nat, j: nat, out: seq<byte>)
    requires j < |p| && p[j] == 0 && |out| < size
    ensures NameParse(p, size, Place(j, None, out)) == Done(out, j + 1)
  {
    NoPointer(p, size, Place(j, None, out));
    hide Chase, Chased;
  }

  lemma RoundLabel(p: seq<byte>, size: nat, at: Place, n: nat)
    requires at.j < |p| && p[at.j] == n && 0 < n < 64 && at.j + 1 + n <= |p|
    requires |Extended(at.out, p[at.j + 1..at.j + 1 + n])| < size
    ensures Round(p, size, at) == Go(Place(at.j + 1 + n, at.end, Extended(at.out, p[at.j + 1..at.j + 1 + n])))
  {
    var text := p[at.j + 1..at.j + 1 + n];
    assert Extended(at.out, text) == (if at.out == [] then [] else at.out + [DOT]) + text;
    hide Extended;
  }

  lemma ExtendedLength(out: seq<byte>, s: seq<byte>)
    ensures |Extended(out, s)| == |out| + |s| + (if out == [] || s == [] then 0 else 1)
  {
  }

  lemma LabelRead(p: seq<byte>, size: nat, j: nat, out: seq<byte>, n: nat)
    requires j < |p| && p[j] == n && 0 < n < 64 && j + 1 + n <= |p|
    requires |Extended(out, p[j + 1..j + 1 + n])| < size
    ensures NameParse(p, size, Place(j, None, out)) ==
            NameParse(p, size, Place(j + 1 + n, None, Extended(out, p[j + 1..j + 1 + n])))
  {
    hide Chase, Chased, Round, Extended;
    var at := Place(j, None, out);
    NoPointer(p, size, at);
    var text := p[j + 1..j + 1 + n];
    ExtendedLength(out, text);
    RoundLabel(p, size, at, n);
  }

  lemma {:induction false} KeptShorter(rest: seq<byte>)
    ensures |Kept(rest)| <= |rest|
    decreases |rest|
  {
    var n := NextDot(rest);
    if 0 < n < |rest| {
      KeptShorter(rest[n + 1..]);
    }
  }

  lemma ExtendedMore(out: seq<byte>, text: seq<byte>, more: seq<byte>)
    requires text != []
    ensures Extended(Extended(out, text), more) == Extended(out, text + Dotted(more))
  {
  }

  /** name_parse reads the labels up to the first empty one. */
  lemma {:induction false} ReadsKept(p: seq<byte>, size: nat, j: nat, out: seq<byte>, rest: seq<byte>)
    requires LabelsFit(rest) && 0 !in rest && Holds(p, j, Wire(rest), !EndsEmpty(rest))
    requires |out| + 1 + |rest| < size || (out == [] && |rest| < size)
    ensures var r := NameParse(p, size, Place(j, None, out));
            r.Done? && r.name == Extended(out, Kept(rest))
            && (NoEmptyLabel(rest) ==> r.end == j + |rest| + 2)
    decreases |rest|
  {
    hide NameParse, Wire, Extended, Dotted, Holds;
    var n := NextDot(rest);
    WireHead(p, j, rest);
    if n == 0 {
      ZeroEnds(p, size, j, out);
      NothingKept(out, rest);
    } else if n == |rest| {
      ReadsLast(p, size, j, out, rest);
    } else {
      ReadsLabel(p, size, j, out, rest);
      ReadsKept(p, size, j + 1 + n, Extended(out, rest[..n]), rest[n + 1..]);
      ExtendedMore(out, rest[..n], Kept(rest[n + 1..]));
    }
  }

  lemma NothingKept(out: seq<byte>, rest: seq<byte>)
    requires NextDot(rest) == 0
    ensures Extended(out, Kept(rest)) == out && !NoEmptyLabel(rest)
  {
  }

  /** The first label on the wire. */
  lemma WireHead(p: seq<byte>, j: nat, rest: seq<byte>)
    requires LabelsFit(rest) && 0 !in rest && Holds(p, j, Wire(rest), !EndsEmpty(rest))
    ensures var n := NextDot(rest);
            && j + 1 + n <= |p| && p[j] == n < 64 && p[j + 1..j + 1 + n] == rest[..n]
            && (n < |rest| ==> Holds(p, j + 1 + n, Wire(rest[n + 1..]), !EndsEmpty(rest[n + 1..])))
            && (0 < n == |rest| ==> j + 1 + n < |p| && p[j + 1 + n] == 0)
  {
    hide Wire, LabelsFit, Holds, NextDot, EndsEmpty;
    WireParts(rest);
    EndsTail(rest);
    var n, w := NextDot(rest), Wire(rest);
    HoldsFirst(p, j, w, !EndsEmpty(rest));
    HoldsLabel(p, j, w, !EndsEmpty(rest), n);
    if n < |rest| {
      HoldsRest(p, j, w, !EndsEmpty(rest), 1 + n);
    } else if n > 0 {
      HoldsZero(p, j, w);
    }
  }

  lemma EndsTail(rest: seq<byte>)
    ensures var n := NextDot(rest);
            && (n < |rest| ==> EndsEmpty(rest) == EndsEmpty(rest[n + 1..]))
            && (0 < n == |rest| ==> !EndsEmpty(rest))
  {
    hide NextDot;
  }

  lemma HoldsLabel(p: seq<byte>, j: nat, w: seq<byte>, zero: bool, n: nat)
    requires Holds(p, j, w, zero) && 1 + n <= |w|
    ensures j + 1 + n <= |p| && p[j + 1..j + 1 + n] == w[1..1 + n]
  {
    HoldsPart(p, j, w, zero, 1, 1 + n);
    assert j + 1 + n == j + (1 + n);
  }

  lemma HoldsZero(p: seq<byte>, j: nat, w: seq<byte>)
    requires Holds(p, j, w, true)
    ensures j + |w| < |p| && p[j + |w|] == 0
  {
  }

  lemma WireParts(rest: seq<byte>)
    requires LabelsFit(rest)
    ensures var n, w := NextDot(rest), Wire(rest);
            && n < 64 && |w| >= n + 1 && w[0] == n && w[1..1 + n] == rest[..n]
            && (n < |rest| ==> LabelsFit(rest[n + 1..]) && w[1 + n..] == Wire(rest[n + 1..]))
            && (n == |rest| ==> |w| == n + 1)
  {
    hide NextDot;
  }

  lemma HoldsFirst(p: seq<byte>, j: nat, w: seq<byte>, zero: bool)
    requires Holds(p, j, w, zero) && w != []
    ensures j < |p| && p[j] == w[0]
  {
    assert p[j..j + |w|][0] == p[j];
  }

  lemma HoldsPart(p: seq<byte>, j: nat, w: seq<byte>, zero: bool, a: nat, b: nat)
    requires Holds(p, j, w, zero) && a <= b <= |w|
    ensures j + b <= |p| && p[j + a..j + b] == w[a..b]
  {
    SliceOfSlice(p, j, |w|, a, b);
  }

  lemma SliceOfSlice<T>(p: seq<T>, j: nat, n: nat, a: nat, b: nat)
    requires j + n <= |p| && a <= b <= n
    ensures p[j..j + n][a..b] == p[j + a..j + b]
  {
    var m := p[j..j + n];
    forall i | 0 <= i < b - a ensures m[a..b][i] == p[j + a..j + b][i] {
      assert m[a..b][i] == m[a + i] == p[j + (a + i)];
      assert p[j + a..j + b][i] == p[j + a + i];
    }
  }

  lemma HoldsRest(p: seq<byte>, j: nat, w: seq<byte>, zero: bool, a: nat)
    requires Holds(p, j, w, zero) && a <= |w|
    ensures Holds(p, j + a, w[a..], zero)
  {
    HoldsPart(p, j, w, zero, a, |w|);
  }

  lemma ReadsLast(p: seq<byte>, size: nat, j: nat, out: seq<byte>, rest: seq<byte>)
    requires rest != [] && j + 1 + |rest| < |p| && p[j] == |rest| < 64
    requires p[j + 1..j + 1 + |rest|] == rest && p[j + 1 + |rest|] == 0
    requires |out| + 1 + |rest| < size || (out == [] && |rest| < size)
    ensures NameParse(p, size, Place(j, None, out)) == Done(Extended(out, rest), j + |rest| + 2)
  {
    ExtendedLength(out, rest);
    hide NameParse, Extended;
    LabelRead(p, size, j, out, |rest|);
    ZeroEnds(p, size, j + 1 + |rest|, Extended(out, rest));
  }

  lemma ReadsLabel(p: seq<byte>, size: nat, j: nat, out: seq<byte>, rest: seq<byte>)
    requires var n := NextDot(rest);
             0 < n < |rest| && j + 1 + n <= |p| && p[j] == n < 64 && p[j + 1..j + 1 + n] == rest[..n]
    requires |out| + 1 + |rest| < size || (out == [] && |rest| < size)
    ensures var n := NextDot(rest);
            && NameParse(p, size, Place(j, None, out)) ==
                 NameParse(p, size, Place(j + 1 + n, None, Extended(out, rest[..n])))
            && |Extended(out, rest[..n])| + 1 + |rest[n + 1..]| < size
  {
    var n := NextDot(rest);
    ExtendedLength(out, rest[..n]);
    hide NameParse, Extended;
    LabelRead(p, size, j, out, n);
  }

  lemma {:induction false} KeptWhole(rest: seq<byte>)
    ensures Kept(rest) == rest <==> rest == [] || NoEmptyLabel(rest)
    decreases |rest|
  {
    hide NextDot, Dotted;
    var n := NextDot(rest);
    if 0 < n < |rest| {
      KeptWhole(rest[n + 1..]);
      KeptTail(rest);
    }
  }

  /** Behind a first label the rest is kept whole, or something is lost. */
  lemma KeptTail(rest: seq<byte>)
    requires 0 < NextDot(rest) < |rest|
    ensures Kept(rest) == rest <==> Kept(rest[NextDot(rest) + 1..]) == rest[NextDot(rest) + 1..] != []
  {
    hide Kept, NextDot;
    var n := NextDot(rest);
    var tail := rest[n + 1..];
    KeptStep(rest, n, tail);
    SplitDot(rest, n);
    SameTail(rest[..n], Kept(tail), tail);
  }

  lemma SplitDot(rest: seq<byte>, n: nat)
    requires n < |rest| && rest[n] == DOT
    ensures rest == rest[..n] + ([DOT] + rest[n + 1..])
  {
  }

  lemma SameTail(a: seq<byte>, k: seq<byte>, tail: seq<byte>)
    ensures a + Dotted(k) == a + ([DOT] + tail) <==> k == tail != []
  {
    if k != [] {
      assert (a + ([DOT] + k))[|a| + 1..] == k;
      assert (a + ([DOT] + tail))[|a| + 1..] == tail;
    } else {
      assert |a + Dotted(k)| == |a|;
    }
  }

  lemma KeptStep(rest: seq<byte>, n: nat, tail: seq<byte>)
    requires 0 < NextDot(rest) == n < |rest| && tail == rest[n + 1..]
    ensures Kept(rest) == rest[..n] + Dotted(Kept(tail))
  {
    hide NextDot, Dotted;
  }

  const NAME_SIZE: nat := 256

  /** Whatever stands before and after them, the labels written for a name are read back by name_parse
      without error, as the name's labels up to the first empty one; the name itself comes back exactly
      if it is empty or has no empty label.  A proper name of len bytes takes len + 2, and name_parse
      stops right behind them. */
  lemma NameRoundTrip(pre: seq<byte>, name: seq<byte>, post: seq<byte>)
    requires 0 !in name && Encode(name).Labels?
    ensures var bs := Encode(name).bytes;
            var r := NameParse(pre + bs + post, NAME_SIZE, Place(|pre|, None, []));
            && r.Done? && r.name == Kept(name)
            && (r.name == name <==> name == [] || NoEmptyLabel(name))
            && (ProperName(name) ==> |bs| == |name| + 2 && r == Done(name, |pre| + |bs|))
  {
    EncodeIs(name);
    WireEnd(name);
    KeptWhole(name);
    var bs := Encode(name).bytes;
    var p := pre + bs + post;
    hide Encode, NameParse, Kept, Wire, LabelsFit, EndsEmpty, NoEmptyLabel;
    HoldsName(pre, bs, post, Wire(name), !EndsEmpty(name));
    ReadsKept(p, NAME_SIZE, |pre|, [], name);
    assert Extended([], Kept(name)) == Kept(name);
    if ProperName(name) {
      ProperNotEmpty(name);
    }
  }

  /** "a..b" is encoded without an error and comes back as "a", read only up to the empty label. */
  lemma EmptyLabelCuts()
    ensures Encode([97, DOT, DOT, 98]) == Labels([1, 97, 0, 1, 98, 0])
    ensures NameParse([1, 97, 0, 1, 98, 0], NAME_SIZE, Place(0, None, [])) == Done([97], 3)
  {
    var p: seq<byte> := [1, 97, 0, 1, 98, 0];
    assert p[1..2] == [97];
    TwoDots([97, DOT, DOT, 98]);
    hide Encode, NameParse;
    LabelRead(p, NAME_SIZE, 0, [], 1);
    ZeroEnds(p, NAME_SIZE, 2, [97]);
  }

  lemma TwoDots(name: seq<byte>)
    requires name == [97, DOT, DOT, 98]
    ensures Encode(name) == Labels([1, 97, 0, 1, 98, 0])
  {
    assert name[2..] == [DOT, 98] && name[..1] == [97] && name[1..] == [DOT, DOT, 98];
    assert NextDot(name[1..]) == 0 && NextDot(name) == 1;
    assert EncodeFrom([98]) == Labels([1, 98]) by {
      assert NextDot([98][1..]) == 0;
    }
    assert EncodeFrom([DOT, 98]) == Labels([0, 1, 98]) by {
      assert [DOT, 98][1..] == [98] && [DOT, 98][..0] == [];
    }
    hide NextDot;
    assert EncodeFrom(name) == Labels([1, 97, 0, 1, 98]);
  }

  lemma HoldsName(pre: seq<byte>, bs: seq<byte>, post: seq<byte>, w: seq<byte>, zero: bool)
    requires bs == if zero then w + [0] else w
    ensures Holds(pre + bs + post, |pre|, w, zero)
  {
    var p := pre + bs + post;
    assert p[|pre|..|pre| + |bs|] == bs;
    SliceOfSlice(p, |pre|, |bs|, 0, |w|);
    assert bs[0..|w|] == w;
    if zero {
      assert p[|pre|..|pre| + |bs|][|w|] == p[|pre| + |w|];
    }
  }
}
