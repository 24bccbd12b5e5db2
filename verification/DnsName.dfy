/** Names in DNS messages (evdns.c): labels, and compression pointers (section 4.1.4 of RFC 1035). */
module DnsName {
  import opened Seqs

  type byte = x: int | 0 <= x < 256

  const DOT: byte := 46

  // ---- dnsname_to_labels ----------------------------------------------------------------------------

  /** What strchr finds: the first dot, or the end. */
  function NextDot(s: seq<byte>): (n: nat)
    ensures n <= |s| && (n < |s| ==> s[n] == DOT)
  {
    if s == [] || s[0] == DOT then 0 else 1 + NextDot(s[1..])
  }

  datatype Encoded = Labels(bytes: seq<byte>) | LabelTooLong | NameTooLong

  /** The loop over what is left of the name, without the final zero. */
  function EncodeFrom(rest: seq<byte>): Encoded
    decreases |rest|
  {
    var n := NextDot(rest);
    if n > 63 then LabelTooLong
    else if n == |rest| then Labels([n] + rest)
    else
      match EncodeFrom(rest[n + 1..])
      case Labels(more) => Labels([n] + rest[..n] + more)
      case LabelTooLong => LabelTooLong
      case NameTooLong => NameTooLong
  }

  /** dnsname_to_labels */
  function Encode(name: seq<byte>): Encoded {
    if |name| > 255 then NameTooLong
    else
      match EncodeFrom(name)
      case Labels(bs) => Labels(if bs == [] || bs[|bs| - 1] != 0 then bs + [0] else bs)
      case LabelTooLong => LabelTooLong
      case NameTooLong => NameTooLong
  }

  // ---- name_parse -----------------------------------------------------------------------------------

  /** Done gives the name and the index after it; ReadsPast stands for a label that the packet's end
      cuts, which memcpy would follow into other memory; Loops for a cycle of pointers. */
  datatype Parsed = Done(name: seq<byte>, end: nat) | Failed | ReadsPast | Loops

  /** Where the loop stands: the index, the index after the first pointer if there was one, the output. */
  datatype Place = Place(j: nat, end: Option<nat>, out: seq<byte>)

  /** Either another round of the loop, or its result. */
  datatype Next = Go(at: Place) | Stop(res: Parsed)

  predicate IsPointer(b: byte) {
    b >= 64
  }

  /** The index a pointer leads to: the low six bits and the next byte. */
  function Target(high: byte, low: byte): nat {
    (high % 64) * 256 + low
  }

  /** The pointer at an index, if there is a whole one that stays inside the packet. */
  function Hop(p: seq<byte>, j: nat): (r: Option<nat>)
    ensures r.Some? ==> r.value < |p| && j + 1 < |p|
  {
    if j + 1 < |p| && IsPointer(p[j]) && Target(p[j], p[j + 1]) < |p| then Some(Target(p[j], p[j + 1])) else None
  }

  /** One label after the output so far. */
  function TakeLabel(p: seq<byte>, size: nat, at: Place): Next
    requires at.j < |p| && 0 < p[at.j] < 64
  {
    var len := p[at.j];
    var j := at.j + 1;
    if at.out != [] && |at.out| + 1 >= size then Stop(Failed)
    else
      var out := if at.out == [] then [] else at.out + [DOT];
      if |out| + len >= size then Stop(Failed)
      else if j + len > |p| then Stop(ReadsPast)
      else Go(Place(j + len, at.end, out + p[j..j + len]))
  }

  /** One round of the for loop, with room for size bytes of output. */
  function Round(p: seq<byte>, size: nat, at: Place): Next {
    if at.j >= |p| then Stop(Failed)
    else if p[at.j] == 0 then
      if |at.out| >= size then Stop(Failed)
      else Stop(Done(at.out, if at.end.Some? then at.end.value else at.j + 1))
    else if IsPointer(p[at.j]) then
      if Hop(p, at.j).None? then Stop(Failed)
      else Go(Place(Hop(p, at.j).value, Some(if at.end.Some? then at.end.value else at.j + 2), at.out))
    else TakeLabel(p, size, at)
  }

  /** The loop for at most fuel rounds. */
  function Run(p: seq<byte>, size: nat, at: Place, fuel: nat): Option<Parsed>
    decreases fuel
  {
    if fuel == 0 then None
    else
      match Round(p, size, at)
      case Stop(res) => Some(res)
      case Go(next) => Run(p, size, next, fuel - 1)
  }

  // ---- the meaning of the loop ------------------------------------------------------------------------

  /** Where at most k pointers in a row lead; None if there are more. */
  function Chase(p: seq<byte>, j: nat, k: nat): Option<nat>
    decreases k
  {
    if Hop(p, j).None? then Some(j) else if k == 0 then None else Chase(p, Hop(p, j).value, k - 1)
  }

  /** The place after following pointers. */
  function Chased(p: seq<byte>, at: Place, j: nat): Place {
    if Hop(p, at.j).None? then at
    else Place(j, Some(if at.end.Some? then at.end.value else at.j + 2), at.out)
  }

  /** name_parse: as many pointers in a row as the packet has bytes are a cycle. */
  function NameParse(p: seq<byte>, size: nat, at: Place): Parsed
    decreases if |at.out| < size then size - |at.out| else 0
  {
    match Chase(p, at.j, |p|)
    case None => Loops
    case Some(j) =>
      match Round(p, size, Chased(p, at, j))
      case Stop(res) => res
      case Go(next) => if |next.out| > |at.out| && |at.out| < size then NameParse(p, size, next) else Failed
  }

  // ---- cycles of pointers -----------------------------------------------------------------------------

  /** From j exactly k pointers follow each other. */
  predicate EndsAfter(p: seq<byte>, j: nat, k: nat)
    decreases k
  {
    if k == 0 then Hop(p, j).None? else Hop(p, j).Some? && EndsAfter(p, Hop(p, j).value, k - 1)
  }

  lemma {:induction false} EndsOnce(p: seq<byte>, j: nat, k: nat, l: nat)
    requires EndsAfter(p, j, k) && EndsAfter(p, j, l)
    ensures k == l
    decreases k
  {
    if k > 0 && l > 0 {
      EndsOnce(p, Hop(p, j).value, k - 1, l - 1);
    }
  }

  /** The places of k pointers that follow each other. */
  function Trail(p: seq<byte>, j: nat, k: nat): seq<int>
    requires EndsAfter(p, j, k)
    decreases k
  {
    if k == 0 then [] else [j] + Trail(p, Hop(p, j).value, k - 1)
  }

  lemma {:induction false} TrailAt(p: seq<byte>, j: nat, k: nat, x: int) returns (l: nat)
    requires EndsAfter(p, j, k) && x in Trail(p, j, k)
    ensures 0 <= x < |p| && 0 < l <= k && EndsAfter(p, x, l)
    decreases k
  {
    if x == j {
      l := k;
    } else {
      l := TrailAt(p, Hop(p, j).value, k - 1, x);
    }
  }

  lemma {:induction false} TrailDistinct(p: seq<byte>, j: nat, k: nat)
    requires EndsAfter(p, j, k)
    ensures NoDup(Trail(p, j, k)) && |Trail(p, j, k)| == k
    decreases k
  {
    if k > 0 {
      var rest := Trail(p, Hop(p, j).value, k - 1);
      TrailDistinct(p, Hop(p, j).value, k - 1);
      if j in rest {
        var l := TrailAt(p, Hop(p, j).value, k - 1, j);
        EndsOnce(p, j, k, l);
      }
      assert ([j] + rest)[1..] == rest;
    }
  }

  /** Pointers that come to an end do so before there are more of them than bytes in the packet. */
  lemma TrailShort(p: seq<byte>, j: nat, k: nat)
    requires EndsAfter(p, j, k)
    ensures k <= |p|
  {
    TrailDistinct(p, j, k);
    var t := Trail(p, j, k);
    forall x | x in t ensures 0 <= x < |p| {
      var l := TrailAt(p, j, k, x);
    }
    hide NoDup, Trail;
    NoDupSize(t, |p|);
  }

  lemma {:induction false} ChaseCount(p: seq<byte>, j: nat, k: nat) returns (l: nat)
    requires Chase(p, j, k).Some?
    ensures l <= k && EndsAfter(p, j, l)
    decreases k
  {
    hide Hop;
    if Hop(p, j).None? {
      l := 0;
    } else {
      l := ChaseCount(p, Hop(p, j).value, k - 1);
      l := l + 1;
    }
  }

  lemma {:induction false} CountChase(p: seq<byte>, j: nat, k: nat, l: nat)
    requires EndsAfter(p, j, l) && l <= k
    ensures Chase(p, j, k).Some?
    decreases k
  {
    hide Hop;
    if l > 0 {
      CountChase(p, Hop(p, j).value, k - 1, l - 1);
    }
  }

  /** NameParse sees a cycle exactly when the pointers never come to an end. */
  lemma LoopsExactly(p: seq<byte>, j: nat)
    ensures Chase(p, j, |p|).None? <==> forall l: nat :: !EndsAfter(p, j, l)
  {
    if Chase(p, j, |p|).Some? {
      var l := ChaseCount(p, j, |p|);
    } else {
      forall l: nat ensures !EndsAfter(p, j, l) {
        if EndsAfter(p, j, l) {
          TrailShort(p, j, l);
          CountChase(p, j, |p|, l);
        }
      }
    }
  }

  // ---- the loop and its meaning agree -----------------------------------------------------------------

  lemma RoundHop(p: seq<byte>, size: nat, at: Place)
    requires Hop(p, at.j).Some?
    ensures Round(p, size, at) ==
            Go(Place(Hop(p, at.j).value, Some(if at.end.Some? then at.end.value else at.j + 2), at.out))
  {
  }

  /** Following k pointers takes k rounds. */
  lemma {:induction false} RunHops(p: seq<byte>, size: nat, at: Place, k: nat, fuel: nat)
    requires EndsAfter(p, at.j, k)
    ensures Chase(p, at.j, k).Some?
    ensures Run(p, size, at, k + fuel) == Run(p, size, Chased(p, at, Chase(p, at.j, k).value), fuel)
    decreases k
  {
    hide Round, TakeLabel, Hop;
    if k > 0 {
      RoundHop(p, size, at);
      var next := Place(Hop(p, at.j).value, Some(if at.end.Some? then at.end.value else at.j + 2), at.out);
      RunHops(p, size, next, k - 1, fuel);
    }
  }

  lemma {:induction false} ChaseMore(p: seq<byte>, j: nat, k: nat, l: nat)
    requires Chase(p, j, k).Some? && k <= l
    ensures Chase(p, j, l) == Chase(p, j, k)
    decreases k
  {
    hide Hop;
    if Hop(p, j).Some? {
      ChaseMore(p, Hop(p, j).value, k - 1, l - 1);
    }
  }

  lemma {:induction false} ChaseStops(p: seq<byte>, j: nat, k: nat)
    requires Chase(p, j, k).Some?
    ensures Hop(p, Chase(p, j, k).value).None?
    decreases k
  {
    hide Hop;
    if Hop(p, j).Some? {
      ChaseStops(p, Hop(p, j).value, k - 1);
    }
  }

  /** A round that is not a pointer makes the output longer, if it goes on. */
  lemma RoundGrows(p: seq<byte>, size: nat, at: Place)
    requires Hop(p, at.j).None? && Round(p, size, at).Go?
    ensures |at.out| < |Round(p, size, at).at.out| < size
  {
  }

  /** Pointers without end keep the loop going for ever. */
  lemma {:induction false} EndlessRuns(p: seq<byte>, size: nat, at: Place, fuel: nat)
    requires forall l: nat :: !EndsAfter(p, at.j, l)
    ensures Run(p, size, at, fuel).None?
    decreases fuel
  {
    hide Round, TakeLabel, Hop;
    if fuel > 0 {
      assert !EndsAfter(p, at.j, 0);
      RoundHop(p, size, at);
      var h := Hop(p, at.j).value;
      forall l: nat ensures !EndsAfter(p, h, l) {
        assert !EndsAfter(p, at.j, l + 1);
      }
      EndlessRuns(p, size, Place(h, Some(if at.end.Some? then at.end.value else at.j + 2), at.out), fuel - 1);
    }
  }

  lemma {:induction false} RunMore(p: seq<byte>, size: nat, at: Place, fuel: nat, more: nat)
    requires Run(p, size, at, fuel).Some? && fuel <= more
    ensures Run(p, size, at, more) == Run(p, size, at, fuel)
    decreases fuel
  {
    hide Round;
    if Round(p, size, at).Go? {
      RunMore(p, size, Round(p, size, at).at, fuel - 1, more - 1);
    }
  }

  /** How the pointers at a place end, and what NameParse does after them. */
  lemma ParseStep(p: seq<byte>, size: nat, at: Place) returns (k: nat, next: Next)
    requires Chase(p, at.j, |p|).Some?
    ensures EndsAfter(p, at.j, k) && next == Round(p, size, Chased(p, at, Chase(p, at.j, |p|).value))
    ensures forall fuel: nat ::
              Run(p, size, at, k + fuel) == Run(p, size, Chased(p, at, Chase(p, at.j, |p|).value), fuel)
    ensures next.Go? ==> |at.out| < |next.at.out| < size
    ensures NameParse(p, size, at) == if next.Go? then NameParse(p, size, next.at) else next.res
  {
    k := ChaseCount(p, at.j, |p|);
    var j := Chase(p, at.j, |p|).value;
    var c := Chased(p, at, j);
    next := Round(p, size, c);
    ChaseStops(p, at.j, |p|);
    forall fuel: nat ensures Run(p, size, at, k + fuel) == Run(p, size, c, fuel) {
      RunHops(p, size, at, k, fuel);
      ChaseMore(p, at.j, k, |p|);
    }
    if next.Go? {
      ChasedStops(p, at, j);
      RoundGrows(p, size, c);
    }
    hide Round, Chase, EndsAfter, Run;
  }

  lemma ChasedStops(p: seq<byte>, at: Place, j: nat)
    requires Hop(p, j).None?
    ensures Hop(p, Chased(p, at, j).j).None? && Chased(p, at, j).out == at.out
  {
  }

  /** The loop ends, with some number of rounds, exactly when NameParse does not see a cycle, and then
      with the result of NameParse. */
  lemma {:induction false} RunParses(p: seq<byte>, size: nat, at: Place)
    ensures NameParse(p, size, at) != Loops ==>
              exists fuel: nat :: Run(p, size, at, fuel) == Some(NameParse(p, size, at))
    ensures NameParse(p, size, at) == Loops ==> forall fuel: nat :: Run(p, size, at, fuel).None?
    decreases if |at.out| < size then size - |at.out| else 0
  {
    if Chase(p, at.j, |p|).None? {
      LoopsExactly(p, at.j);
      forall fuel: nat ensures Run(p, size, at, fuel).None? {
        EndlessRuns(p, size, at, fuel);
      }
    } else {
      hide Round, Chase, EndsAfter, NameParse, Chased;
      var k, next := ParseStep(p, size, at);
      var c := Chased(p, at, Chase(p, at.j, |p|).value);
      if next.Stop? {
        assert Run(p, size, c, 1) == Some(next.res);
        assert Run(p, size, at, k + 1) == Some(next.res);
        StopNoLoop(p, size, c);
      } else {
        RunParses(p, size, next.at);
        RunOn(p, size, at, c, next.at, k, NameParse(p, size, next.at));
      }
    }
  }

  lemma StopNoLoop(p: seq<byte>, size: nat, at: Place)
    requires Round(p, size, at).Stop?
    ensures Round(p, size, at).res != Loops
  {
  }

  lemma RunOn(p: seq<byte>, size: nat, at: Place, c: Place, next: Place, k: nat, res: Parsed)
    requires Round(p, size, c) == Go(next)
    requires forall fuel: nat :: Run(p, size, at, k + fuel) == Run(p, size, c, fuel)
    requires res != Loops ==> exists fuel: nat :: Run(p, size, next, fuel) == Some(res)
    requires res == Loops ==> forall fuel: nat :: Run(p, size, next, fuel).None?
    ensures res != Loops ==> exists fuel: nat :: Run(p, size, at, fuel) == Some(res)
    ensures res == Loops ==> forall fuel: nat :: Run(p, size, at, fuel).None?
  {
    hide Round;
    if res != Loops {
      var fuel: nat :| Run(p, size, next, fuel) == Some(res);
      assert Run(p, size, c, fuel + 1) == Some(res);
      assert Run(p, size, at, k + (fuel + 1)) == Some(res);
    } else {
      forall fuel: nat ensures Run(p, size, at, fuel).None? {
        assert Run(p, size, at, k + (fuel + 1)) == Run(p, size, c, fuel + 1);
        assert Run(p, size, c, fuel + 1) == Run(p, size, next, fuel);
        if Run(p, size, at, fuel).Some? {
          RunMore(p, size, at, fuel, k + (fuel + 1));
        }
      }
    }
  }

  // ---- exactly when the loop ends -------------------------------------------------------------------

  /** Where k pointers in a row lead; None if there are fewer. */
  function HopsTo(p: seq<byte>, j: nat, k: nat): Option<nat>
    decreases k
  {
    if k == 0 then Some(j) else if Hop(p, j).None? then None else HopsTo(p, Hop(p, j).value, k - 1)
  }

  /** Pointers lead from j back to j. */
  ghost predicate OnCycle(p: seq<byte>, j: nat) {
    exists k: nat :: k > 0 && HopsTo(p, j, k) == Some(j)
  }

  /** Where the loop stands after n rounds, if it has not ended. */
  function After(p: seq<byte>, size: nat, at: Place, n: nat): Option<Place>
    decreases n
  {
    if n == 0 then Some(at)
    else
      match Round(p, size, at)
      case Stop(_) => None
      case Go(next) => After(p, size, next, n - 1)
  }

  /** Within some number of rounds the loop comes to a place on a cycle of pointers. */
  ghost predicate MeetsCycle(p: seq<byte>, size: nat, at: Place) {
    exists n: nat :: After(p, size, at, n).Some? && OnCycle(p, After(p, size, at, n).value.j)
  }

  lemma {:induction false} HopsAdd(p: seq<byte>, j: nat, k: nat, l: nat)
    requires HopsTo(p, j, k).Some?
    ensures HopsTo(p, j, k + l) == HopsTo(p, HopsTo(p, j, k).value, l)
    decreases k
  {
    hide Hop;
    if k > 0 {
      HopsAdd(p, Hop(p, j).value, k - 1, l);
    }
  }

  lemma {:induction false} ChaseHops(p: seq<byte>, j: nat, k: nat, l: nat)
    requires Chase(p, j, k).None? && l <= k
    ensures HopsTo(p, j, l).Some? && 0 <= HopsTo(p, j, l).value < |p|
    decreases l
  {
    if l > 0 {
      ChaseHops(p, Hop(p, j).value, k - 1, l - 1);
    }
  }

  /** More pointers in a row than the packet has bytes come to some place twice. */
  lemma Circle(p: seq<byte>, j: nat) returns (k: nat, l: nat)
    requires Chase(p, j, |p|).None?
    ensures HopsTo(p, j, k) == Some(l) && OnCycle(p, l)
  {
    forall i: nat | i <= |p| ensures HopsTo(p, j, i).Some? && HopsTo(p, j, i).value < |p| {
      ChaseHops(p, j, |p|, i);
    }
    hide HopsTo, Chase;
    var s: seq<int> := seq(|p| + 1, i requires 0 <= i <= |p| => HopsTo(p, j, i).value);
    if forall a, b :: 0 <= a < b < |s| ==> s[a] != s[b] {
      NoDupFromIndices(s);
      NoDupSize(s, |p|);
    }
    var a, b :| 0 <= a < b < |s| && s[a] == s[b];
    k, l := a, s[a];
    HopsAdd(p, j, a, b - a);
    assert HopsTo(p, l, b - a) == Some(l);
  }

  lemma {:induction false} HopsEnd(p: seq<byte>, j: nat, k: nat, l: nat)
    requires HopsTo(p, j, k).Some? && EndsAfter(p, j, l)
    ensures k <= l && EndsAfter(p, HopsTo(p, j, k).value, l - k)
    decreases k
  {
    hide Hop;
    if k > 0 {
      HopsEnd(p, Hop(p, j).value, k - 1, l - 1);
    }
  }

  lemma CycleEndless(p: seq<byte>, j: nat)
    requires OnCycle(p, j)
    ensures forall l: nat :: !EndsAfter(p, j, l)
  {
    var k: nat :| k > 0 && HopsTo(p, j, k) == Some(j);
    forall l: nat ensures !EndsAfter(p, j, l) {
      if EndsAfter(p, j, l) {
        HopsEnd(p, j, k, l);
        EndsOnce(p, j, l, l - k);
      }
    }
  }

  lemma {:induction false} RunAfter(p: seq<byte>, size: nat, at: Place, n: nat, fuel: nat)
    requires After(p, size, at, n).Some?
    ensures Run(p, size, at, n + fuel) == Run(p, size, After(p, size, at, n).value, fuel)
    decreases n
  {
    hide Round;
    if n > 0 {
      RunAfter(p, size, Round(p, size, at).at, n - 1, fuel);
    }
  }

  lemma {:induction false} AfterAdd(p: seq<byte>, size: nat, at: Place, n: nat, m: nat)
    requires After(p, size, at, n).Some?
    ensures After(p, size, at, n + m) == After(p, size, After(p, size, at, n).value, m)
    decreases n
  {
    hide Round;
    if n > 0 {
      AfterAdd(p, size, Round(p, size, at).at, n - 1, m);
    }
  }

  /** A loop that has come to a cycle does not end. */
  lemma MetEndless(p: seq<byte>, size: nat, at: Place, fuel: nat)
    requires MeetsCycle(p, size, at)
    ensures Run(p, size, at, fuel).None?
  {
    var n: nat :| After(p, size, at, n).Some? && OnCycle(p, After(p, size, at, n).value.j);
    var met := After(p, size, at, n).value;
    CycleEndless(p, met.j);
    EndlessRuns(p, size, met, fuel);
    RunAfter(p, size, at, n, fuel);
    hide Run, After, OnCycle;
    if Run(p, size, at, fuel).Some? {
      RunMore(p, size, at, fuel, n + fuel);
    }
  }

  /** A pointer is one round. */
  lemma {:induction false} AfterHops(p: seq<byte>, size: nat, at: Place, k: nat)
    requires HopsTo(p, at.j, k).Some?
    ensures After(p, size, at, k).Some? && After(p, size, at, k).value.j == HopsTo(p, at.j, k).value
    ensures EndsAfter(p, at.j, k) ==>
              Chase(p, at.j, k).Some? && After(p, size, at, k).value == Chased(p, at, Chase(p, at.j, k).value)
    decreases k
  {
    hide Round, Hop;
    if k > 0 {
      RoundHop(p, size, at);
      var next := Place(Hop(p, at.j).value, Some(if at.end.Some? then at.end.value else at.j + 2), at.out);
      AfterHops(p, size, next, k - 1);
    }
  }

  lemma {:induction false} EndsHops(p: seq<byte>, j: nat, k: nat)
    requires EndsAfter(p, j, k)
    ensures HopsTo(p, j, k).Some? && Chase(p, j, k).Some?
    decreases k
  {
    hide Hop;
    if k > 0 {
      EndsHops(p, Hop(p, j).value, k - 1);
    }
  }

  lemma MeetsLater(p: seq<byte>, size: nat, at: Place, n: nat)
    requires After(p, size, at, n).Some? && MeetsCycle(p, size, After(p, size, at, n).value)
    ensures MeetsCycle(p, size, at)
  {
    var mid := After(p, size, at, n).value;
    var m: nat :| After(p, size, mid, m).Some? && OnCycle(p, After(p, size, mid, m).value.j);
    hide After, OnCycle;
    AfterAdd(p, size, at, n, m);
  }

  /** Where NameParse sees a cycle, there is one on the way. */
  lemma {:induction false} LoopMeets(p: seq<byte>, size: nat, at: Place)
    requires NameParse(p, size, at) == Loops
    ensures MeetsCycle(p, size, at)
    decreases if |at.out| < size then size - |at.out| else 0
  {
    if Chase(p, at.j, |p|).None? {
      var k, l := Circle(p, at.j);
      hide OnCycle;
      AfterHops(p, size, at, k);
    } else {
      hide Round, EndsAfter, NameParse, Chased, After, MeetsCycle;
      var k, next := ParseStep(p, size, at);
      EndsHops(p, at.j, k);
      AfterHops(p, size, at, k);
      TrailShort(p, at.j, k);
      ChaseMore(p, at.j, k, |p|);
      var c := After(p, size, at, k).value;
      assert next == Round(p, size, c);
      if next.Stop? {
        StopNoLoop(p, size, c);
      } else {
        LoopMeets(p, size, next.at);
        AfterOne(p, size, c);
        MeetsLater(p, size, c, 1);
        MeetsLater(p, size, at, k);
      }
    }
  }

  lemma AfterOne(p: seq<byte>, size: nat, at: Place)
    requires Round(p, size, at).Go?
    ensures After(p, size, at, 1) == Some(Round(p, size, at).at)
  {
    hide Round;
    assert After(p, size, Round(p, size, at).at, 0) == Some(Round(p, size, at).at);
  }

  /** The loop of name_parse ends if and only if no round takes it to a place on a cycle of pointers. */
  lemma EndsExactly(p: seq<byte>, size: nat, at: Place)
    ensures (exists fuel: nat :: Run(p, size, at, fuel).Some?) <==> !MeetsCycle(p, size, at)
  {
    RunParses(p, size, at);
    hide NameParse, Run, MeetsCycle;
    if NameParse(p, size, at) != Loops {
      var fuel: nat :| Run(p, size, at, fuel) == Some(NameParse(p, size, at));
      assert Run(p, size, at, fuel).Some?;
      if MeetsCycle(p, size, at) {
        MetEndless(p, size, at, fuel);
      }
    } else {
      LoopMeets(p, size, at);
    }
  }

  /** A pointer to itself is never left. */
  lemma SelfPointerLoops(p: seq<byte>, size: nat, at: Place, fuel: nat)
    requires Hop(p, at.j) == Some(at.j)
    ensures Run(p, size, at, fuel).None?
  {
    hide Hop;
    forall l: nat ensures !EndsAfter(p, at.j, l) {
      SelfPointer(p, at.j, l);
    }
    EndlessRuns(p, size, at, fuel);
  }

  lemma {:induction false} SelfPointer(p: seq<byte>, j: nat, l: nat)
    requires Hop(p, j) == Some(j)
    ensures !EndsAfter(p, j, l)
    decreases l
  {
    hide Hop;
    if l > 0 {
      SelfPointer(p, j, l - 1);
    }
  }

  /** Every pointer leads to an earlier place. */
  predicate PointsBack(p: seq<byte>) {
    forall j :: 0 <= j < |p| && Hop(p, j).Some? ==> Hop(p, j).value < j
  }

  lemma {:induction false} BackEnds(p: seq<byte>, j: nat) returns (l: nat)
    requires PointsBack(p)
    ensures EndsAfter(p, j, l)
    decreases j
  {
    hide Hop;
    if Hop(p, j).None? {
      l := 0;
    } else {
      l := BackEnds(p, Hop(p, j).value);
      l := l + 1;
    }
  }

  /** With pointers that all lead strictly back the loop ends for every packet, place and buffer. */
  lemma {:induction false} PointsBackEnds(p: seq<byte>, size: nat, at: Place)
    requires PointsBack(p)
    ensures NameParse(p, size, at) != Loops
    decreases if |at.out| < size then size - |at.out| else 0
  {
    var l := BackEnds(p, at.j);
    LoopsExactly(p, at.j);
    hide Round, Chase, EndsAfter, NameParse, PointsBack, Chased;
    var k, next := ParseStep(p, size, at);
    if next.Stop? {
      StopNoLoop(p, size, Chased(p, at, Chase(p, at.j, |p|).value));
    } else {
      PointsBackEnds(p, size, next.at);
    }
  }

  /** A name that is returned continues what had been read, and leaves room for the zero behind it. */
  lemma {:induction false} ParsedFits(p: seq<byte>, size: nat, at: Place)
    requires NameParse(p, size, at).Done?
    ensures at.out <= NameParse(p, size, at).name && |NameParse(p, size, at).name| < size
    decreases if |at.out| < size then size - |at.out| else 0
  {
    hide Round, Chase, EndsAfter, NameParse, Chased;
    NotLoops(p, size, at);
    var k, next := ParseStep(p, size, at);
    var c := Chased(p, at, Chase(p, at.j, |p|).value);
    ChasedOut(p, at, Chase(p, at.j, |p|).value);
    if next.Stop? {
      StopFits(p, size, c);
    } else {
      RoundPrefix(p, size, c);
      ParsedFits(p, size, next.at);
    }
  }

  lemma NotLoops(p: seq<byte>, size: nat, at: Place)
    requires NameParse(p, size, at) != Loops
    ensures Chase(p, at.j, |p|).Some?
  {
  }

  lemma ChasedOut(p: seq<byte>, at: Place, j: nat)
    ensures Chased(p, at, j).out == at.out
  {
  }

  lemma StopFits(p: seq<byte>, size: nat, at: Place)
    requires Round(p, size, at).Stop? && Round(p, size, at).res.Done?
    ensures Round(p, size, at).res.name == at.out && |at.out| < size
  {
  }

  lemma RoundPrefix(p: seq<byte>, size: nat, at: Place)
    requires Round(p, size, at).Go?
    ensures at.out <= Round(p, size, at).at.out
  {
  }
}
