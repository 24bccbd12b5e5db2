/** The two loops of evdns.c over names. */
module DnsCode {
  import opened Seqs
  import opened DnsName

  /** More bytes in front of labels. */
  function Prefixed(buf: seq<byte>, e: Encoded): Encoded {
    match e
    case Labels(more) => Labels(buf + more)
    case LabelTooLong => LabelTooLong
    case NameTooLong => NameTooLong
  }

  /** strchr(name, '.') */
  method FindDot(s: seq<byte>) returns (n: nat)
    ensures n == NextDot(s)
  {
    n := 0;
    while n < |s| && s[n] != DOT
      invariant n <= |s| && n + NextDot(s[n..]) == NextDot(s)
    {
      assert s[n..][0] == s[n] && s[n..][1..] == s[n + 1..];
      n := n + 1;
    }
  }

  lemma EncodeStep(buf: seq<byte>, rest: seq<byte>)
    ensures var n := NextDot(rest);
            && (n > 63 ==> EncodeFrom(rest) == LabelTooLong && Prefixed(buf, EncodeFrom(rest)) == LabelTooLong)
            && (n <= 63 && n == |rest| ==> Prefixed(buf, EncodeFrom(rest)) == Labels(buf + ([n] + rest)))
            && (n <= 63 && n < |rest| ==>
                  Prefixed(buf, EncodeFrom(rest)) == Prefixed(buf + ([n] + rest[..n]), EncodeFrom(rest[n + 1..])))
  {
    var n := NextDot(rest);
    if n <= 63 && n < |rest| {
      var e := EncodeFrom(rest[n + 1..]);
      if e.Labels? {
        Associates(buf, [n] + rest[..n], e.bytes);
      }
    }
  }

  lemma Associates<T>(a: seq<T>, b: seq<T>, c: seq<T>)
    ensures a + (b + c) == (a + b) + c
  {
  }

  /** dnsname_to_labels */
  method DnsnameToLabels(name: seq<byte>) returns (res: Encoded)
    ensures res == Encode(name)
  {
    if |name| > 255 {
      return NameTooLong;
    }
    hide EncodeFrom, NextDot, Prefixed;
    var buf: seq<byte>, rest := [], name;
    NoPrefix(EncodeFrom(name));
    var more := true;
    while more
      invariant more ==> Prefixed(buf, EncodeFrom(rest)) == EncodeFrom(name)
      invariant !more ==> EncodeFrom(name) == Labels(buf)
      decreases more, |rest|
    {
      var n := FindDot(rest);
      EncodeStep(buf, rest);
      if n > 63 {
        return LabelTooLong;
      }
      if n == |rest| {
        buf := buf + ([n] + rest);
        more := false;
      } else {
        buf := buf + ([n] + rest[..n]);
        rest := rest[n + 1..];
      }
    }
    if buf == [] || buf[|buf| - 1] != 0 {
      buf := buf + [0];
    }
    res := Labels(buf);
  }

  lemma NoPrefix(e: Encoded)
    ensures Prefixed([], e) == e
  {
  }

  // ---- name_parse -----------------------------------------------------------------------------------

  lemma RunStep(p: seq<byte>, size: nat, at: Place, fuel: nat)
    requires fuel > 0
    ensures Round(p, size, at).Stop? ==> Run(p, size, at, fuel) == Some(Round(p, size, at).res)
    ensures Round(p, size, at).Go? ==> Run(p, size, at, fuel) == Run(p, size, Round(p, size, at).at, fuel - 1)
  {
    hide Round;
  }

  /** name_parse: the for loop with its index, its end and its output, for at most fuel rounds; None if it
      has not ended by then. */
  method ParseName(p: seq<byte>, size: nat, idx: nat, fuel: nat) returns (res: Option<Parsed>)
    ensures res == Run(p, size, Place(idx, None, []), fuel)
  {
    var j: nat, nameEnd: Option<nat>, out: seq<byte> := idx, None, [];
    var rounds := 0;
    while rounds < fuel
      invariant rounds <= fuel
      invariant Run(p, size, Place(j, nameEnd, out), fuel - rounds) == Run(p, size, Place(idx, None, []), fuel)
    {
      hide Run;
      ghost var at := Place(j, nameEnd, out);
      RunStep(p, size, at, fuel - rounds);
      rounds := rounds + 1;
      if j >= |p| {
        return Some(Failed);
      }
      var labelLen: nat := p[j];
      j := j + 1;
      if labelLen == 0 {
        if |out| >= size {
          return Some(Failed);
        }
        return Some(Done(out, if nameEnd.None? then j else nameEnd.value));
      }
      if labelLen >= 64 {
        if j >= |p| {
          return Some(Failed);
        }
        var ptrLow: nat := p[j];
        j := j + 1;
        if nameEnd.None? {
          nameEnd := Some(j);
        }
        j := (labelLen % 64) * 256 + ptrLow;
        if j >= |p| {
          return Some(Failed);
        }
        assert Round(p, size, at) == Go(Place(j, nameEnd, out));
        continue;
      }
      if out != [] {
        if |out| + 1 >= size {
          return Some(Failed);
        }
        out := out + [DOT];
      }
      if |out| + labelLen >= size {
        return Some(Failed);
      }
      if j + labelLen > |p| {
        return Some(ReadsPast);
      }
      out := out + p[j..j + labelLen];
      j := j + labelLen;
      assert Round(p, size, at) == Go(Place(j, nameEnd, out));
    }
    res := None;
  }
}
