/** incr and decr on the numbers that values stand for (do_add_delta of memcached.c). */
module Counters {
  import opened Seqs
  import opened ItemCache
  import opened ItemCacheOps
  import opened ItemCacheView
  import opened ItemCacheStoreProof
  import opened ItemCacheRun
  import opened ItemCacheEffects

  const WRAP64: int := 0x1_0000_0000_0000_0000

  predicate IsDigit(c: char) {
    '0' <= c <= '9'
  }

  function DigitsAhead(s: string): (n: nat)
    ensures n <= |s|
  {
    if s == [] || !IsDigit(s[0]) then 0 else 1 + DigitsAhead(s[1..])
  }

  /** What strtoull reads of text that starts with a digit. */
  function ReadNumber(s: string): nat {
    Denoted(s[..DigitsAhead(s)])
  }

  /** The value after incr or decr; delta comes as a signed number of 64 bits, which an unsigned comparison and
      sum take for its remainder. */
  function NewValue(incr: bool, value: nat, delta: int): nat {
    if incr then (value + delta) % WRAP64
    else if delta % WRAP64 >= value then 0
    else value - delta % WRAP64
  }

  /** incr adds modulo 2^64; decr by a number that is not negative subtracts and stops at 0. */
  lemma NewValueIs(value: nat, delta: int)
    requires value < WRAP64 && -0x8000_0000_0000_0000 <= delta < 0x8000_0000_0000_0000
    ensures NewValue(true, value, delta) < WRAP64 && NewValue(false, value, delta) <= value
    ensures 0 <= value + delta < WRAP64 ==> NewValue(true, value, delta) == value + delta
    ensures value + delta >= WRAP64 ==> NewValue(true, value, delta) == value + delta - WRAP64
    ensures value + delta < 0 ==> NewValue(true, value, delta) == value + delta + WRAP64
    ensures 0 <= delta ==> NewValue(false, value, delta) == if delta >= value then 0 else value - delta
  {
  }

  /** A value as the protocol stores it: a number, anything that is no digit, and the line end. */
  predicate Holds(data: string, n: nat) {
    && |data| >= 2 && data[|data| - 2..] == "\r\n" && ReadNumber(data) == n && IsDigit(data[0])
  }

  lemma {:induction false} AllDigits(s: string, rest: string)
    requires forall c :: c in s ==> IsDigit(c)
    requires rest != [] && !IsDigit(rest[0])
    ensures DigitsAhead(s + rest) == |s|
  {
    if s == [] {
      assert s + rest == rest;
    } else {
      assert (s + rest)[1..] == s[1..] + rest;
      assert s[0] in s;
      AllDigits(s[1..], rest);
    }
  }

  /** A number written in decimal is read back, whatever follows that is no digit. */
  lemma ReadDecimal(n: nat, rest: string)
    requires rest != [] && !IsDigit(rest[0])
    ensures ReadNumber(Decimal(n) + rest) == n && |Decimal(n)| > 0 && IsDigit(Decimal(n)[0])
  {
    DecimalIs(n);
    DecimalLength(n);
    hide Decimal, Denoted, DigitsAhead;
    AllDigits(Decimal(n), rest);
    assert (Decimal(n) + rest)[..|Decimal(n)|] == Decimal(n);
    assert Decimal(n)[0] in Decimal(n);
  }

  lemma DecimalLength(n: nat)
    ensures |Decimal(n)| > 0
  {
  }

  lemma RenumberedHolds(was: string, n: nat, r: string)
    requires |Decimal(n)| + 2 <= |was| && was[|was| - 2..] == "\r\n" && Renumbered(was, Decimal(n), r)
    ensures Holds(r, n)
  {
    hide Decimal, ReadNumber;
    var k := |Decimal(n)|;
    assert r == Decimal(n) + r[k..];
    assert r[|r| - 2] == r[|r| - 2..][0];
    if k < |r| - 2 {
      assert r[k] == ' ';
    }
    ReadDecimal(n, r[k..]);
  }

  lemma ReplacedHolds(n: nat)
    ensures Holds(Decimal(n) + "\r\n", n)
  {
    hide Decimal, ReadNumber;
    ReadDecimal(n, "\r\n");
    var data := Decimal(n) + "\r\n";
    assert data[|data| - 2..] == "\r\n";
  }

  /** incr or decr of a key that holds the number `value`: afterwards it holds the new value, with the flags and
      the expiry it had; only if the number has become longer than the text that was there and no chunk is had is
      it as it was. */
  lemma CounterStep(s: Cache, key: Key, incr: bool, value: nat, delta: int, g: Grants)
    requires Valid(s) && Readable(View(s), key, s.now, s.oldestLive)
    requires value < WRAP64 && -0x8000_0000_0000_0000 <= delta < 0x8000_0000_0000_0000
    requires Holds(View(s)[key].data, value)
    ensures var n := NewValue(incr, value, delta);
            var t, e := DoIncr(s, key, Decimal(n), g), View(s)[key];
            && key in View(t) && t.held == s.held
            && var f := View(t)[key];
            && f.flags == e.flags && f.exptime == e.exptime
            && ((Holds(f.data, n) && f.casId == s.casCounter + 1)
                || (f == e && |Decimal(n)| + 2 > |e.data| && !Granted(s, key, e.flags, |Decimal(n)| + 2, g)))
  {
    hide Valid, View, Readable, DoIncr, Holds, NewValue, Decimal, Granted, Renumbered;
    var n := NewValue(incr, value, delta);
    ReadableIn(View(s), key, s.now, s.oldestLive);
    HoldsParts(View(s)[key].data, value);
    var text := Decimal(n);
    if |text| + 2 <= |View(s)[key].data| {
      IncrInPlace(s, key, text, g);
      var t := DoIncr(s, key, text, g);
      RenumberedHolds(View(s)[key].data, n, View(t)[key].data);
    } else {
      var lost, room := IncrReplaced(s, key, text, g);
      ReplacedHolds(n);
    }
  }

  lemma HoldsParts(data: string, n: nat)
    requires Holds(data, n)
    ensures |data| >= 2 && data[|data| - 2..] == "\r\n"
  {
  }

  lemma ReadableIn(view: map<Key, Entry>, key: Key, now: nat, oldest: nat)
    requires Readable(view, key, now, oldest)
    ensures key in view
  {
  }
}
