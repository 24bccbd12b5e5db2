/** The hash of assoc.c on a little-endian machine, in 32-bit words that wrap around. */
module Hash {

  const WRAP32: int := 0x1_0000_0000

  type Byte = x: int | 0 <= x < 256
  type Word = x: int | 0 <= x < WRAP32

  datatype State = State(a: Word, b: Word, c: Word)

  // ---- 32-bit words -------------------------------------------------------------------------------

  function Plus(x: Word, y: Word): Word {
    (x + y) % WRAP32
  }

  function Minus(x: Word, y: Word): Word {
    (x - y) % WRAP32
  }

  function Pow2(k: nat): (r: nat)
    ensures r > 0
  {
    if k == 0 then 1 else 2 * Pow2(k - 1)
  }

  /** Exclusive or of the lowest n bits. */
  function XorBits(x: nat, y: nat, n: nat): (r: nat)
    ensures r < Pow2(n)
    decreases n
  {
    if n == 0 then 0 else (x % 2 + y % 2) % 2 + 2 * XorBits(x / 2, y / 2, n - 1)
  }

  function Xor(x: Word, y: Word): Word {
    Pow2Values();
    XorBits(x, y, 32)
  }

  lemma Pow2Values()
    ensures Pow2(32) == WRAP32
  {
    assert Pow2(8) == 256;
    assert Pow2(16) == 65536;
    assert Pow2(24) == 0x100_0000;
  }

  /** rot: a shift to the left, the bits that fall out put back on the right. */
  function Rot(x: Word, k: nat): Word
    requires 0 < k < 32
  {
    RotBound(x, k);
    Xor((x * Pow2(k)) % WRAP32, x / Pow2(32 - k))
  }

  lemma RotBound(x: Word, k: nat)
    requires 0 < k < 32
    ensures 0 <= x / Pow2(32 - k) < WRAP32 && 0 <= x * Pow2(k)
  {
    hide Pow2;
    Quotient(x, Pow2(32 - k));
    Product(x, Pow2(k));
  }

  lemma Quotient(x: nat, p: nat)
    requires p > 0
    ensures 0 <= x / p <= x
  {
    assert x == p * (x / p) + x % p;
    Multiple(p, x / p);
  }

  lemma Multiple(p: int, q: int)
    requires p >= 1 && q >= 0
    ensures p * q >= q
  {
    assert p * q == q + (p - 1) * q;
  }

  lemma Product(x: nat, p: nat)
    ensures 0 <= x * p
  {
  }

  lemma PlusMinus(x: Word, y: Word)
    ensures Minus(Plus(x, y), y) == x && Minus(Plus(y, x), y) == x && Plus(Minus(x, y), y) == x
  {
    hide Plus, Minus;
    PlusIs(x, y);
    PlusIs(y, x);
    MinusIs(Plus(x, y), y);
    MinusIs(x, y);
    PlusIs(Minus(x, y), y);
  }

  lemma PlusIs(x: Word, y: Word)
    ensures Plus(x, y) == if x + y < WRAP32 then x + y else x + y - WRAP32
  {
  }

  lemma MinusIs(x: Word, y: Word)
    ensures Minus(x, y) == if x < y then x - y + WRAP32 else x - y
  {
  }

  lemma {:induction false} XorBitsBack(x: nat, y: nat, n: nat)
    requires x < Pow2(n)
    ensures XorBits(XorBits(x, y, n), y, n) == x
    decreases n
  {
    if n > 0 {
      XorBitsBack(x / 2, y / 2, n - 1);
      var r := XorBits(x / 2, y / 2, n - 1);
      var bit := (x % 2 + y % 2) % 2;
      BitFirst(bit, r);
      BitBack(x % 2, y % 2);
      hide Pow2;
    }
  }

  lemma BitFirst(bit: nat, r: nat)
    requires bit < 2
    ensures (bit + 2 * r) % 2 == bit && (bit + 2 * r) / 2 == r
  {
  }

  lemma BitBack(a: nat, b: nat)
    requires a < 2 && b < 2
    ensures ((a + b) % 2 + b) % 2 == a
  {
  }

  lemma XorXor(x: Word, y: Word)
    ensures Xor(Xor(x, y), y) == x
  {
    Pow2Values();
    XorBitsBack(x, y, 32);
  }

  // ---- mix and final ------------------------------------------------------------------------------

  /** One line of mix on (x, y, z): x -= z; x ^= rot(z, k); z += y.  The next line is on (y, z, x). */
  function MixLine(s: State, k: nat): State
    requires 0 < k < 32
  {
    State(s.b, Plus(s.c, s.b), Xor(Minus(s.a, s.c), Rot(s.c, k)))
  }

  function UnmixLine(t: State, k: nat): State
    requires 0 < k < 32
  {
    var c := Minus(t.b, t.a);
    State(Plus(Xor(t.c, Rot(c, k)), c), t.a, c)
  }

  lemma LineBack(s: State, k: nat)
    requires 0 < k < 32
    ensures UnmixLine(MixLine(s, k), k) == s && MixLine(UnmixLine(s, k), k) == s
  {
    hide Rot, Plus, Minus, Xor;
    PlusMinus(s.c, s.b);
    XorXor(Minus(s.a, s.c), Rot(s.c, k));
    PlusMinus(s.a, s.c);
    var c := Minus(s.b, s.a);
    PlusMinus(s.b, s.a);
    PlusMinus(Xor(s.c, Rot(c, k)), c);
    XorXor(s.c, Rot(c, k));
  }

  /** mix */
  function Mix(s: State): State {
    MixLine(MixLine(MixLine(MixLine(MixLine(MixLine(s, 4), 6), 8), 16), 19), 4)
  }

  function Unmix(t: State): State {
    UnmixLine(UnmixLine(UnmixLine(UnmixLine(UnmixLine(UnmixLine(t, 4), 19), 16), 8), 6), 4)
  }

  /** mix loses nothing: it is a bijection on triples of words. */
  lemma MixReversible(s: State)
    ensures Unmix(Mix(s)) == s && Mix(Unmix(s)) == s
  {
    hide MixLine, UnmixLine;
    var s1 := MixLine(s, 4);
    var s2 := MixLine(s1, 6);
    var s3 := MixLine(s2, 8);
    var s4 := MixLine(s3, 16);
    var s5 := MixLine(s4, 19);
    LineBack(s, 4);
    LineBack(s1, 6);
    LineBack(s2, 8);
    LineBack(s3, 16);
    LineBack(s4, 19);
    LineBack(s5, 4);
    var t1 := UnmixLine(s, 4);
    var t2 := UnmixLine(t1, 19);
    var t3 := UnmixLine(t2, 16);
    var t4 := UnmixLine(t3, 8);
    var t5 := UnmixLine(t4, 6);
    LineBack(t1, 19);
    LineBack(t2, 16);
    LineBack(t3, 8);
    LineBack(t4, 6);
    LineBack(t5, 4);
  }

  /** One line of final on (x, y, z): z ^= y; z -= rot(y, k).  The next line is on (y, z, x). */
  function FinalLine(s: State, k: nat): State
    requires 0 < k < 32
  {
    State(s.b, Minus(Xor(s.c, s.b), Rot(s.b, k)), s.a)
  }

  function UnfinalLine(t: State, k: nat): State
    requires 0 < k < 32
  {
    State(t.c, t.a, Xor(Plus(t.b, Rot(t.a, k)), t.a))
  }

  lemma FinalBack(s: State, k: nat)
    requires 0 < k < 32
    ensures UnfinalLine(FinalLine(s, k), k) == s && FinalLine(UnfinalLine(s, k), k) == s
  {
    hide Rot, Plus, Minus, Xor;
    PlusMinus(Xor(s.c, s.b), Rot(s.b, k));
    XorXor(s.c, s.b);
    XorXor(Plus(s.b, Rot(s.a, k)), s.a);
    PlusMinus(s.b, Rot(s.a, k));
  }

  /** final; after its seven lines the words stand in the order (b, c, a). */
  function Final(s: State): State {
    var t := FinalLine(FinalLine(FinalLine(FinalLine(FinalLine(FinalLine(FinalLine(s, 14), 11), 25), 16), 4), 14), 24);
    State(t.c, t.a, t.b)
  }

  function Unfinal(u: State): State {
    UnfinalLine(UnfinalLine(UnfinalLine(UnfinalLine(UnfinalLine(UnfinalLine(UnfinalLine(
      State(u.b, u.c, u.a), 24), 14), 4), 16), 25), 11), 14)
  }

  /** final, too, is a bijection on triples of words. */
  lemma FinalReversible(s: State)
    ensures Unfinal(Final(s)) == s && Final(Unfinal(s)) == s
  {
    hide FinalLine, UnfinalLine;
    var s1 := FinalLine(s, 14);
    var s2 := FinalLine(s1, 11);
    var s3 := FinalLine(s2, 25);
    var s4 := FinalLine(s3, 16);
    var s5 := FinalLine(s4, 4);
    var s6 := FinalLine(s5, 14);
    FinalBack(s, 14);
    FinalBack(s1, 11);
    FinalBack(s2, 25);
    FinalBack(s3, 16);
    FinalBack(s4, 4);
    FinalBack(s5, 14);
    FinalBack(s6, 24);
    var t0 := State(s.b, s.c, s.a);
    var t1 := UnfinalLine(t0, 24);
    var t2 := UnfinalLine(t1, 14);
    var t3 := UnfinalLine(t2, 4);
    var t4 := UnfinalLine(t3, 16);
    var t5 := UnfinalLine(t4, 25);
    var t6 := UnfinalLine(t5, 11);
    FinalBack(t0, 24);
    FinalBack(t1, 14);
    FinalBack(t2, 4);
    FinalBack(t3, 16);
    FinalBack(t4, 25);
    FinalBack(t5, 11);
    FinalBack(t6, 14);
  }

  /** The statements of mix. */
  method MixInPlace(s: State) returns (t: State)
    ensures t == Mix(s)
  {
    hide Rot, Plus, Minus, Xor;
    var a, b, c := s.a, s.b, s.c;
    a := Minus(a, c); a := Xor(a, Rot(c, 4)); c := Plus(c, b);
    b := Minus(b, a); b := Xor(b, Rot(a, 6)); a := Plus(a, c);
    c := Minus(c, b); c := Xor(c, Rot(b, 8)); b := Plus(b, a);
    a := Minus(a, c); a := Xor(a, Rot(c, 16)); c := Plus(c, b);
    b := Minus(b, a); b := Xor(b, Rot(a, 19)); a := Plus(a, c);
    c := Minus(c, b); c := Xor(c, Rot(b, 4)); b := Plus(b, a);
    t := State(a, b, c);
  }

  /** The statements of final. */
  method FinalInPlace(s: State) returns (t: State)
    ensures t == Final(s)
  {
    hide Rot, Plus, Minus, Xor;
    var a, b, c := s.a, s.b, s.c;
    c := Xor(c, b); c := Minus(c, Rot(b, 14));
    a := Xor(a, c); a := Minus(a, Rot(c, 11));
    b := Xor(b, a); b := Minus(b, Rot(a, 25));
    c := Xor(c, b); c := Minus(c, Rot(b, 16));
    a := Xor(a, c); a := Minus(a, Rot(c, 4));
    b := Xor(b, a); b := Minus(b, Rot(a, 14));
    c := Xor(c, b); c := Minus(c, Rot(b, 24));
    t := State(a, b, c);
  }

  // ---- what is hashed -------------------------------------------------------------------------------

  /** Byte i of a key, 0 behind its end. */
  function At(key: seq<Byte>, i: nat): Byte {
    if i < |key| then key[i] else 0
  }

  /** Four bytes of a key as a little-endian word. */
  function WordAt(key: seq<Byte>, i: nat): Word {
    At(key, i) + 0x100 * At(key, i + 1) + 0x1_0000 * At(key, i + 2) + 0x100_0000 * At(key, i + 3)
  }

  function Absorb(s: State, key: seq<Byte>): State {
    State(Plus(s.a, WordAt(key, 0)), Plus(s.b, WordAt(key, 4)), Plus(s.c, WordAt(key, 8)))
  }

  /** The loop over blocks of 12 bytes, and the last block. */
  function HashFrom(key: seq<Byte>, s: State): Word
    decreases |key|
  {
    if |key| > 12 then HashFrom(key[12..], Mix(Absorb(s, key)))
    else if |key| == 0 then s.c
    else Final(Absorb(s, key)).c
  }

  function Start(length: nat, initval: Word): State {
    var x := Plus(Plus(0xdeadbeef, length % WRAP32), initval);
    State(x, x, x)
  }

  /** hash, as a function of the key's bytes alone. */
  function HashOf(key: seq<Byte>, initval: Word): Word {
    HashFrom(key, Start(|key|, initval))
  }
}
