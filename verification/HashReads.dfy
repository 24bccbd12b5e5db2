/** The three ways in which hash of assoc.c reads a key: by words, by half words and by bytes. */
module HashReads {
  import opened Hash

  /** The memory that a key read by words lies in: it goes on behind the key to the end of the key's last
      word. */
  predicate Covers(mem: seq<Byte>, length: nat) {
    length <= |mem| && |mem| % 4 == 0
  }

  function ByteAt(mem: seq<Byte>, i: nat): (b: int)
    requires i < |mem|
    ensures 0 <= b < 256
  {
    mem[i]
  }

  /** A 32-bit read. */
  function Load32(mem: seq<Byte>, i: nat): Word
    requires i + 4 <= |mem|
  {
    ByteAt(mem, i) + 0x100 * ByteAt(mem, i + 1) + 0x1_0000 * ByteAt(mem, i + 2) + 0x100_0000 * ByteAt(mem, i + 3)
  }

  /** A 16-bit read. */
  function Load16(mem: seq<Byte>, i: nat): Word
    requires i + 2 <= |mem|
  {
    ByteAt(mem, i) + 0x100 * ByteAt(mem, i + 1)
  }

  /** Adding one after another is adding the sum. */
  lemma PlusSum(x: Word, y: Word, z: Word)
    requires y + z < WRAP32
    ensures Plus(Plus(x, y), z) == Plus(x, y + z)
  {
  }

  lemma PlusZero(x: Word)
    ensures Plus(x, 0) == x
  {
  }

  lemma WordWhole(mem: seq<Byte>, length: nat, i: nat)
    requires i + 4 <= length <= |mem|
    ensures WordAt(mem[..length], i) == Load32(mem, i)
    ensures Load32(mem, i) == Load16(mem, i) + 0x1_0000 * Load16(mem, i + 2)
  {
  }

  lemma WordPart(mem: seq<Byte>, length: nat, i: nat)
    requires length <= |mem|
    ensures length <= i ==> WordAt(mem[..length], i) == 0
    ensures length == i + 1 ==> WordAt(mem[..length], i) == ByteAt(mem, i)
    ensures length == i + 2 ==> WordAt(mem[..length], i) == Load16(mem, i)
    ensures length == i + 3 ==> WordAt(mem[..length], i) == 0x1_0000 * ByteAt(mem, i + 2) + Load16(mem, i)
  {
  }

  /** Masking a word that goes on behind the key. */
  lemma WordMasked(mem: seq<Byte>, length: nat, i: nat)
    requires i + 4 <= |mem| && length <= |mem|
    ensures length == i + 3 ==> WordAt(mem[..length], i) == Load32(mem, i) % 0x100_0000
    ensures length == i + 2 ==> WordAt(mem[..length], i) == Load32(mem, i) % 0x1_0000
    ensures length == i + 1 ==> WordAt(mem[..length], i) == Load32(mem, i) % 0x100
  {
    hide WordAt, Load16;
    WordPart(mem, length, i);
    var b0, b1, b2, b3 := ByteAt(mem, i), ByteAt(mem, i + 1), ByteAt(mem, i + 2), ByteAt(mem, i + 3);
    LowBytes(b0, b1, b2, b3);
    HalfIs(mem, i);
  }

  lemma HalfIs(mem: seq<Byte>, i: nat)
    requires i + 2 <= |mem|
    ensures Load16(mem, i) == ByteAt(mem, i) + 0x100 * ByteAt(mem, i + 1)
  {
  }

  lemma LowBytes(b0: int, b1: int, b2: int, b3: int)
    requires 0 <= b0 < 256 && 0 <= b1 < 256 && 0 <= b2 < 256 && 0 <= b3 < 256
    ensures var w := b0 + 0x100 * b1 + 0x1_0000 * b2 + 0x100_0000 * b3;
            && w % 0x100 == b0 && w % 0x1_0000 == b0 + 0x100 * b1
            && w % 0x100_0000 == b0 + 0x100 * b1 + 0x1_0000 * b2
  {
  }

  // ---- one word of a block --------------------------------------------------------------------------

  /** From aligned memory: the whole word, masked if the key ends in it. */
  method AddWord(x: Word, mem: seq<Byte>, i: nat, length: nat) returns (y: Word)
    requires Covers(mem, length) && i % 4 == 0
    ensures y == Plus(x, WordAt(mem[..length], i))
  {
    hide Plus, WordAt, Load32;
    PlusZero(x);
    WordPart(mem, length, i);
    if length <= i {
      return x;
    }
    NextWord(mem, i);
    WordMasked(mem, length, i);
    if i + 4 <= length {
      WordWhole(mem, length, i);
      y := Plus(x, Load32(mem, i));
    } else if length == i + 3 {
      y := Plus(x, Load32(mem, i) % 0x100_0000);
    } else if length == i + 2 {
      y := Plus(x, Load32(mem, i) % 0x1_0000);
    } else {
      y := Plus(x, Load32(mem, i) % 0x100);
    }
  }

  lemma NextWord(mem: seq<Byte>, i: nat)
    requires |mem| % 4 == 0 && i % 4 == 0 && i < |mem|
    ensures i + 4 <= |mem|
  {
  }

  /** By half words, the last byte of the key alone. */
  method AddHalves(x: Word, mem: seq<Byte>, i: nat, length: nat) returns (y: Word)
    requires length <= |mem|
    ensures y == Plus(x, WordAt(mem[..length], i))
  {
    hide Plus, WordAt;
    PlusZero(x);
    WordPart(mem, length, i);
    y := x;
    if i + 4 <= length {
      WordWhole(mem, length, i);
      y := Plus(y, Load16(mem, i) + 0x1_0000 * Load16(mem, i + 2));
    } else if length == i + 3 {
      PlusSum(x, 0x1_0000 * ByteAt(mem, i + 2), Load16(mem, i));
      y := Plus(y, 0x1_0000 * ByteAt(mem, i + 2));
      y := Plus(y, Load16(mem, i));
    } else if length == i + 2 {
      y := Plus(y, Load16(mem, i));
    } else if length == i + 1 {
      y := Plus(y, ByteAt(mem, i));
    }
  }

  /** Byte by byte, from the last byte of the word that is in the key. */
  method AddBytes(x: Word, mem: seq<Byte>, i: nat, length: nat) returns (y: Word)
    requires length <= |mem|
    ensures y == Plus(x, WordAt(mem[..length], i))
  {
    hide Plus;
    PlusZero(x);
    y := x;
    ghost var sum: Word := 0;
    if length >= i + 4 {
      y := Plus(y, 0x100_0000 * ByteAt(mem, i + 3));
      sum := 0x100_0000 * ByteAt(mem, i + 3);
    }
    if length >= i + 3 {
      PlusSum(x, sum, 0x1_0000 * ByteAt(mem, i + 2));
      y := Plus(y, 0x1_0000 * ByteAt(mem, i + 2));
      sum := sum + 0x1_0000 * ByteAt(mem, i + 2);
    }
    if length >= i + 2 {
      PlusSum(x, sum, 0x100 * ByteAt(mem, i + 1));
      y := Plus(y, 0x100 * ByteAt(mem, i + 1));
      sum := sum + 0x100 * ByteAt(mem, i + 1);
    }
    if length >= i + 1 {
      PlusSum(x, sum, ByteAt(mem, i));
      y := Plus(y, ByteAt(mem, i));
      sum := sum + ByteAt(mem, i);
    }
    assert sum == WordAt(mem[..length], i);
  }

  // ---- one block ------------------------------------------------------------------------------------

  /** How the key is read, which depends on its address. */
  datatype Reading = ByWords | ByHalves | ByBytes

  function ReadingAt(address: nat): Reading {
    if address % 4 == 0 then ByWords else if address % 2 == 0 then ByHalves else ByBytes
  }

  method AddOne(how: Reading, x: Word, mem: seq<Byte>, i: nat, length: nat) returns (y: Word)
    requires length <= |mem| && (how.ByWords? ==> Covers(mem, length) && i % 4 == 0)
    ensures y == Plus(x, WordAt(mem[..length], i))
  {
    match how {
      case ByWords => y := AddWord(x, mem, i, length);
      case ByHalves => y := AddHalves(x, mem, i, length);
      case ByBytes => y := AddBytes(x, mem, i, length);
    }
  }

  /** The three additions of a block. */
  method AddBlock(how: Reading, s: State, mem: seq<Byte>, k: nat, length: nat) returns (t: State)
    requires k <= length <= |mem| && (how.ByWords? ==> Covers(mem, length) && k % 4 == 0)
    ensures t == Absorb(s, mem[k..length])
  {
    hide Plus, WordAt;
    var c := AddOne(how, s.c, mem, k + 8, length);
    var b := AddOne(how, s.b, mem, k + 4, length);
    var a := AddOne(how, s.a, mem, k, length);
    Shifted(mem, length, k, 0);
    Shifted(mem, length, k, 4);
    Shifted(mem, length, k, 8);
    t := State(a, b, c);
  }

  lemma Shifted(mem: seq<Byte>, length: nat, k: nat, i: nat)
    requires k <= length <= |mem|
    ensures WordAt(mem[k..length], i) == WordAt(mem[..length], k + i)
  {
  }

  // ---- the whole key ----------------------------------------------------------------------------------

  /** hash: whatever the key's address, and so whether it is read by words, by half words or by bytes,
      and whatever lies behind it in its last word, the result is the same function of its bytes.  Only the
      reading by words touches memory behind the key. */
  method HashKey(address: nat, mem: seq<Byte>, length: nat, initval: Word) returns (h: Word)
    requires length <= |mem| && (address % 4 == 0 ==> Covers(mem, length))
    ensures h == HashOf(mem[..length], initval)
  {
    hide Mix, Final, Absorb;
    var how := ReadingAt(address);
    var s := Start(length, initval);
    var k, left := 0, length;
    assert mem[0..length] == mem[..length];
    while left > 12
      invariant k + left == length && k % 4 == 0
      invariant HashFrom(mem[k..length], s) == HashOf(mem[..length], initval)
      decreases left
    {
      var t := AddBlock(how, s, mem, k, length);
      assert mem[k..length][12..] == mem[k + 12..length];
      s := MixInPlace(t);
      left := left - 12;
      k := k + 12;
    }
    if left == 0 {
      return s.c;
    }
    var t := AddBlock(how, s, mem, k, length);
    t := FinalInPlace(t);
    h := t.c;
  }
}
