/**
 CRC-32 as the boot configuration computes it: the reflected bit-serial algorithm, its equality with the
 table-driven algorithm of section 8 of RFC 1952, and the corruption it is guaranteed to detect.
 */
module Crc32 {

  const POLYNOMIAL: bv32 := 0xedb88320
  const ONES: bv32 := 0xffff_ffff

  function Iterate<T>(f: T -> T, x: T, count: nat): T {
    if count == 0 then x else f(Iterate(f, x, count - 1))
  }

  /** One bit of polynomial division. */
  function Bit(c: bv32): bv32 {
    if c & 1 == 1 then (c >> 1) ^ POLYNOMIAL else c >> 1
  }

  function Byte(c: bv32): bv32 {
    Iterate(Bit, c, 8)
  }

  /** One byte of the message enters the division. */
  function Octet(c: bv32, value: bv8): bv32 {
    Byte(c ^ (value as bv32))
  }

  function FoldLeft<S, V>(step: (S, V) -> S, s: S, data: seq<V>): S {
    if data == [] then s else step(FoldLeft(step, s, data[..|data| - 1]), data[|data| - 1])
  }

  function Crc(data: seq<bv8>): bv32 {
    FoldLeft(Octet, ONES, data) ^ ONES
  }

  // ---- The parameters --------------------------------------------------------------------------------------

  /** The term x^e of the generator, in the reflected order of the register. */
  function Term(e: nat): bv32
    requires e < 32
  {
    (1 as bv32) << (31 - e)
  }

  /** The generator of section 8 of RFC 1952: x^32 + x^26 + x^23 + x^22 + x^16 + x^12 + ... + x^2 + x + 1. */
  lemma PolynomialIsGenerator()
    ensures POLYNOMIAL == Term(26) | Term(23) | Term(22) | Term(16) | Term(12) | Term(11) | Term(10) | Term(8) | Term(7)
                          | Term(5) | Term(4) | Term(2) | Term(1) | Term(0)
  {
  }

  lemma ByteUnrolled(c: bv32)
    ensures Byte(c) == Bit(Bit(Bit(Bit(Bit(Bit(Bit(Bit(c))))))))
  {
    assert Iterate(Bit, c, 2) == Bit(Bit(c));
    assert Iterate(Bit, c, 4) == Bit(Bit(Iterate(Bit, c, 2)));
    assert Iterate(Bit, c, 6) == Bit(Bit(Iterate(Bit, c, 4)));
  }

  /** The checksum of "a", which fixes initial word, polynomial, bit order and final inversion together. */
  lemma CheckValue()
    ensures Crc([0x61]) == 0xe8b7be43
  {
    ByteUnrolled(0xffff_ffff ^ 0x61);
    assert [0x61 as bv8][..0] == [];
    assert Crc([0x61]) == Octet(FoldLeft(Octet, ONES, []), 0x61) ^ ONES;
  }

  method CrcByte(crc: bv32, value: bv8) returns (r: bv32)
    ensures r == Octet(crc, value)
  {
    r := crc ^ (value as bv32);
    for bit := 0 to 8
      invariant r == Iterate(Bit, crc ^ (value as bv32), bit)
    {
      r := (r >> 1) ^ (0xedb88320 & (0 - (r & 1)));
    }
  }

  method BootConfigCrc32(data: seq<bv8>) returns (r: bv32)
    ensures r == Crc(data)
  {
    var crc: bv32 := 0xffff_ffff;
    for index := 0 to |data|
      invariant crc == FoldLeft(Octet, ONES, data[..index])
    {
      assert data[..index + 1][..index] == data[..index];
      crc := CrcByte(crc, data[index]);
    }
    assert data[..|data|] == data;
    r := crc ^ 0xffff_ffff;
  }

  // ---- Division is linear and loses nothing ----------------------------------------------------------------

  lemma {:induction false} IterateInjective<T(!new)>(f: T -> T, x: T, y: T, count: nat)
    requires forall a, b :: f(a) == f(b) ==> a == b
    requires Iterate(f, x, count) == Iterate(f, y, count)
    ensures x == y
  {
    if count != 0 {
      IterateInjective(f, x, y, count - 1);
    }
  }

  lemma {:induction false} IterateMixes<T(!new)>(f: T -> T, mix: (T, T) -> T, x: T, y: T, count: nat)
    requires forall a, b :: f(mix(a, b)) == mix(f(a), f(b))
    ensures Iterate(f, mix(x, y), count) == mix(Iterate(f, x, count), Iterate(f, y, count))
  {
    if count != 0 {
      IterateMixes(f, mix, x, y, count - 1);
    }
  }

  lemma IterateEight<T>(f: T -> T, y: T, y1: T, y2: T, y3: T, y4: T, y5: T, y6: T, y7: T, y8: T)
    requires f(y) == y1 && f(y1) == y2 && f(y2) == y3 && f(y3) == y4
    requires f(y4) == y5 && f(y5) == y6 && f(y6) == y7 && f(y7) == y8
    ensures Iterate(f, y, 8) == y8
  {
    assert Iterate(f, y, 1) == y1;
    assert Iterate(f, y, 3) == y3;
    assert Iterate(f, y, 5) == y5;
    assert Iterate(f, y, 7) == y7;
  }

  lemma BitInjective(x: bv32, y: bv32)
    requires Bit(x) == Bit(y)
    ensures x == y
  {
    assert Bit(x) & 0x8000_0000 == (x & 1) << 31;
    assert Bit(y) & 0x8000_0000 == (y & 1) << 31;
  }

  lemma LowBitOfXor(x: bv32, y: bv32)
    ensures (x ^ y) & 1 == 1 <==> (x & 1 == 1) != (y & 1 == 1)
  {
  }

  lemma ShiftOfXor(x: bv32, y: bv32)
    ensures (x ^ y) >> 1 == (x >> 1) ^ (y >> 1)
  {
  }

  lemma XorMoves(x: bv32, y: bv32, z: bv32)
    ensures (x ^ z) ^ y == (x ^ y) ^ z && x ^ (y ^ z) == (x ^ y) ^ z && (x ^ z) ^ (y ^ z) == x ^ y
  {
  }

  lemma BitMixes(x: bv32, y: bv32)
    ensures Bit(x ^ y) == Bit(x) ^ Bit(y)
  {
    LowBitOfXor(x, y);
    ShiftOfXor(x, y);
    XorMoves(x >> 1, y >> 1, POLYNOMIAL);
  }

  lemma EightShifts(y: bv32, y1: bv32, y2: bv32, y3: bv32, y4: bv32, y5: bv32, y6: bv32, y7: bv32, y8: bv32)
    requires y & 0xff == 0
    requires y1 == y >> 1 && y2 == y1 >> 1 && y3 == y2 >> 1 && y4 == y3 >> 1
    requires y5 == y4 >> 1 && y6 == y5 >> 1 && y7 == y6 >> 1 && y8 == y7 >> 1
    ensures y & 1 == 0 && y1 & 1 == 0 && y2 & 1 == 0 && y3 & 1 == 0
    ensures y4 & 1 == 0 && y5 & 1 == 0 && y6 & 1 == 0 && y7 & 1 == 0 && y8 == y >> 8
  {
  }

  lemma EvenBit(y: bv32, half: bv32)
    requires y & 1 == 0 && half == y >> 1
    ensures Bit(y) == half
  {
  }

  lemma EvenBits(y: bv32, y1: bv32, y2: bv32, y3: bv32, y4: bv32)
    requires y1 == y >> 1 && y2 == y1 >> 1 && y3 == y2 >> 1 && y4 == y3 >> 1
    requires y & 1 == 0 && y1 & 1 == 0 && y2 & 1 == 0 && y3 & 1 == 0
    ensures Bit(y) == y1 && Bit(y1) == y2 && Bit(y2) == y3 && Bit(y3) == y4
  {
    EvenBit(y, y1);
    EvenBit(y1, y2);
    EvenBit(y2, y3);
    EvenBit(y3, y4);
  }

  lemma EvenByte(y: bv32, y1: bv32, y2: bv32, y3: bv32, y4: bv32, y5: bv32, y6: bv32, y7: bv32, y8: bv32)
    requires y & 0xff == 0
    requires y1 == y >> 1 && y2 == y1 >> 1 && y3 == y2 >> 1 && y4 == y3 >> 1
    requires y5 == y4 >> 1 && y6 == y5 >> 1 && y7 == y6 >> 1 && y8 == y7 >> 1
    ensures Bit(y) == y1 && Bit(y1) == y2 && Bit(y2) == y3 && Bit(y3) == y4
    ensures Bit(y4) == y5 && Bit(y5) == y6 && Bit(y6) == y7 && Bit(y7) == y8 && y8 == y >> 8
  {
    EightShifts(y, y1, y2, y3, y4, y5, y6, y7, y8);
    EvenBits(y, y1, y2, y3, y4);
    EvenBits(y4, y5, y6, y7, y8);
  }

  lemma BitEight(y: bv32, y1: bv32, y2: bv32, y3: bv32, y4: bv32, y5: bv32, y6: bv32, y7: bv32, y8: bv32)
    requires Bit(y) == y1 && Bit(y1) == y2 && Bit(y2) == y3 && Bit(y3) == y4
    requires Bit(y4) == y5 && Bit(y5) == y6 && Bit(y6) == y7 && Bit(y7) == y8
    ensures Iterate(Bit, y, 8) == y8
  {
    IterateEight(Bit, y, y1, y2, y3, y4, y5, y6, y7, y8);
  }

  lemma MoveDown(y: bv32, y1: bv32, y2: bv32, y3: bv32, y4: bv32, y5: bv32, y6: bv32, y7: bv32, y8: bv32)
    requires y & 0xff == 0
    requires y1 == y >> 1 && y2 == y1 >> 1 && y3 == y2 >> 1 && y4 == y3 >> 1
    requires y5 == y4 >> 1 && y6 == y5 >> 1 && y7 == y6 >> 1 && y8 == y7 >> 1
    ensures Byte(y) == y >> 8
  {
    EvenByte(y, y1, y2, y3, y4, y5, y6, y7, y8);
    BitEight(y, y1, y2, y3, y4, y5, y6, y7, y8);
  }

  /** Bits that the division has not reached pass down a byte unchanged. */
  lemma BitsAboveMoveDown(y: bv32)
    requires y & 0xff == 0
    ensures Byte(y) == y >> 8
  {
    var y1 := y >> 1;
    var y2 := y1 >> 1;
    var y3 := y2 >> 1;
    var y4 := y3 >> 1;
    var y5 := y4 >> 1;
    var y6 := y5 >> 1;
    var y7 := y6 >> 1;
    var y8 := y7 >> 1;
    MoveDown(y, y1, y2, y3, y4, y5, y6, y7, y8);
  }

  function Xor(x: bv32, y: bv32): bv32 {
    x ^ y
  }

  lemma ByteMixes(x: bv32, y: bv32)
    ensures Byte(Xor(x, y)) == Xor(Byte(x), Byte(y))
  {
    forall a, b
      ensures Bit(Xor(a, b)) == Xor(Bit(a), Bit(b))
    {
      BitMixes(a, b);
    }
    IterateMixes(Bit, Xor, x, y, 8);
  }

  lemma ByteInjective(x: bv32, y: bv32)
    requires Byte(x) == Byte(y)
    ensures x == y
  {
    forall a, b | Bit(a) == Bit(b)
      ensures a == b
    {
      BitInjective(a, b);
    }
    IterateInjective(Bit, x, y, 8);
  }

  // ---- The table-driven form of RFC 1952 -------------------------------------------------------------------

  lemma SplitByte(x: bv32, low: bv32, high: bv32)
    requires low == x & 0xff && high == x & 0xffff_ff00
    ensures x == Xor(low, high)
  {
  }

  lemma NoLowByte(x: bv32, high: bv32)
    requires high == x & 0xffff_ff00
    ensures high & 0xff == 0
  {
  }

  lemma HighBytes(crc: bv32, value: bv8, x: bv32, high: bv32)
    requires x == crc ^ (value as bv32) && high == x & 0xffff_ff00
    ensures high >> 8 == crc >> 8
  {
  }

  lemma MovesDown(y: bv32, z: bv32)
    requires y & 0xff == 0 && z == y >> 8
    ensures Byte(y) == z
  {
    BitsAboveMoveDown(y);
  }

  lemma ByteOfParts(x: bv32, low: bv32, high: bv32, top: bv32)
    requires x == Xor(low, high) && Byte(high) == top
    ensures Byte(x) == Xor(Byte(low), top)
  {
    ByteMixes(low, high);
  }

  lemma BytesApart(x: bv32, low: bv32, high: bv32, top: bv32)
    requires x == Xor(low, high) && high & 0xff == 0 && top == high >> 8
    ensures Byte(x) == Xor(Byte(low), top)
  {
    MovesDown(high, top);
    ByteOfParts(x, low, high, top);
  }

  function TableOctet(c: bv32, value: bv8): bv32 {
    Xor(Byte((c ^ (value as bv32)) & 0xff), c >> 8)
  }

  /** One table look-up does the work of eight division steps. */
  lemma TableStep(c: bv32, value: bv8, x: bv32, low: bv32, high: bv32, top: bv32)
    requires x == c ^ (value as bv32) && low == x & 0xff && high == x & 0xffff_ff00 && top == c >> 8
    ensures Byte(x) == Xor(Byte(low), top)
  {
    SplitByte(x, low, high);
    NoLowByte(x, high);
    HighBytes(c, value, x, high);
    BytesApart(x, low, high, top);
  }

  lemma OctetOfByte(c: bv32, value: bv8, x: bv32, y: bv32)
    requires x == c ^ (value as bv32) && Byte(x) == y
    ensures Octet(c, value) == y
  {
  }

  lemma TableLookup(c: bv32, value: bv8, x: bv32, low: bv32, high: bv32, top: bv32)
    requires x == c ^ (value as bv32) && low == x & 0xff && high == x & 0xffff_ff00 && top == c >> 8
    ensures Octet(c, value) == Xor(Byte(low), top)
  {
    TableStep(c, value, x, low, high, top);
    OctetOfByte(c, value, x, Xor(Byte(low), top));
  }

  lemma TableOctetIsOctet(c: bv32, value: bv8)
    ensures TableOctet(c, value) == Octet(c, value)
  {
    var x := c ^ (value as bv32);
    TableLookup(c, value, x, x & 0xff, x & 0xffff_ff00, c >> 8);
  }

  /** The checksum of RFC 1952, which zlib computes. */
  function ZlibCrc(data: seq<bv8>): bv32 {
    FoldLeft(TableOctet, ONES, data) ^ ONES
  }

  lemma {:induction false} SameFold<S(!new), V(!new)>(f: (S, V) -> S, g: (S, V) -> S, s: S, data: seq<V>)
    requires forall a, v :: f(a, v) == g(a, v)
    ensures FoldLeft(f, s, data) == FoldLeft(g, s, data)
  {
    if data != [] {
      SameFold(f, g, s, data[..|data| - 1]);
    }
  }

  /** The firmware's bit-serial checksum and zlib's table-driven one agree on every message. */
  lemma ZlibAgrees(data: seq<bv8>)
    ensures ZlibCrc(data) == Crc(data)
  {
    forall c, v
      ensures TableOctet(c, v) == Octet(c, v)
    {
      TableOctetIsOctet(c, v);
    }
    SameFold(TableOctet, Octet, ONES, data);
  }

  // ---- What the checksum detects ---------------------------------------------------------------------------

  lemma {:induction false} FoldConcat<S, V>(f: (S, V) -> S, s: S, a: seq<V>, b: seq<V>)
    ensures FoldLeft(f, s, a + b) == FoldLeft(f, FoldLeft(f, s, a), b)
  {
    if b == [] {
      assert a + b == a;
    } else {
      assert (a + b)[..|a + b| - 1] == a + b[..|b| - 1];
      FoldConcat(f, s, a, b[..|b| - 1]);
    }
  }

  lemma {:induction false} FoldInjective<S(!new), V(!new)>(f: (S, V) -> S, s: S, t: S, data: seq<V>)
    requires forall a, b, v :: f(a, v) == f(b, v) ==> a == b
    requires FoldLeft(f, s, data) == FoldLeft(f, t, data)
    ensures s == t
  {
    if data != [] {
      FoldInjective(f, s, t, data[..|data| - 1]);
    }
  }

  lemma XorCancels(x: bv32, y: bv32, z: bv32)
    requires x ^ z == y ^ z
    ensures x == y
  {
    assert (x ^ z) ^ z == x;
    assert (y ^ z) ^ z == y;
  }

  lemma ByteOfXorInjective(c: bv32, d: bv32, v: bv32, x: bv32, y: bv32)
    requires x == c ^ v && y == d ^ v && Byte(x) == Byte(y)
    ensures c == d
  {
    ByteInjective(x, y);
    XorCancels(c, d, v);
  }

  lemma OctetInjective(c: bv32, d: bv32, value: bv8)
    requires Octet(c, value) == Octet(d, value)
    ensures c == d
  {
    ByteOfXorInjective(c, d, value as bv32, c ^ (value as bv32), d ^ (value as bv32));
  }

  /** A little-endian word. */
  function Word(b0: bv8, b1: bv8, b2: bv8, b3: bv8): bv32 {
    (b0 as bv32) | ((b1 as bv32) << 8) | ((b2 as bv32) << 16) | ((b3 as bv32) << 24)
  }

  function At(w: seq<bv8>, i: nat): bv8 {
    if i < |w| then w[i] else 0
  }

  /** A window of up to four bytes as one word. */
  function Pack(w: seq<bv8>): bv32 {
    Word(At(w, 0), At(w, 1), At(w, 2), At(w, 3))
  }

  function Enter(c: bv32, w: seq<bv8>): bv32 {
    Xor(c, Pack(w))
  }

  lemma WordSplits(b0: bv8, b1: bv8, b2: bv8, b3: bv8, whole: bv32, moved: bv32)
    requires whole == Word(b0, b1, b2, b3) && moved == Word(b1, b2, b3, 0) << 8
    ensures whole == (b0 as bv32) ^ moved
  {
  }

  lemma WordLow(b1: bv8, b2: bv8, b3: bv8, moved: bv32)
    requires moved == Word(b1, b2, b3, 0) << 8
    ensures moved & 0xff == 0
  {
  }

  lemma WordBack(b1: bv8, b2: bv8, b3: bv8, rest: bv32, moved: bv32)
    requires rest == Word(b1, b2, b3, 0) && moved == Word(b1, b2, b3, 0) << 8
    ensures rest == moved >> 8
  {
  }

  lemma WordByte0(b0: bv8, b1: bv8, b2: bv8, b3: bv8)
    ensures Word(b0, b1, b2, b3) & 0xff == b0 as bv32
  {
  }

  lemma WordByte1(b0: bv8, b1: bv8, b2: bv8, b3: bv8)
    ensures (Word(b0, b1, b2, b3) >> 8) & 0xff == b1 as bv32
  {
  }

  lemma WordByte2(b0: bv8, b1: bv8, b2: bv8, b3: bv8)
    ensures (Word(b0, b1, b2, b3) >> 16) & 0xff == b2 as bv32
  {
  }

  lemma WordByte3(b0: bv8, b1: bv8, b2: bv8, b3: bv8)
    ensures (Word(b0, b1, b2, b3) >> 24) & 0xff == b3 as bv32
  {
  }

  lemma WordInjective(a0: bv8, a1: bv8, a2: bv8, a3: bv8, b0: bv8, b1: bv8, b2: bv8, b3: bv8)
    requires Word(a0, a1, a2, a3) == Word(b0, b1, b2, b3)
    ensures a0 == b0 && a1 == b1 && a2 == b2 && a3 == b3
  {
    WordByte0(a0, a1, a2, a3);
    WordByte0(b0, b1, b2, b3);
    WordByte1(a0, a1, a2, a3);
    WordByte1(b0, b1, b2, b3);
    WordByte2(a0, a1, a2, a3);
    WordByte2(b0, b1, b2, b3);
    WordByte3(a0, a1, a2, a3);
    WordByte3(b0, b1, b2, b3);
  }

  lemma XorNothing(c: bv32)
    ensures Xor(c, Word(0, 0, 0, 0)) == c
  {
  }

  lemma PushThrough(x: bv32, y: bv32, z: bv32)
    requires y & 0xff == 0 && z == y >> 8
    ensures Byte(Xor(x, y)) == Xor(Byte(x), z)
  {
    ByteMixes(x, y);
    BitsAboveMoveDown(y);
  }

  lemma XorRegroups(c: bv32, low: bv32, high: bv32, all: bv32)
    requires all == low ^ high
    ensures Xor(c ^ low, high) == Xor(c, all)
  {
  }

  lemma EnterMoved(c: bv32, b0: bv8, whole: bv32, rest: bv32, moved: bv32)
    requires whole == (b0 as bv32) ^ moved && moved & 0xff == 0 && rest == moved >> 8
    ensures Xor(Octet(c, b0), rest) == Byte(Xor(c, whole))
  {
    XorRegroups(c, b0 as bv32, moved, whole);
    PushThrough(c ^ (b0 as bv32), moved, rest);
  }

  lemma EnterWord(c: bv32, b0: bv8, b1: bv8, b2: bv8, b3: bv8, whole: bv32, rest: bv32, moved: bv32)
    requires whole == Word(b0, b1, b2, b3) && rest == Word(b1, b2, b3, 0) && moved == Word(b1, b2, b3, 0) << 8
    ensures Xor(Octet(c, b0), rest) == Byte(Xor(c, whole))
  {
    WordSplits(b0, b1, b2, b3, whole, moved);
    WordLow(b1, b2, b3, moved);
    WordBack(b1, b2, b3, rest, moved);
    EnterMoved(c, b0, whole, rest, moved);
  }

  lemma EnterBytes(c: bv32, b0: bv8, b1: bv8, b2: bv8, b3: bv8, whole: bv32, rest: bv32)
    requires whole == Word(b0, b1, b2, b3) && rest == Word(b1, b2, b3, 0)
    ensures Xor(Octet(c, b0), rest) == Byte(Xor(c, whole))
  {
    EnterWord(c, b0, b1, b2, b3, whole, rest, Word(b1, b2, b3, 0) << 8);
  }

  lemma PackRest(w: seq<bv8>, rest: seq<bv8>)
    requires 0 < |w| <= 4 && rest == w[1..]
    ensures Pack(rest) == Word(At(w, 1), At(w, 2), At(w, 3), 0)
  {
    assert At(rest, 0) == At(w, 1);
    assert At(rest, 1) == At(w, 2);
    assert At(rest, 2) == At(w, 3);
  }

  /** Entering a byte and then the rest is one byte step on the whole window. */
  lemma EnterStep(c: bv32, w: seq<bv8>)
    requires 0 < |w| <= 4
    ensures Enter(Octet(c, w[0]), w[1..]) == Byte(Enter(c, w))
  {
    PackRest(w, w[1..]);
    EnterBytes(c, w[0], At(w, 1), At(w, 2), At(w, 3), Pack(w), Pack(w[1..]));
  }

  lemma {:induction false} IterateFront<T>(f: T -> T, x: T, count: nat)
    ensures Iterate(f, f(x), count) == Iterate(f, x, count + 1)
  {
    if count != 0 {
      IterateFront(f, x, count - 1);
    }
  }

  /** A window that enters at once is divided like one that enters byte by byte. */
  lemma {:induction false} FoldWindow(c: bv32, w: seq<bv8>)
    requires |w| <= 4
    ensures FoldLeft(Octet, c, w) == Iterate(Byte, Enter(c, w), |w|)
    decreases |w|
  {
    if w == [] {
      XorNothing(c);
    } else {
      assert w == [w[0]] + w[1..];
      FoldConcat(Octet, c, [w[0]], w[1..]);
      assert FoldLeft(Octet, c, [w[0]]) == Octet(c, w[0]);
      FoldWindow(Octet(c, w[0]), w[1..]);
      EnterStep(c, w);
      IterateFront(Byte, Enter(c, w), |w| - 1);
    }
  }

  lemma EnterInjective(c: bv32, v: seq<bv8>, w: seq<bv8>)
    requires |v| == |w| <= 4 && Enter(c, v) == Enter(c, w)
    ensures v == w
  {
    XorCancels(Pack(v), Pack(w), c);
    WordInjective(At(v, 0), At(v, 1), At(v, 2), At(v, 3), At(w, 0), At(w, 1), At(w, 2), At(w, 3));
    assert forall i :: 0 <= i < |v| ==> v[i] == At(v, i) && w[i] == At(w, i);
  }

  lemma WindowInjective(c: bv32, v: seq<bv8>, w: seq<bv8>)
    requires |v| == |w| <= 4 && FoldLeft(Octet, c, v) == FoldLeft(Octet, c, w)
    ensures v == w
  {
    FoldWindow(c, v);
    FoldWindow(c, w);
    forall a, b | Byte(a) == Byte(b)
      ensures a == b
    {
      ByteInjective(a, b);
    }
    IterateInjective(Byte, Enter(c, v), Enter(c, w), |v|);
    EnterInjective(c, v, w);
  }

  /** Messages that agree around a window fold alike only if the windows do. */
  lemma WindowsFoldAlike<S(!new), V(!new)>(f: (S, V) -> S, s: S, a: seq<V>, b: seq<V>, i: nat, j: nat)
    requires forall x, y, v :: f(x, v) == f(y, v) ==> x == y
    requires |a| == |b| && i <= j <= |a| && a[..i] == b[..i] && a[j..] == b[j..]
    requires FoldLeft(f, s, a) == FoldLeft(f, s, b)
    ensures var x := FoldLeft(f, s, a[..i]); FoldLeft(f, x, a[i..j]) == FoldLeft(f, x, b[i..j])
  {
    var x := FoldLeft(f, s, a[..i]);
    FoldThreeParts(f, s, a, i, j);
    FoldThreeParts(f, s, b, i, j);
    FoldInjective(f, FoldLeft(f, x, a[i..j]), FoldLeft(f, x, b[i..j]), a[j..]);
  }

  /** A fold that loses nothing, neither of its state nor of a short window, tells two such messages apart. */
  lemma FoldTellsApart<S(!new), V(!new)>(f: (S, V) -> S, s: S, a: seq<V>, b: seq<V>, i: nat, j: nat)
    requires forall x, y, v :: f(x, v) == f(y, v) ==> x == y
    requires forall x, v: seq<V>, w: seq<V> {:trigger FoldLeft(f, x, v), FoldLeft(f, x, w)} ::
      |v| == |w| <= 4 && FoldLeft(f, x, v) == FoldLeft(f, x, w) ==> v == w
    requires |a| == |b| && i <= j <= |a| && j <= i + 4 && a[..i] == b[..i] && a[j..] == b[j..]
    requires FoldLeft(f, s, a) == FoldLeft(f, s, b)
    ensures a == b
  {
    WindowsFoldAlike(f, s, a, b, i, j);
    assert |a[i..j]| == |b[i..j]| <= 4 && a[i..j] == b[i..j];
    assert a == a[..i] + a[i..j] + a[j..] && b == b[..i] + b[i..j] + b[j..];
  }

  lemma FoldThreeParts<S, V>(f: (S, V) -> S, s: S, a: seq<V>, i: nat, j: nat)
    requires i <= j <= |a|
    ensures FoldLeft(f, s, a) == FoldLeft(f, FoldLeft(f, FoldLeft(f, s, a[..i]), a[i..j]), a[j..])
  {
    assert a == a[..j] + a[j..] && a[..j] == a[..i] + a[i..j];
    FoldConcat(f, s, a[..j], a[j..]);
    FoldConcat(f, s, a[..i], a[i..j]);
  }

  /** Two messages of any length that differ only inside four consecutive bytes have different checksums. */
  lemma WindowDetected(a: seq<bv8>, b: seq<bv8>, i: nat, j: nat)
    requires |a| == |b| && i <= j <= |a| && j <= i + 4
    requires a[..i] == b[..i] && a[j..] == b[j..]
    ensures Crc(a) == Crc(b) <==> a == b
  {
    if Crc(a) == Crc(b) {
      XorCancels(FoldLeft(Octet, ONES, a), FoldLeft(Octet, ONES, b), ONES);
      forall x, y, v | Octet(x, v) == Octet(y, v)
        ensures x == y
      {
        OctetInjective(x, y, v);
      }
      forall x, v, w | |v| == |w| <= 4 && FoldLeft(Octet, x, v) == FoldLeft(Octet, x, w)
        ensures v == w
      {
        WindowInjective(x, v, w);
      }
      FoldTellsApart(Octet, ONES, a, b, i, j);
    }
  }
}
