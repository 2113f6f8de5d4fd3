/** Fixed-width arithmetic shared by the firmware models: 32-bit wrap-around, saturation and ring slots. */
module Words {

  const TWO32: nat := 0x1_0000_0000
  const MAX32: nat := 0xFFFF_FFFF

  type u32 = x: int | 0 <= x < 0x1_0000_0000
  type u16 = x: int | 0 <= x < 0x1_0000
  type byte = x: int | 0 <= x < 256

  datatype Option<+T> = None | Some(value: T)

  function Min(a: int, b: int): int {
    if a < b then a else b
  }

  /** C addition of two `uint32_t` values. */
  function Add32(a: u32, b: u32): u32 {
    if a + b <= MAX32 then a + b else a + b - TWO32
  }

  /** C subtraction of two `uint32_t` values. */
  function Sub32(a: u32, b: u32): u32 {
    if b <= a then a - b else a - b + TWO32
  }

  /** The 32-bit image of an unbounded count: its low 32 bits. */
  function Low32(n: nat): u32 {
    if n <= MAX32 then n else Low32(n - TWO32)
  }

  function SaturatingAdd(value: u32, increment: u32): (sum: u32)
  {
    if increment > MAX32 - value then MAX32 else value + increment
  }

  /** An unbounded tally as a saturating 32-bit counter shows it. */
  function Saturated(n: nat): u32 {
    if n > MAX32 then MAX32 else n
  }

  /** Saturating additions never lose track of a tally: the counter always shows the saturated true total. */
  lemma SaturatedSum(total: nat, increment: u32)
    ensures SaturatingAdd(Saturated(total), increment) == Saturated(total + increment)
  {
  }

  /** Wrapping subtraction recovers the true distance of two unbounded counts less than 2^32 apart. */
  lemma {:induction false} DistanceExact(ahead: nat, behind: nat)
    requires behind <= ahead < behind + TWO32
    ensures Sub32(Low32(ahead), Low32(behind)) == ahead - behind
    decreases behind
  {
    if behind > MAX32 {
      DistanceExact(ahead - TWO32, behind - TWO32);
    }
  }

  /** Wrapping addition follows the unbounded count. */
  lemma {:induction false} SumFollows(n: nat, count: u32)
    ensures Add32(Low32(n), count) == Low32(n + count)
    decreases n
  {
    if n > MAX32 {
      SumFollows(n - TWO32, count);
    }
  }

  /** Taking two pieces off the front of a queue is taking their sum. */
  lemma FrontPieces<T>(q: seq<T>, done: nat, count: nat)
    requires done + count <= |q|
    ensures q[..done] + q[done..][..count] == q[..done + count]
    ensures q[done..][count..] == q[done + count..]
  {
  }

  lemma FrontOfSlice<T>(s: seq<T>, offset: nat, length: nat, count: nat)
    requires count <= length && offset + length <= |s|
    ensures s[offset..offset + length][..count] == s[offset..offset + count]
  {
  }

  predicate PowerOfTwo(n: nat) {
    n == 1 || (n != 0 && n % 2 == 0 && PowerOfTwo(n / 2))
  }

  function Pow2(k: nat): nat {
    if k == 0 then 1 else 2 * Pow2(k - 1)
  }

  /**
   The storage slot of a position in a ring of `size` bytes: `position & (size - 1)` in the firmware. It is
   written by repeated subtraction so that proofs about rings meet no variable divisor; `SlotIsRemainder`
   says what it computes.
   */
  function Slot(size: nat, position: nat): (slot: nat)
    requires 0 < size
    ensures slot < size
    decreases position
  {
    if position < size then position else Slot(size, position - size)
  }

  /** A ring size: it divides 2^32, so that slots stay continuous when a 32-bit sequence wraps. */
  ghost predicate RingSize(size: nat) {
    0 < size < TWO32 && Slot(size, TWO32) == 0
  }

  lemma {:induction false} PowerDivides(n: nat, k: nat)
    requires PowerOfTwo(n) && n <= Pow2(k)
    ensures Pow2(k) % n == 0
    decreases n
  {
    if n != 1 {
      assert k != 0;
      PowerDivides(n / 2, k - 1);
      var m := Pow2(k - 1) / (n / 2);
      assert Pow2(k - 1) == m * (n / 2);
      assert Pow2(k) == m * n;
      RemainderIs(Pow2(k), n, m, 0);
    }
  }

  /** Every power of two that a `uint32_t` can hold is a ring size. */
  lemma PowerOfTwoIsRingSize(size: nat)
    requires PowerOfTwo(size) && size <= MAX32
    ensures RingSize(size)
  {
    assert Pow2(8) == 256;
    assert Pow2(16) == 65536;
    assert Pow2(24) == 0x100_0000;
    assert Pow2(32) == TWO32;
    PowerDivides(size, 32);
    SlotIsRemainder(size, TWO32);
  }

  lemma Multiple(k: int, n: nat)
    ensures k >= 1 ==> k * n >= n
    ensures k <= -1 ==> k * n + n <= 0
  {
    if k >= 1 {
      assert (k - 1) * n >= 0;
    } else if k <= -1 {
      assert (-k - 1) * n >= 0;
    }
  }

  lemma RemainderIs(a: int, n: nat, q: int, r: nat)
    requires n > 0 && a == q * n + r && r < n
    ensures a % n == r && a / n == q
  {
    var d := q - a / n;
    assert d * n == q * n - (a / n) * n;
    Multiple(d, n);
  }

  lemma {:induction false} SlotIsRemainder(size: nat, position: nat)
    requires 0 < size
    ensures Slot(size, position) == position % size
    decreases position
  {
    if position < size {
      RemainderIs(position, size, 0, position);
    } else {
      SlotIsRemainder(size, position - size);
      var q, r := (position - size) / size, (position - size) % size;
      assert position - size == q * size + r;
      assert (q + 1) * size == q * size + size;
      RemainderIs(position, size, q + 1, r);
    }
  }

  /** Two positions less than one lap apart never share a slot. */
  lemma {:induction false} SlotsDiffer(size: nat, a: nat, b: nat)
    requires 0 < size && a < b < a + size
    ensures Slot(size, a) != Slot(size, b)
    decreases a
  {
    if a >= size {
      SlotsDiffer(size, a - size, b - size);
    }
  }

  /** Only the slot of a position matters for the slots after it. */
  lemma {:induction false} SlotOfSum(size: nat, a: nat, i: nat)
    requires 0 < size
    ensures Slot(size, a + i) == Slot(size, Slot(size, a) + i)
    decreases a
  {
    if a >= size {
      SlotOfSum(size, a - size, i);
    }
  }

  /** Dropping the high part of an unbounded sequence keeps its slot. */
  lemma {:induction false} SlotOfLow32(size: nat, n: nat)
    requires RingSize(size)
    ensures Slot(size, Low32(n)) == Slot(size, n)
    decreases n
  {
    if n > MAX32 {
      SlotOfLow32(size, n - TWO32);
      SlotOfSum(size, TWO32, n - TWO32);
    }
  }

  // ---- Little-endian fields --------------------------------------------------------------------------------

  /** The k-th byte of a little-endian field. */
  function ByteOf(x: nat, k: nat): byte {
    if k == 0 then x % 256 else ByteOf(x / 256, k - 1)
  }

  function Word16(b0: byte, b1: byte): u16 {
    b0 + 256 * b1
  }

  function Word32(b0: byte, b1: byte, b2: byte, b3: byte): u32 {
    b0 + 256 * b1 + 0x1_0000 * b2 + 0x100_0000 * b3
  }

  function U16(p: seq<byte>, i: nat): u16
    requires i + 2 <= |p|
  {
    Word16(p[i], p[i + 1])
  }

  function U32(p: seq<byte>, i: nat): u32
    requires i + 4 <= |p|
  {
    Word32(p[i], p[i + 1], p[i + 2], p[i + 3])
  }

  lemma ByteSteps(x: nat, k: nat)
    ensures ByteOf(x, k + 1) == ByteOf(x / 256, k) && x == 256 * (x / 256) + ByteOf(x, 0)
  {
  }

  lemma ReadsBack16(x: u16)
    ensures Word16(ByteOf(x, 0), ByteOf(x, 1)) == x
  {
    ByteSteps(x, 0);
    ByteSteps(x / 256, 0);
  }

  lemma Nested(b0: byte, b1: byte, b2: byte, b3: byte, x: nat, x1: nat, x2: nat, x3: nat)
    requires x == 256 * x1 + b0 && x1 == 256 * x2 + b1 && x2 == 256 * x3 + b2 && x3 == b3
    ensures Word32(b0, b1, b2, b3) == x
  {
  }

  lemma ReadsBack32(x: u32)
    ensures Word32(ByteOf(x, 0), ByteOf(x, 1), ByteOf(x, 2), ByteOf(x, 3)) == x
  {
    var x1 := x / 256;
    var x2 := x1 / 256;
    var x3 := x2 / 256;
    ByteSteps(x, 0);
    ByteSteps(x, 1);
    ByteSteps(x, 2);
    ByteSteps(x1, 0);
    ByteSteps(x1, 1);
    ByteSteps(x2, 0);
    ByteSteps(x3, 0);
    Nested(ByteOf(x, 0), ByteOf(x, 1), ByteOf(x, 2), ByteOf(x, 3), x, x1, x2, x3);
  }
}
