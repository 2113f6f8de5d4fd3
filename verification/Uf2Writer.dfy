/**
 A plain UF2 writer, laid out byte by byte from the format: 512-byte blocks of 256 payload bytes each, numbered from 0
 and padded with zeros. The release check accepts what it writes.
 */
module Uf2Writer {
  import opened Words
  import opened Uf2

  const CHUNK := 256

  function Le32(x: u32): (bytes: seq<byte>)
    ensures |bytes| == 4
  {
    [ByteOf(x, 0), ByteOf(x, 1), ByteOf(x, 2), ByteOf(x, 3)]
  }

  function Zeros(count: nat): (zeros: seq<byte>)
    ensures |zeros| == count
  {
    seq(count, _ => 0)
  }

  /** The eight words in front of a payload; the first spells "UF2" and a line feed. */
  function HeaderBytes(target: u32, size: u32, number: u32, count: u32, family: u32): (header: seq<byte>)
    ensures |header| == 32
  {
    [0x55, 0x46, 0x32, 0x0A] + [0x57, 0x51, 0x5D, 0x9E] + [0x00, 0x20, 0x00, 0x00] + Le32(target)
    + Le32(size) + Le32(number) + Le32(count) + Le32(family)
  }

  /** One block with a family, for main flash. */
  function BlockBytes(target: u32, payload: seq<byte>, number: u32, count: u32, family: u32): (raw: seq<byte>)
    requires |payload| <= 476
    ensures |raw| == BLOCK_SIZE
  {
    HeaderBytes(target, |payload|, number, count, family) + payload + Zeros(476 - |payload|)
    + [0x30, 0x6F, 0xB1, 0x0A]
  }

  lemma HeaderReads(header: seq<byte>, target: u32, size: u32, number: u32, count: u32, family: u32)
    requires header == HeaderBytes(target, size, number, count, family)
    ensures U32(header, 0) == MAGIC_START0 && U32(header, 4) == MAGIC_START1
    ensures U32(header, 8) == FLAG_FAMILY_ID_PRESENT && U32(header, 12) == target && U32(header, 16) == size
    ensures U32(header, 20) == number && U32(header, 24) == count && U32(header, 28) == family
  {
    ReadsBack32(target);
    ReadsBack32(size);
    ReadsBack32(number);
    ReadsBack32(count);
    ReadsBack32(family);
  }

  /** The block as the check reads it. */
  function WrittenBlock(target: u32, payload: seq<byte>, number: u32, count: u32, family: u32): Block
    requires |payload| <= 476
  {
    Block(FLAG_FAMILY_ID_PRESENT, target, |payload|, number, count, family,
          BlockBytes(target, payload, number, count, family))
  }

  /** A raw block as the format lays it out. */
  predicate LaidOut(b: Block) {
    && |b.raw| == BLOCK_SIZE && BlockOf(b.raw) == b
    && U32(b.raw, 0) == MAGIC_START0 && U32(b.raw, 4) == MAGIC_START1 && U32(b.raw, 508) == MAGIC_END
  }

  lemma PrefixReads(raw: seq<byte>, header: seq<byte>, at: nat)
    requires |header| == 32 <= |raw| && raw[..32] == header && at + 4 <= 32
    ensures U32(raw, at) == U32(header, at)
  {
    assert forall i :: 0 <= i < 32 ==> raw[i] == header[i];
  }

  lemma RawReads(raw: seq<byte>, target: u32, size: u32, number: u32, count: u32, family: u32)
    requires |raw| == BLOCK_SIZE && raw[..32] == HeaderBytes(target, size, number, count, family)
    ensures BlockOf(raw) == Block(FLAG_FAMILY_ID_PRESENT, target, size, number, count, family, raw)
    ensures U32(raw, 0) == MAGIC_START0 && U32(raw, 4) == MAGIC_START1
  {
    var header := HeaderBytes(target, size, number, count, family);
    HeaderReads(header, target, size, number, count, family);
    PrefixReads(raw, header, 0);
    PrefixReads(raw, header, 4);
    PrefixReads(raw, header, 8);
    PrefixReads(raw, header, 12);
    PrefixReads(raw, header, 16);
    PrefixReads(raw, header, 20);
    PrefixReads(raw, header, 24);
    PrefixReads(raw, header, 28);
  }

  lemma MagicEnds(raw: seq<byte>)
    requires |raw| == BLOCK_SIZE && raw[508..] == [0x30, 0x6F, 0xB1, 0x0A]
    ensures U32(raw, 508) == MAGIC_END
  {
    assert forall i :: 0 <= i < 4 ==> raw[508 + i] == raw[508..][i];
  }

  lemma Parts<T>(a: seq<T>, b: seq<T>, c: seq<T>, d: seq<T>)
    ensures var s := a + b + c + d;
      s[..|a|] == a && s[|a|..|a| + |b|] == b && s[|a| + |b| + |c|..] == d
  {
  }

  lemma BlockReads(target: u32, payload: seq<byte>, number: u32, count: u32, family: u32)
    requires |payload| <= 476
    ensures LaidOut(WrittenBlock(target, payload, number, count, family))
    ensures WrittenBlock(target, payload, number, count, family).raw[32..32 + |payload|] == payload
  {
    var raw := BlockBytes(target, payload, number, count, family);
    Parts(HeaderBytes(target, |payload|, number, count, family), payload, Zeros(476 - |payload|),
          [0x30, 0x6F, 0xB1, 0x0A]);
    RawReads(raw, target, |payload|, number, count, family);
    MagicEnds(raw);
  }

  lemma LaidOutIsWellFormed(b: Block)
    requires LaidOut(b) && b.flags == FLAG_FAMILY_ID_PRESENT && 0 < b.size <= 476
    ensures WellFormed(b, b.family) && !HasFlag(b.flags, FLAG_NOT_MAIN_FLASH)
  {
  }

  /** A block that the check reads back as written. */
  predicate Carries(b: Block, target: u32, payload: seq<byte>, number: u32, count: u32, family: u32) {
    && LaidOut(b) && WellFormed(b, family) && !HasFlag(b.flags, FLAG_NOT_MAIN_FLASH)
    && b.target == target && b.size == |payload| && b.number == number && b.count == count && b.family == family
    && b.Payload() == payload
  }

  lemma BlockIsWellFormed(target: u32, payload: seq<byte>, number: u32, count: u32, family: u32)
    requires 0 < |payload| <= 476
    ensures Carries(WrittenBlock(target, payload, number, count, family), target, payload, number, count, family)
  {
    BlockReads(target, payload, number, count, family);
    LaidOutIsWellFormed(WrittenBlock(target, payload, number, count, family));
  }

  // ---- The file --------------------------------------------------------------------------------------------

  function BlockCount(binary: seq<byte>): nat {
    (|binary| + CHUNK - 1) / CHUNK
  }

  /** The payload of block `k`: its piece of the binary, padded with zeros. */
  function Piece(binary: seq<byte>, k: nat): (payload: seq<byte>)
    ensures |payload| == CHUNK
  {
    seq(CHUNK, j requires 0 <= j < CHUNK => if CHUNK * k + j < |binary| then binary[CHUNK * k + j] else 0)
  }

  /** The image and its padding fit the address space. */
  predicate Addressable(binary: seq<byte>, base: nat) {
    binary != [] && base + CHUNK * BlockCount(binary) <= MAX32
  }

  function WrittenAt(binary: seq<byte>, base: nat, family: u32, k: nat): Block
    requires Addressable(binary, base) && k < BlockCount(binary)
  {
    WrittenBlock(base + CHUNK * k, Piece(binary, k), k, BlockCount(binary), family)
  }

  function BlocksWritten(binary: seq<byte>, base: nat, family: u32): (blocks: seq<Block>)
    requires Addressable(binary, base)
    ensures |blocks| == BlockCount(binary)
  {
    seq(BlockCount(binary), k requires 0 <= k < BlockCount(binary) => WrittenAt(binary, base, family, k))
  }

  function Raws(blocks: seq<Block>): seq<byte> {
    if blocks == [] then [] else Raws(blocks[..|blocks| - 1]) + blocks[|blocks| - 1].raw
  }

  function FileOf(binary: seq<byte>, base: nat, family: u32): seq<byte>
    requires Addressable(binary, base)
  {
    Raws(BlocksWritten(binary, base, family))
  }

  lemma SlicePrefix<T>(a: seq<T>, b: seq<T>, i: nat, j: nat)
    requires i <= j <= |a|
    ensures (a + b)[i..j] == a[i..j]
  {
  }

  lemma {:induction false} BlocksOfPrefix(uf2: seq<byte>, more: seq<byte>, count: nat)
    requires BLOCK_SIZE * count <= |uf2|
    ensures BlocksOf(uf2 + more, count) == BlocksOf(uf2, count)
  {
    if count > 0 {
      BlocksOfPrefix(uf2, more, count - 1);
      SlicePrefix(uf2, more, BLOCK_SIZE * (count - 1), BLOCK_SIZE * count);
    }
  }

  lemma BlocksOfSnoc(uf2: seq<byte>, raw: seq<byte>, count: nat)
    requires |uf2| == BLOCK_SIZE * count && |raw| == BLOCK_SIZE
    ensures BlocksOf(uf2 + raw, count + 1) == BlocksOf(uf2, count) + [BlockOf(raw)]
  {
    BlocksOfPrefix(uf2, raw, count);
    assert (uf2 + raw)[BLOCK_SIZE * count..BLOCK_SIZE * (count + 1)] == raw;
  }

  /** One more block that reads back, behind a file that does. */
  lemma OneMoreReads(front: seq<byte>, blocks: seq<Block>, b: Block)
    requires |front| == BLOCK_SIZE * |blocks| && |b.raw| == BLOCK_SIZE && BlockOf(b.raw) == b
    requires BlocksOf(front, |blocks|) == blocks
    ensures |front + b.raw| == BLOCK_SIZE * (|blocks| + 1)
    ensures BlocksOf(front + b.raw, |blocks| + 1) == blocks + [b]
  {
    BlocksOfSnoc(front, b.raw, |blocks|);
  }

  lemma {:induction false} RawsRead(blocks: seq<Block>)
    requires forall b :: b in blocks ==> LaidOut(b)
    ensures |Raws(blocks)| == BLOCK_SIZE * |blocks| && BlocksOf(Raws(blocks), |blocks|) == blocks
  {
    if blocks != [] {
      var front, last := blocks[..|blocks| - 1], blocks[|blocks| - 1];
      assert blocks == front + [last];
      RawsRead(front);
      assert LaidOut(last);
      OneMoreReads(Raws(front), front, last);
    }
  }

  lemma {:induction false} FilterAll<T>(keep: T -> bool, s: seq<T>)
    requires forall i :: 0 <= i < |s| ==> keep(s[i])
    ensures Filter(keep, s) == s
  {
    if s != [] {
      FilterAll(keep, s[..|s| - 1]);
    }
  }

  lemma {:induction false} FilterNone<T>(keep: T -> bool, s: seq<T>)
    requires forall i :: 0 <= i < |s| ==> !keep(s[i])
    ensures Filter(keep, s) == []
  {
    if s != [] {
      FilterNone(keep, s[..|s| - 1]);
    }
  }

  lemma PieceFits(b: Block, binary: seq<byte>, base: nat, k: nat)
    requires binary != [] && k < BlockCount(binary) && b.target == base + CHUNK * k
    requires |b.raw| == BLOCK_SIZE && b.size == CHUNK && b.Payload() == Piece(binary, k)
    ensures Fits(b, binary, base)
  {
  }

  lemma WrittenTiles(binary: seq<byte>, base: nat, family: u32)
    requires Addressable(binary, base)
    ensures Tiles(BlocksWritten(binary, base, family), binary, base)
  {
    var n := BlockCount(binary);
    var blocks := BlocksWritten(binary, base, family);
    forall k | 0 <= k < n
      ensures |blocks[k].raw| == BLOCK_SIZE && blocks[k].size <= 476 && Fits(blocks[k], binary, base)
    {
      BlockIsWellFormed(base + CHUNK * k, Piece(binary, k), k, BlockCount(binary), family);
      PieceFits(blocks[k], binary, base, k);
    }
    forall i | 0 <= i < |binary|
      ensures CoveredBy(blocks, base, i)
    {
      assert i / CHUNK < n;
      assert Covers(blocks[i / CHUNK], base, i);
    }
  }

  lemma WrittenNumbers(binary: seq<byte>, base: nat, family: u32)
    requires Addressable(binary, base)
    ensures var blocks := BlocksWritten(binary, base, family);
      Numbered(blocks) && Complete(blocks)
  {
    var blocks := BlocksWritten(binary, base, family);
    forall n | 0 <= n < |blocks|
      ensures n in NumbersOf(blocks)
    {
      assert blocks[n].number == n;
    }
  }

  /** Blocks of one plain family for main flash are all firmware, and all flashed. */
  lemma PlainBlocks(blocks: seq<Block>, family: u32)
    requires family != FAMILY_RP2350_ABSOLUTE
    requires forall k :: 0 <= k < |blocks| ==>
      blocks[k].family == family && !HasFlag(blocks[k].flags, FLAG_NOT_MAIN_FLASH)
    ensures Firmware(blocks) == blocks && Absolute(blocks) == [] && Flash(blocks) == blocks
  {
    FilterAll((b: Block) => b.family != FAMILY_RP2350_ABSOLUTE, blocks);
    FilterNone((b: Block) => b.family == FAMILY_RP2350_ABSOLUTE, blocks);
    FilterAll((b: Block) => !HasFlag(b.flags, FLAG_NOT_MAIN_FLASH), blocks);
  }

  lemma PlainFileAccepted(uf2: seq<byte>, blocks: seq<Block>, binary: seq<byte>, family: u32, base: nat)
    requires uf2 != [] && |uf2| == BLOCK_SIZE * |blocks| && BlocksOf(uf2, |blocks|) == blocks
    requires family != FAMILY_PICO2 && family != FAMILY_RP2350_ABSOLUTE
    requires forall b :: b in blocks ==> WellFormed(b, family) && !HasFlag(b.flags, FLAG_NOT_MAIN_FLASH)
    requires Numbered(blocks) && Complete(blocks) && blocks != [] && blocks[0].target == base
    requires Tiles(blocks, binary, base)
    ensures Accepts(uf2, binary, family, base)
  {
    PlainBlocks(blocks, family);
    assert Blocks(uf2) == blocks;
  }

  lemma ReadsAsWritten(b: Block, target: u32, payload: seq<byte>, number: u32, count: u32, family: u32)
    requires |payload| == CHUNK && b == WrittenBlock(target, payload, number, count, family)
    ensures LaidOut(b) && WellFormed(b, family) && !HasFlag(b.flags, FLAG_NOT_MAIN_FLASH)
  {
    BlockIsWellFormed(target, payload, number, count, family);
  }

  lemma WrittenReads(binary: seq<byte>, base: nat, family: u32)
    requires Addressable(binary, base)
    ensures forall b :: b in BlocksWritten(binary, base, family) ==>
      LaidOut(b) && WellFormed(b, family) && !HasFlag(b.flags, FLAG_NOT_MAIN_FLASH)
  {
    var blocks := BlocksWritten(binary, base, family);
    forall k | 0 <= k < |blocks|
      ensures LaidOut(blocks[k]) && WellFormed(blocks[k], family) && !HasFlag(blocks[k].flags, FLAG_NOT_MAIN_FLASH)
    {
      ReadsAsWritten(blocks[k], base + CHUNK * k, Piece(binary, k), k, BlockCount(binary), family);
    }
  }

  /** The release check accepts the writer's file of any binary, for every family without an absolute block. */
  lemma WrittenFileAccepted(binary: seq<byte>, base: nat, family: u32)
    requires Addressable(binary, base) && family != FAMILY_PICO2 && family != FAMILY_RP2350_ABSOLUTE
    ensures Accepts(FileOf(binary, base, family), binary, family, base)
  {
    var blocks := BlocksWritten(binary, base, family);
    WrittenReads(binary, base, family);
    RawsRead(blocks);
    WrittenNumbers(binary, base, family);
    WrittenTiles(binary, base, family);
    assert blocks[0] == WrittenAt(binary, base, family, 0);
    PlainFileAccepted(FileOf(binary, base, family), blocks, binary, family, base);
  }
}
