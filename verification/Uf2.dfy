/** The release check that a UF2 file flashes exactly the firmware binary. */
module Uf2 {
  import opened Words

  const BLOCK_SIZE := 512
  const MAGIC_START0: u32 := 0x0A324655
  const MAGIC_START1: u32 := 0x9E5D5157
  const MAGIC_END: u32 := 0x0AB16F30
  const FLAG_NOT_MAIN_FLASH: u32 := 0x1
  const FLAG_FAMILY_ID_PRESENT: u32 := 0x2000
  const FLAG_EXTENSION: u32 := 0x8000
  const EXTENSION_IGNORE_BLOCK: u32 := 0x9957E304
  const ABSOLUTE_BLOCK_ADDRESS: u32 := 0x10FFFF00
  const FAMILY_RP2350_ABSOLUTE: u32 := 0xE48BFF57
  const FAMILY_PICO2: u32 := 0xE48BFF59

  /** One 512-byte block as its header says, with its raw bytes. */
  datatype Block = Block(flags: u32, target: u32, size: u32, number: u32, count: u32, family: u32, raw: seq<byte>)
  {
    function Payload(): seq<byte>
      requires |raw| == BLOCK_SIZE && size <= 476
    {
      raw[32..32 + size]
    }
  }

  predicate HasFlag(flags: u32, flag: u32)
    requires flag != 0
  {
    flags / flag % 2 == 1
  }

  function BlockOf(raw: seq<byte>): Block
    requires |raw| == BLOCK_SIZE
  {
    Block(U32(raw, 8), U32(raw, 12), U32(raw, 16), U32(raw, 20), U32(raw, 24), U32(raw, 28), raw)
  }

  /** Magic numbers, a payload size, a family, and a family this image may contain. */
  predicate WellFormed(b: Block, family: u32) {
    && |b.raw| == BLOCK_SIZE
    && U32(b.raw, 0) == MAGIC_START0 && U32(b.raw, 4) == MAGIC_START1 && U32(b.raw, 508) == MAGIC_END
    && 0 < b.size <= 476
    && HasFlag(b.flags, FLAG_FAMILY_ID_PRESENT)
    && (b.family == family || (family == FAMILY_PICO2 && b.family == FAMILY_RP2350_ABSOLUTE))
  }

  /** The first `count` blocks of a file. */
  function BlocksOf(uf2: seq<byte>, count: nat): (blocks: seq<Block>)
    requires BLOCK_SIZE * count <= |uf2|
    ensures |blocks| == count
  {
    if count == 0 then [] else
      BlocksOf(uf2, count - 1) + [BlockOf(uf2[BLOCK_SIZE * (count - 1)..BLOCK_SIZE * count])]
  }

  function Blocks(uf2: seq<byte>): seq<Block> {
    BlocksOf(uf2, |uf2| / BLOCK_SIZE)
  }

  function Filter<T>(keep: T -> bool, s: seq<T>): seq<T> {
    if s == [] then [] else
      var last := s[|s| - 1];
      Filter(keep, s[..|s| - 1]) + (if keep(last) then [last] else [])
  }

  lemma {:induction false} FilterMembers<T>(keep: T -> bool, s: seq<T>)
    ensures forall x :: x in Filter(keep, s) <==> x in s && keep(x)
  {
    if s != [] {
      FilterMembers(keep, s[..|s| - 1]);
      assert s == s[..|s| - 1] + [s[|s| - 1]];
    }
  }

  function Firmware(blocks: seq<Block>): seq<Block> {
    Filter((b: Block) => b.family != FAMILY_RP2350_ABSOLUTE, blocks)
  }

  function Absolute(blocks: seq<Block>): seq<Block> {
    Filter((b: Block) => b.family == FAMILY_RP2350_ABSOLUTE, blocks)
  }

  /** The blocks that go into main flash. */
  function Flash(firmware: seq<Block>): seq<Block> {
    Filter((b: Block) => !HasFlag(b.flags, FLAG_NOT_MAIN_FLASH), firmware)
  }

  /** One declared count, and distinct numbers below it. */
  predicate Numbered(firmware: seq<Block>) {
    && (forall i :: 0 <= i < |firmware| ==>
      firmware[i].count == firmware[0].count && firmware[i].number < firmware[i].count)
    && (forall i, j :: 0 <= i < j < |firmware| ==> firmware[i].number != firmware[j].number)
  }

  function NumbersOf(firmware: seq<Block>): set<nat> {
    set i | 0 <= i < |firmware| :: firmware[i].number as nat
  }

  /** The numbers are exactly 0 up to the declared count. */
  predicate Complete(firmware: seq<Block>) {
    firmware != [] ==>
      |firmware| == firmware[0].count && forall n :: 0 <= n < firmware[0].count ==> n in NumbersOf(firmware)
  }

  predicate GoodAbsolute(b: Block) {
    && |b.raw| == BLOCK_SIZE
    && b.flags == FLAG_FAMILY_ID_PRESENT + FLAG_EXTENSION && b.size == 256 && b.number == 0 && b.count == 2
    && b.target == ABSOLUTE_BLOCK_ADDRESS
    && (forall i :: 32 <= i < 288 ==> b.raw[i] == 0xef)
    && U32(b.raw, 288) == EXTENSION_IGNORE_BLOCK
  }

  /** An RP2350 image carries exactly one absolute block; no other image carries any. */
  predicate AbsoluteFits(absolute: seq<Block>, family: u32) {
    if family == FAMILY_PICO2 then |absolute| == 1 && GoodAbsolute(absolute[0]) else absolute == []
  }

  /** The block lies at its place in the binary, and holds zeros beyond the binary's end. */
  predicate Fits(b: Block, binary: seq<byte>, base: nat)
    requires |b.raw| == BLOCK_SIZE && b.size <= 476
  {
    && base <= b.target < base + |binary|
    && forall j :: 0 <= j < b.size ==>
      b.Payload()[j] == if b.target - base + j < |binary| then binary[b.target - base + j] else 0
  }

  predicate Holds(b: Block, a: nat) {
    b.target <= a < b.target + b.size
  }

  predicate Covers(b: Block, base: nat, i: nat) {
    Holds(b, base + i)
  }

  ghost predicate CoveredBy(flash: seq<Block>, base: nat, i: nat) {
    exists k :: 0 <= k < |flash| && Covers(flash[k], base, i)
  }

  /** No byte of the binary is in two blocks. */
  ghost predicate Apart(flash: seq<Block>, size: nat, base: nat) {
    forall i, j, k :: 0 <= i < size && 0 <= j < k < |flash| ==>
      !(Covers(flash[j], base, i) && Covers(flash[k], base, i))
  }

  ghost predicate AllFit(order: seq<Block>, binary: seq<byte>, base: nat) {
    forall k :: 0 <= k < |order| ==>
      |order[k].raw| == BLOCK_SIZE && order[k].size <= 476 && Fits(order[k], binary, base)
  }

  /** Every block at its place, no byte of the binary in two of them, and none in none. */
  ghost predicate Tiles(flash: seq<Block>, binary: seq<byte>, base: nat) {
    && AllFit(flash, binary, base) && Apart(flash, |binary|, base)
    && forall i :: 0 <= i < |binary| ==> CoveredBy(flash, base, i)
  }

  /** What the check promises of a file it lets through. */
  ghost predicate Accepts(uf2: seq<byte>, binary: seq<byte>, family: u32, base: nat) {
    && uf2 != [] && |uf2| % BLOCK_SIZE == 0
    && var blocks := Blocks(uf2);
    && (forall k :: 0 <= k < |blocks| ==> WellFormed(blocks[k], family))
    && var firmware := Firmware(blocks);
    && Numbered(firmware) && Complete(firmware) && firmware != []
    && AbsoluteFits(Absolute(blocks), family)
    && var flash := Flash(firmware);
    && (exists k :: 0 <= k < |flash| && flash[k].target == base)
    && Tiles(flash, binary, base)
  }

  // ---- What flashing an accepted file does -----------------------------------------------------------------

  /** Write one block. */
  function Program(flash: map<nat, byte>, b: Block): map<nat, byte>
    requires |b.raw| == BLOCK_SIZE && b.size <= 476
  {
    flash + map a: nat | b.target <= a < b.target + b.size && Holds(b, a) :: b.Payload()[a - b.target]
  }

  /** Write the blocks one after another. */
  function ProgramAll(flash: map<nat, byte>, order: seq<Block>): map<nat, byte>
    requires forall k :: 0 <= k < |order| ==> |order[k].raw| == BLOCK_SIZE && order[k].size <= 476
  {
    if order == [] then flash else Program(ProgramAll(flash, order[..|order| - 1]), order[|order| - 1])
  }

  /** The binary at its base, zeros everywhere else. */
  function ImageAt(binary: seq<byte>, base: nat, a: nat): byte {
    if base <= a < base + |binary| then binary[a - base] else 0
  }

  ghost predicate Touched(order: seq<Block>, a: nat) {
    exists k :: 0 <= k < |order| && Holds(order[k], a)
  }

  lemma {:induction false} ProgrammedBytes(flash: map<nat, byte>, order: seq<Block>, binary: seq<byte>, base: nat,
                                           a: nat)
    requires AllFit(order, binary, base)
    ensures a in ProgramAll(flash, order) <==> a in flash || Touched(order, a)
    ensures Touched(order, a) ==>
      ProgramAll(flash, order)[a] == ImageAt(binary, base, a) && base <= a
    ensures a in flash && !Touched(order, a) ==> ProgramAll(flash, order)[a] == flash[a]
  {
    if order != [] {
      var front, last := order[..|order| - 1], order[|order| - 1];
      ProgrammedBytes(flash, front, binary, base, a);
      assert order[|order| - 1] == last;
      assert Touched(order, a) <==> Touched(front, a) || Holds(last, a) by {
        if Touched(front, a) {
          var k :| 0 <= k < |front| && Holds(front[k], a);
          assert order[k] == front[k];
        }
        if Touched(order, a) {
          var k :| 0 <= k < |order| && Holds(order[k], a);
          assert k < |front| ==> front[k] == order[k];
        }
      }
      if Holds(last, a) {
        assert last.Payload()[a - last.target] == ImageAt(binary, base, a);
      }
    }
  }

  lemma AnyOrderFits(blocks: seq<Block>, order: seq<Block>, binary: seq<byte>, base: nat)
    requires AllFit(blocks, binary, base) && multiset(order) == multiset(blocks)
    ensures AllFit(order, binary, base)
  {
    forall k | 0 <= k < |order|
      ensures |order[k].raw| == BLOCK_SIZE && order[k].size <= 476 && Fits(order[k], binary, base)
    {
      assert order[k] in multiset(order);
      assert order[k] in blocks;
    }
  }

  lemma AnyOrderTouches(blocks: seq<Block>, order: seq<Block>, base: nat, i: nat)
    requires CoveredBy(blocks, base, i) && multiset(order) == multiset(blocks)
    ensures Touched(order, base + i)
  {
    var k :| 0 <= k < |blocks| && Covers(blocks[k], base, i);
    assert blocks[k] in multiset(blocks);
    assert blocks[k] in order;
  }

  predicate Reads(flash: map<nat, byte>, a: nat, value: byte) {
    a in flash && flash[a] == value
  }

  /** Memory holds the binary at its base, is unchanged below it, and is unchanged or zero beyond it. */
  ghost predicate HoldsImage(flash: map<nat, byte>, after: map<nat, byte>, binary: seq<byte>, base: nat) {
    && (forall i :: 0 <= i < |binary| ==> Reads(after, base + i, binary[i]))
    && (forall a :: a in after && !(base <= a < base + |binary|) ==>
      (a in flash && after[a] == flash[a]) || (base + |binary| <= a && after[a] == 0))
  }

  lemma ImageFlashed(blocks: seq<Block>, order: seq<Block>, binary: seq<byte>, base: nat, flash: map<nat, byte>)
    requires AllFit(blocks, binary, base) && multiset(order) == multiset(blocks)
    requires forall i :: 0 <= i < |binary| ==> CoveredBy(blocks, base, i)
    ensures AllFit(order, binary, base) && HoldsImage(flash, ProgramAll(flash, order), binary, base)
  {
    AnyOrderFits(blocks, order, binary, base);
    var after := ProgramAll(flash, order);
    forall i | 0 <= i < |binary|
      ensures Reads(after, base + i, binary[i])
    {
      AnyOrderTouches(blocks, order, base, i);
      ProgrammedBytes(flash, order, binary, base, base + i);
    }
    forall a | a in after && !(base <= a < base + |binary|)
      ensures (a in flash && after[a] == flash[a]) || (base + |binary| <= a && after[a] == 0)
    {
      ProgrammedBytes(flash, order, binary, base, a);
    }
  }

  /** An accepted file, flashed block by block in any order onto any contents, leaves exactly the binary. */
  lemma FlashedImage(uf2: seq<byte>, binary: seq<byte>, family: u32, base: nat, order: seq<Block>,
                     flash: map<nat, byte>)
    requires Accepts(uf2, binary, family, base)
    requires multiset(order) == multiset(Flash(Firmware(Blocks(uf2))))
    ensures AllFit(order, binary, base) && HoldsImage(flash, ProgramAll(flash, order), binary, base)
  {
    ImageFlashed(Flash(Firmware(Blocks(uf2))), order, binary, base, flash);
  }

  // ---- The check itself ------------------------------------------------------------------------------------

  lemma {:induction false} BlocksPrefix(uf2: seq<byte>, some: nat, count: nat)
    requires some <= count && BLOCK_SIZE * count <= |uf2|
    ensures BlocksOf(uf2, some) <= BlocksOf(uf2, count)
  {
    if some < count {
      BlocksPrefix(uf2, some, count - 1);
    }
  }

  lemma {:induction false} FilterPrefix<T>(keep: T -> bool, s: seq<T>, t: seq<T>)
    requires s <= t
    ensures Filter(keep, s) <= Filter(keep, t)
    decreases |t|
  {
    if s == t {
    } else {
      assert s <= t[..|t| - 1];
      FilterPrefix(keep, s, t[..|t| - 1]);
    }
  }

  lemma FilterSnoc<T>(keep: T -> bool, s: seq<T>, x: T)
    ensures Filter(keep, s + [x]) == Filter(keep, s) + (if keep(x) then [x] else [])
  {
    assert (s + [x])[..|s|] == s;
  }

  /** Blocks that are well formed and consistently numbered. */
  predicate Readable(blocks: seq<Block>, family: u32) {
    (forall k :: 0 <= k < |blocks| ==> WellFormed(blocks[k], family)) && Numbered(Firmware(blocks))
  }

  lemma ReadablePrefix(s: seq<Block>, t: seq<Block>, family: u32)
    requires s <= t && Readable(t, family)
    ensures Readable(s, family)
  {
    assert forall k :: 0 <= k < |s| ==> s[k] == t[k];
    FilterPrefix((b: Block) => b.family != FAMILY_RP2350_ABSOLUTE, s, t);
    var f, g := Firmware(s), Firmware(t);
    assert forall k :: 0 <= k < |f| ==> f[k] == g[k];
  }

  /** One more block is readable exactly when it is well formed and its number is new and within the one count. */
  lemma ReadableSnoc(s: seq<Block>, b: Block, family: u32)
    requires Readable(s, family)
    ensures var f := Firmware(s);
      Readable(s + [b], family) <==>
        WellFormed(b, family) &&
        (b.family == FAMILY_RP2350_ABSOLUTE ||
         (b.count == (if f == [] then b.count else f[0].count) && b.number < b.count && b.number !in NumbersOf(f)))
  {
    var f, t := Firmware(s), s + [b];
    FilterSnoc((b: Block) => b.family != FAMILY_RP2350_ABSOLUTE, s, b);
    assert t[|s|] == b;
    assert forall k :: 0 <= k < |s| ==> t[k] == s[k];
    var g := Firmware(t);
    assert forall k :: 0 <= k < |f| ==> g[k] == f[k];
    if b.family != FAMILY_RP2350_ABSOLUTE {
      assert g[|f|] == b;
    }
  }

  /** The scan's dictionaries after the blocks `seen`. */
  predicate Scanned(seen: seq<Block>, family: u32, firmware: seq<Block>, absolute: seq<Block>, numbers: set<nat>,
                    declared: u32)
  {
    && Readable(seen, family) && firmware == Firmware(seen) && absolute == Absolute(seen)
    && numbers == NumbersOf(firmware) && (firmware != [] ==> declared == firmware[0].count)
  }

  /** One block of the scan. */
  method TakeBlock(block: Block, family: u32, firmware: seq<Block>, absolute: seq<Block>, numbers: set<nat>,
                   declared: u32, ghost seen: seq<Block>)
    returns (ok: bool, firmware': seq<Block>, absolute': seq<Block>, numbers': set<nat>, declared': u32)
    requires Scanned(seen, family, firmware, absolute, numbers, declared)
    ensures ok <==> Readable(seen + [block], family)
    ensures ok ==> Scanned(seen + [block], family, firmware', absolute', numbers', declared')
  {
    firmware', absolute', numbers', declared' := firmware, absolute, numbers, declared;
    ReadableSnoc(seen, block, family);
    FilterSnoc((b: Block) => b.family != FAMILY_RP2350_ABSOLUTE, seen, block);
    FilterSnoc((b: Block) => b.family == FAMILY_RP2350_ABSOLUTE, seen, block);
    if !WellFormed(block, family) {
      ok := false;
      return;
    }
    if block.family == FAMILY_RP2350_ABSOLUTE {
      absolute' := absolute + [block];
      ok := true;
      return;
    }
    if firmware == [] {
      declared' := block.count;
    }
    if block.count != declared' || block.number >= block.count || block.number in numbers {
      ok := false;
      return;
    }
    numbers' := numbers + {block.number};
    NumbersSnoc(firmware, block);
    firmware' := firmware + [block];
    ok := true;
  }

  method ReadBlocks(uf2: seq<byte>, family: u32) returns (ok: bool, firmware: seq<Block>, absolute: seq<Block>)
    ensures ok <==> Readable(Blocks(uf2), family)
    ensures ok ==> firmware == Firmware(Blocks(uf2)) && absolute == Absolute(Blocks(uf2))
  {
    firmware, absolute, ok := [], [], true;
    var numbers: set<nat> := {};
    var declared: u32 := 0;
    for k := 0 to |uf2| / BLOCK_SIZE
      invariant Scanned(BlocksOf(uf2, k), family, firmware, absolute, numbers, declared)
    {
      var block := BlockOf(uf2[BLOCK_SIZE * k..BLOCK_SIZE * (k + 1)]);
      ok, firmware, absolute, numbers, declared :=
        TakeBlock(block, family, firmware, absolute, numbers, declared, BlocksOf(uf2, k));
      if !ok {
        UnreadableStays(uf2, k + 1, family);
        return;
      }
    }
    ok := true;
  }

  lemma UnreadableStays(uf2: seq<byte>, some: nat, family: u32)
    requires some <= |uf2| / BLOCK_SIZE && !Readable(BlocksOf(uf2, some), family)
    ensures !Readable(Blocks(uf2), family)
  {
    BlocksPrefix(uf2, some, |uf2| / BLOCK_SIZE);
    if Readable(Blocks(uf2), family) {
      ReadablePrefix(BlocksOf(uf2, some), Blocks(uf2), family);
    }
  }

  lemma NumbersSnoc(firmware: seq<Block>, b: Block)
    ensures NumbersOf(firmware + [b]) == NumbersOf(firmware) + {b.number}
  {
    var longer := firmware + [b];
    assert longer[|firmware|] == b;
    forall n | n in NumbersOf(firmware)
      ensures n in NumbersOf(longer)
    {
      var i :| 0 <= i < |firmware| && firmware[i].number == n;
      assert longer[i].number == n;
    }
  }

  predicate Sized(flash: seq<Block>) {
    forall k :: 0 <= k < |flash| ==> |flash[k].raw| == BLOCK_SIZE && flash[k].size <= 476
  }

  /** Compare one block with the binary and mark what it covers. */
  method MarkBlock(b: Block, binary: seq<byte>, base: nat, covered: array<bool>) returns (ok: bool)
    requires |b.raw| == BLOCK_SIZE && b.size <= 476 && covered.Length == |binary|
    modifies covered
    ensures ok <==>
      Fits(b, binary, base) && forall i :: 0 <= i < |binary| ==> !(old(covered[i]) && Covers(b, base, i))
    ensures ok ==> forall i :: 0 <= i < |binary| ==> (covered[i] <==> old(covered[i]) || Covers(b, base, i))
  {
    var offset: int := b.target - base;
    if offset < 0 || offset >= |binary| {
      return false;
    }
    var compared := Min(b.size, |binary| - offset);
    var payload := b.Payload();
    if payload[..compared] != binary[offset..offset + compared] {
      ghost var j :| 0 <= j < compared && payload[..compared][j] != binary[offset..offset + compared][j];
      assert payload[j] != binary[offset + j];
      return false;
    }
    assert forall j :: 0 <= j < compared ==> payload[j] == payload[..compared][j] == binary[offset + j];
    var padding := AnyByte(payload, compared);
    if padding {
      return false;
    }
    var overlap := AnyCovered(covered, offset, offset + compared);
    if overlap {
      return false;
    }
    forall i | offset <= i < offset + compared {
      covered[i] := true;
    }
    return true;
  }

  method AnyByte(payload: seq<byte>, first: nat) returns (found: bool)
    requires first <= |payload|
    ensures found <==> exists j :: first <= j < |payload| && payload[j] != 0
  {
    for j := first to |payload|
      invariant forall i :: first <= i < j ==> payload[i] == 0
    {
      if payload[j] != 0 {
        return true;
      }
    }
    return false;
  }

  method AnyCovered(covered: array<bool>, first: nat, end: nat) returns (found: bool)
    requires first <= end <= covered.Length
    ensures found <==> exists i :: first <= i < end && covered[i]
  {
    for i := first to end
      invariant forall j :: first <= j < i ==> !covered[j]
    {
      if covered[i] {
        return true;
      }
    }
    return false;
  }

  lemma CoveredBySnoc(flash: seq<Block>, b: Block, base: nat, i: nat)
    ensures CoveredBy(flash + [b], base, i) <==> CoveredBy(flash, base, i) || Covers(b, base, i)
  {
    var longer := flash + [b];
    assert longer[|flash|] == b;
    if CoveredBy(flash, base, i) {
      var k :| 0 <= k < |flash| && Covers(flash[k], base, i);
      assert Covers(longer[k], base, i);
    }
    if CoveredBy(longer, base, i) {
      var k :| 0 <= k < |longer| && Covers(longer[k], base, i);
      assert k < |flash| ==> Covers(flash[k], base, i);
    }
  }

  method CheckTiling(flash: seq<Block>, binary: seq<byte>, base: nat) returns (ok: bool)
    requires Sized(flash)
    ensures ok <==> Tiles(flash, binary, base)
  {
    var covered := new bool[|binary|](_ => false);
    for k := 0 to |flash|
      invariant AllFit(flash[..k], binary, base) && Apart(flash[..k], |binary|, base)
      invariant forall i :: 0 <= i < |binary| ==> (covered[i] <==> CoveredBy(flash[..k], base, i))
    {
      ghost var done := flash[..k];
      ok := MarkBlock(flash[k], binary, base, covered);
      if !ok {
        NotTiled(flash, k, binary, base);
        return;
      }
      assert flash[..k + 1] == done + [flash[k]];
      forall i | 0 <= i < |binary|
        ensures covered[i] <==> CoveredBy(flash[..k + 1], base, i)
      {
        CoveredBySnoc(done, flash[k], base, i);
      }
    }
    assert flash[..|flash|] == flash;
    ok := AllCovered(covered);
    if ok {
      forall i | 0 <= i < |binary|
        ensures CoveredBy(flash, base, i)
      {
        assert covered[i];
      }
    }
  }

  method AllCovered(covered: array<bool>) returns (all: bool)
    ensures all <==> forall i :: 0 <= i < covered.Length ==> covered[i]
  {
    for i := 0 to covered.Length
      invariant forall j :: 0 <= j < i ==> covered[j]
    {
      if !covered[i] {
        return false;
      }
    }
    return true;
  }

  lemma NotTiled(flash: seq<Block>, k: nat, binary: seq<byte>, base: nat)
    requires Sized(flash) && k < |flash|
    requires !Fits(flash[k], binary, base) ||
      exists i :: 0 <= i < |binary| && CoveredBy(flash[..k], base, i) && Covers(flash[k], base, i)
    ensures !Tiles(flash, binary, base)
  {
    if Fits(flash[k], binary, base) {
      var i :| 0 <= i < |binary| && CoveredBy(flash[..k], base, i) && Covers(flash[k], base, i);
      var j :| 0 <= j < k && Covers(flash[..k][j], base, i);
      assert flash[..k][j] == flash[j];
    }
  }

  method MinTarget(flash: seq<Block>) returns (least: u32)
    requires flash != []
    ensures exists k :: 0 <= k < |flash| && flash[k].target == least
    ensures forall k :: 0 <= k < |flash| ==> least <= flash[k].target
  {
    least := flash[0].target;
    for k := 1 to |flash|
      invariant exists j :: 0 <= j < k && flash[j].target == least
      invariant forall j :: 0 <= j < k ==> least <= flash[j].target
    {
      if flash[k].target < least {
        least := flash[k].target;
      }
    }
  }

  lemma FlashSized(blocks: seq<Block>, family: u32)
    requires forall k :: 0 <= k < |blocks| ==> WellFormed(blocks[k], family)
    ensures Sized(Flash(Firmware(blocks)))
  {
    FilterMembers((b: Block) => b.family != FAMILY_RP2350_ABSOLUTE, blocks);
    FilterMembers((b: Block) => !HasFlag(b.flags, FLAG_NOT_MAIN_FLASH), Firmware(blocks));
    var flash := Flash(Firmware(blocks));
    forall k | 0 <= k < |flash|
      ensures |flash[k].raw| == BLOCK_SIZE && flash[k].size <= 476
    {
      assert flash[k] in blocks;
    }
  }

  /** The whole check accepts exactly the files that `Accepts` describes. */
  method VerifyUf2Payload(uf2: seq<byte>, binary: seq<byte>, family: u32, base: nat) returns (accepted: bool)
    ensures accepted <==> Accepts(uf2, binary, family, base)
  {
    if uf2 == [] || |uf2| % BLOCK_SIZE != 0 {
      return false;
    }
    var ok, firmware, absolute := ReadBlocks(uf2, family);
    if !ok {
      return false;
    }
    if !Complete(firmware) || firmware == [] {
      return false;
    }
    if !AbsoluteFits(absolute, family) {
      return false;
    }
    FlashSized(Blocks(uf2), family);
    var flash := Flash(firmware);
    if flash == [] {
      return false;
    }
    var least := MinTarget(flash);
    if least != base {
      return false;
    }
    accepted := CheckTiling(flash, binary, base);
  }
}
