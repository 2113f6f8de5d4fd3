/** The persistent settings record: firmware encoder, decoder and save, and the Python provisioner's pair. */
module BootConfig {
  import opened Crc32

  const SECTOR_SIZE := 4096
  const PAGE_SIZE := 256
  const RECORD_SIZE := 36
  const UNAVAILABLE: bv32 := 0xffff_ffff

  // ---- The format ------------------------------------------------------------------------------------------

  function Le(x: bv32): seq<bv8> {
    [(x & 0xff) as bv8, ((x >> 8) & 0xff) as bv8, ((x >> 16) & 0xff) as bv8, ((x >> 24) & 0xff) as bv8]
  }

  function ReadU32(s: seq<bv8>, i: nat): bv32
    requires i + 4 <= |s|
  {
    Word(s[i], s[i + 1], s[i + 2], s[i + 3])
  }

  lemma WordOfLe(x: bv32)
    ensures Word(Le(x)[0], Le(x)[1], Le(x)[2], Le(x)[3]) == x
  {
  }

  lemma LeOfWord(x: bv32, b0: bv8, b1: bv8, b2: bv8, b3: bv8)
    requires Word(b0, b1, b2, b3) == x
    ensures [b0, b1, b2, b3] == Le(x)
  {
    WordOfLe(x);
    WordInjective(b0, b1, b2, b3, Le(x)[0], Le(x)[1], Le(x)[2], Le(x)[3]);
  }

  function Filled(count: nat, value: bv8): seq<bv8> {
    seq(count, _ => value)
  }

  /** Signature, version 1, header size 32, record size 36. */
  function Head(): seq<bv8> {
    [0x50, 0x55, 0x43, 0x46, 1, 0, 32, 0, 36, 0, 0, 0]
  }

  function Body(profile: bv32): seq<bv8> {
    Filled(16, 0) + Le(profile)
  }

  function Record(profile: bv32): (r: seq<bv8>)
    ensures |r| == RECORD_SIZE
  {
    Head() + Le(Crc(Head() + Body(profile))) + Body(profile)
  }

  /** The canonical sector of a profile: its record, then erased space. */
  function Sector(profile: bv32): (r: seq<bv8>)
    ensures |r| == SECTOR_SIZE
  {
    Record(profile) + Filled(SECTOR_SIZE - RECORD_SIZE, 0xff)
  }

  predicate ProfileSupported(profile: bv32) {
    profile < 5
  }

  // ---- The firmware's decoder ------------------------------------------------------------------------------

  datatype Verdict = Erased | InvalidHeader | UnsupportedVersion | CrcFailed | InvalidProfile | Stored(profile: bv32)

  /** The bytes under the checksum. */
  function Protected(s: seq<bv8>): seq<bv8>
    requires |s| >= RECORD_SIZE
  {
    s[..12] + s[16..RECORD_SIZE]
  }

  predicate Only(s: seq<bv8>, value: bv8) {
    forall i :: 0 <= i < |s| ==> s[i] == value
  }

  function Judge(s: seq<bv8>): Verdict {
    if |s| != SECTOR_SIZE then InvalidHeader
    else if Only(s, 0xff) then Erased
    else if s[..4] != [0x50, 0x55, 0x43, 0x46] then InvalidHeader
    else if s[4] != 1 || s[5] != 0 then UnsupportedVersion
    else if s[6] != 32 || s[7] != 0 || ReadU32(s, 8) != 36 then InvalidHeader
    else if Crc(Protected(s)) != ReadU32(s, 12) then CrcFailed
    else if !Only(s[16..32], 0) then InvalidHeader
    else if !Only(s[RECORD_SIZE..], 0xff) then InvalidHeader
    else if !ProfileSupported(ReadU32(s, 32)) then InvalidProfile
    else Stored(ReadU32(s, 32))
  }

  lemma SectorParts(s: seq<bv8>, profile: bv32)
    requires |s| == SECTOR_SIZE
    ensures s == Sector(profile) <==>
      && s[..12] == Head() && s[12..16] == Le(Crc(Head() + Body(profile)))
      && s[16..32] == Filled(16, 0) && s[32..RECORD_SIZE] == Le(profile)
      && s[RECORD_SIZE..] == Filled(SECTOR_SIZE - RECORD_SIZE, 0xff)
  {
    var crc := Le(Crc(Head() + Body(profile)));
    var blank := Filled(SECTOR_SIZE - RECORD_SIZE, 0xff);
    assert s == s[..12] + s[12..16] + s[16..32] + s[32..RECORD_SIZE] + s[RECORD_SIZE..];
    assert Sector(profile) == Head() + crc + Filled(16, 0) + Le(profile) + blank;
    if s == Sector(profile) {
      FiveParts(s, Head(), crc, Filled(16, 0), Le(profile), blank);
    }
  }

  lemma FiveParts<T>(s: seq<T>, a: seq<T>, b: seq<T>, c: seq<T>, d: seq<T>, e: seq<T>)
    requires s == a + b + c + d + e
    ensures var i, j, k, l := |a|, |a| + |b|, |a| + |b| + |c|, |a| + |b| + |c| + |d|;
      s[..i] == a && s[i..j] == b && s[j..k] == c && s[k..l] == d && s[l..] == e
  {
  }

  /** Decoding inverts encoding. */
  lemma SectorIsAccepted(profile: bv32)
    requires ProfileSupported(profile)
    ensures Judge(Sector(profile)) == Stored(profile)
  {
    SectorIsJudged(profile);
  }

  /** A canonical sector passes every test but, for an unsupported profile, the last. */
  lemma SectorIsJudged(profile: bv32)
    ensures ReadU32(Sector(profile), 32) == profile
    ensures Judge(Sector(profile)) == if ProfileSupported(profile) then Stored(profile) else InvalidProfile
  {
    var s := Sector(profile);
    var crc := Crc(Head() + Body(profile));
    SectorParts(s, profile);
    assert s[..12][..4] == s[..4] && s[0] == s[..12][0];
    forall i | 4 <= i < 12
      ensures s[i] == Head()[i]
    {
      assert s[i] == s[..12][i];
    }
    assert ReadU32(s, 8) == Word(36, 0, 0, 0);
    assert s[16..32] + s[32..RECORD_SIZE] == s[16..RECORD_SIZE];
    assert Protected(s) == Head() + Body(profile);
    ReadLe(s, 12, crc);
    ReadLe(s, 32, profile);
  }

  lemma ReadLe(s: seq<bv8>, i: nat, x: bv32)
    requires i + 4 <= |s|
    ensures ReadU32(s, i) == x <==> s[i..i + 4] == Le(x)
  {
    var w := s[i..i + 4];
    assert w == [w[0], w[1], w[2], w[3]];
    if ReadU32(s, i) == x {
      LeOfWord(x, w[0], w[1], w[2], w[3]);
    }
    if w == Le(x) {
      WordOfLe(x);
    }
  }

  /** The decoder accepts nothing but canonical sectors: each profile has exactly one. */
  lemma AcceptedIsSector(s: seq<bv8>, profile: bv32)
    requires Judge(s) == Stored(profile)
    ensures ProfileSupported(profile) && s == Sector(profile)
  {
    JudgedIsSector(s, profile);
  }

  lemma JudgedIsSector(s: seq<bv8>, profile: bv32)
    requires (Judge(s).InvalidProfile? || Judge(s).Stored?) && ReadU32(s, 32) == profile
    ensures s == Sector(profile)
  {
    ReadLe(s, 8, 36);
    ReadLe(s, 32, profile);
    assert Le(36) == [36, 0, 0, 0];
    assert s[..12] == s[..4] + [s[4], s[5], s[6], s[7]] + s[8..12];
    assert s[..12] == Head();
    assert s[16..32] == Filled(16, 0);
    assert s[RECORD_SIZE..] == Filled(SECTOR_SIZE - RECORD_SIZE, 0xff);
    assert s[16..RECORD_SIZE] == s[16..32] + s[32..RECORD_SIZE];
    assert Protected(s) == Head() + Body(profile);
    ReadLe(s, 12, Crc(Head() + Body(profile)));
    SectorParts(s, profile);
  }

  lemma StoredIffSector(s: seq<bv8>, profile: bv32)
    ensures Judge(s) == Stored(profile) <==> ProfileSupported(profile) && s == Sector(profile)
  {
    if Judge(s) == Stored(profile) {
      AcceptedIsSector(s, profile);
    }
    if ProfileSupported(profile) && s == Sector(profile) {
      SectorIsAccepted(profile);
    }
  }

  /** The sectors of two profiles differ in the profile field and in the checksum, sixteen bytes before it. */
  lemma SectorsFarApart(p: bv32, q: bv32)
    requires p != q
    ensures Sector(p)[12..16] != Sector(q)[12..16] && Sector(p)[32..RECORD_SIZE] != Sector(q)[32..RECORD_SIZE]
  {
    SectorParts(Sector(p), p);
    SectorParts(Sector(q), q);
    var a, b := Head() + Body(p), Head() + Body(q);
    assert a[28..32] == Le(p) && b[28..32] == Le(q);
    if Le(p) == Le(q) {
      LeInjective(p, q);
    }
    WindowDetected(a, b, 28, 32);
    if Le(Crc(a)) == Le(Crc(b)) {
      LeInjective(Crc(a), Crc(b));
    }
  }

  /** Corrupting up to four consecutive bytes of a canonical sector never yields another accepted one. */
  lemma CorruptionRejected(profile: bv32, s: seq<bv8>, i: nat, j: nat)
    requires ProfileSupported(profile) && |s| == SECTOR_SIZE && i <= j <= SECTOR_SIZE && j <= i + 4
    requires s[..i] == Sector(profile)[..i] && s[j..] == Sector(profile)[j..]
    ensures Judge(s).Stored? ==> s == Sector(profile)
  {
    if Judge(s).Stored? {
      var other := Judge(s).profile;
      AcceptedIsSector(s, other);
      WindowMissesOne(s, Sector(profile), i, j);
      if other != profile {
        SectorsFarApart(other, profile);
        assert false;
      }
    }
  }

  lemma WindowMissesOne(s: seq<bv8>, t: seq<bv8>, i: nat, j: nat)
    requires |s| == |t| == SECTOR_SIZE && i <= j <= SECTOR_SIZE && j <= i + 4 && s[..i] == t[..i] && s[j..] == t[j..]
    ensures s[12..16] == t[12..16] || s[32..RECORD_SIZE] == t[32..RECORD_SIZE]
  {
    if j <= 32 {
      assert s[32..RECORD_SIZE] == s[j..][32 - j..RECORD_SIZE - j];
      assert t[32..RECORD_SIZE] == t[j..][32 - j..RECORD_SIZE - j];
    } else {
      assert s[12..16] == s[..i][12..16];
      assert t[12..16] == t[..i][12..16];
    }
  }

  lemma LeInjective(x: bv32, y: bv32)
    requires Le(x) == Le(y)
    ensures x == y
  {
    WordOfLe(x);
    WordOfLe(y);
  }

  datatype Source = Defaults | FromFlash | Recovery

  datatype Reason = Accepted | Rejected(verdict: Verdict) | WatchdogRecovery | ClockUnavailable

  datatype Status = Status(source: Source, reason: Reason, stored: bv32, active: bv32)

  /** What the firmware boots with: RP2040 caps profile 4 to 3, and a watchdog recovery bypasses any overclock. */
  function StatusOf(verdict: Verdict, recovery: bool, rp2350: bool): Status {
    match verdict
    case Stored(profile) =>
      if recovery && profile != 0 then Status(Recovery, WatchdogRecovery, profile, 0)
      else Status(FromFlash, Accepted, profile, if profile == 4 && !rp2350 then 3 else profile)
    case _ => Status(Defaults, Rejected(verdict), UNAVAILABLE, 0)
  }

  predicate HasSignature(s: seq<bv8>) {
    |s| == SECTOR_SIZE && s[..4] == [0x50, 0x55, 0x43, 0x46]
  }

  /** Each verdict, against the canonical sectors and their parts. */
  ghost predicate VerdictTells(s: seq<bv8>, verdict: Verdict) {
    && (verdict == Erased <==> s == Filled(SECTOR_SIZE, 0xff))
    && (verdict == UnsupportedVersion <==> HasSignature(s) && s[4..6] != [1, 0])
    && (verdict == CrcFailed <==> HasSignature(s) && s[..12] == Head() && s[12..16] != Le(Crc(Protected(s))))
    && (verdict == InvalidProfile <==> exists p :: !ProfileSupported(p) && s == Sector(p))
    && (verdict.Stored? <==> exists p :: ProfileSupported(p) && s == Sector(p))
    && (verdict.Stored? ==> s == Sector(verdict.profile))
  }

  lemma HeaderParts(s: seq<bv8>)
    requires HasSignature(s)
    ensures s[4..6] == [1, 0] <==> s[4] == 1 && s[5] == 0
    ensures s[..12] == Head() <==>
      s[4] == 1 && s[5] == 0 && s[6] == 32 && s[7] == 0 && ReadU32(s, 8) == 36
  {
    ReadLe(s, 8, 36);
    assert Le(36) == [36, 0, 0, 0];
    assert s[..12] == s[..4] + [s[4], s[5], s[6], s[7]] + s[8..12];
    assert Head() == [0x50, 0x55, 0x43, 0x46] + [1, 0, 32, 0] + [36, 0, 0, 0];
    if s[..12] == Head() {
      assert s[..12][8..12] == s[8..12];
      assert s[..12][4] == s[4] && s[..12][5] == s[5] && s[..12][6] == s[6] && s[..12][7] == s[7];
    }
  }

  lemma ErasedIff(s: seq<bv8>)
    ensures Judge(s) == Erased <==> s == Filled(SECTOR_SIZE, 0xff)
  {
    if s == Filled(SECTOR_SIZE, 0xff) {
      assert Only(s, 0xff);
    }
  }

  /** A sector that passes every test but the last one is canonical for its profile, supported or not. */
  lemma CanonicalIff(s: seq<bv8>, profile: bv32)
    ensures s == Sector(profile) <==>
      (Judge(s).InvalidProfile? || Judge(s).Stored?) && ReadU32(s, 32) == profile
  {
    if (Judge(s).InvalidProfile? || Judge(s).Stored?) && ReadU32(s, 32) == profile {
      JudgedIsSector(s, profile);
    }
    if s == Sector(profile) {
      SectorIsJudged(profile);
    }
  }

  /** The decoder's verdict is what the format says of the sector. */
  lemma JudgeTells(s: seq<bv8>)
    ensures VerdictTells(s, Judge(s))
  {
    ErasedIff(s);
    if HasSignature(s) {
      HeaderParts(s);
      ReadLe(s, 12, Crc(Protected(s)));
      assert s[0] == s[..4][0];
    }
    if |s| == SECTOR_SIZE {
      CanonicalIff(s, ReadU32(s, 32));
    }
    forall p
      ensures s == Sector(p) ==> |s| == SECTOR_SIZE && p == ReadU32(s, 32)
    {
      CanonicalIff(s, p);
    }
  }

  /** The boot of a stored profile. */
  predicate BootsProfile(p: bv32, recovery: bool, rp2350: bool, status: Status) {
    && status.stored == p
    && (status.active == p || status.active == 0 || (status.active == 3 && p == 4))
    && (status.active == 0 <==> p == 0 || recovery)
    && (status.active == 3 && p == 4 <==> p == 4 && !rp2350 && !recovery)
    && (status.source == Recovery <==> recovery && p != 0) && status.source != Defaults
    && (status.reason == WatchdogRecovery <==> recovery && p != 0)
    && (status.reason == Accepted <==> !recovery || p == 0)
  }

  lemma StoredBoots(p: bv32, recovery: bool, rp2350: bool)
    requires ProfileSupported(p)
    ensures BootsProfile(p, recovery, rp2350, StatusOf(Stored(p), recovery, rp2350))
  {
  }

  /**
   What the firmware boots with: the stored profile of a canonical sector, but at most 3 on an RP2040 and none after a
   watchdog recovery, and no profile otherwise.
   */
  ghost predicate BootsWith(s: seq<bv8>, recovery: bool, rp2350: bool, status: Status) {
    && (forall p :: ProfileSupported(p) && s == Sector(p) ==> BootsProfile(p, recovery, rp2350, status))
    && ((forall p :: ProfileSupported(p) ==> s != Sector(p)) ==>
      status.source == Defaults && status.reason.Rejected? && status.stored == UNAVAILABLE && status.active == 0)
    && (status.reason.Rejected? ==> VerdictTells(s, status.reason.verdict))
    && (!rp2350 ==> status.active != 4) && (recovery ==> status.active == 0)
  }

  /** The status that `Decode` returns means what the format and the boot rules say. */
  lemma StatusBoots(s: seq<bv8>, recovery: bool, rp2350: bool)
    ensures BootsWith(s, recovery, rp2350, StatusOf(Judge(s), recovery, rp2350))
  {
    JudgeTells(s);
    var status := StatusOf(Judge(s), recovery, rp2350);
    forall p | ProfileSupported(p) && s == Sector(p)
      ensures BootsProfile(p, recovery, rp2350, status)
    {
      StoredIffSector(s, p);
      StoredBoots(p, recovery, rp2350);
    }
  }

  /** Everything but the checksum. */
  method EncodeFields(page: array<bv8>, profile: bv32)
    requires page.Length >= RECORD_SIZE && ProfileSupported(profile)
    modifies page
    ensures page[..RECORD_SIZE] == Head() + [0, 0, 0, 0] + Body(profile)
    ensures page[RECORD_SIZE..] == old(page[RECORD_SIZE..])
  {
    forall i | 0 <= i < RECORD_SIZE {
      page[i] := 0;
    }
    page[0], page[1], page[2], page[3] := 0x50, 0x55, 0x43, 0x46;
    page[4] := 1;
    page[6] := 32;
    page[8] := 36;
    page[32] := (profile & 0xff) as bv8;
    SmallLe(profile);
  }

  method Encode(page: array<bv8>, profile: bv32)
    requires page.Length >= RECORD_SIZE && ProfileSupported(profile)
    modifies page
    ensures page[..RECORD_SIZE] == Record(profile)
    ensures page[RECORD_SIZE..] == old(page[RECORD_SIZE..])
  {
    EncodeFields(page, profile);
    ghost var fields := page[..RECORD_SIZE];
    assert fields == Head() + [0, 0, 0, 0] + Body(profile);
    assert page[..12] == fields[..12] == Head();
    assert page[16..RECORD_SIZE] == fields[16..] == Body(profile);
    var crc := BootConfigCrc32(page[..12] + page[16..RECORD_SIZE]);
    ghost var tail := page[16..];
    StoreU32(page, 12, crc);
    assert page[16..RECORD_SIZE] == tail[..20] && page[RECORD_SIZE..] == tail[20..];
    assert page[..RECORD_SIZE] == page[..12] + page[12..16] + page[16..RECORD_SIZE];
  }

  method StoreU32(page: array<bv8>, at: nat, x: bv32)
    requires at + 4 <= page.Length
    modifies page
    ensures page[..at] == old(page[..at]) && page[at..at + 4] == Le(x) && page[at + 4..] == old(page[at + 4..])
  {
    page[at] := (x & 0xff) as bv8;
    page[at + 1] := ((x >> 8) & 0xff) as bv8;
    page[at + 2] := ((x >> 16) & 0xff) as bv8;
    page[at + 3] := ((x >> 24) & 0xff) as bv8;
  }

  lemma SmallLe(profile: bv32)
    requires ProfileSupported(profile)
    ensures Le(profile) == [(profile & 0xff) as bv8, 0, 0, 0]
  {
  }

  method Decode(sector: seq<bv8>, recovery: bool, rp2350: bool) returns (status: Status)
    ensures status == StatusOf(Judge(sector), recovery, rp2350)
  {
    status := Status(Defaults, Rejected(InvalidHeader), UNAVAILABLE, 0);
    if |sector| != SECTOR_SIZE {
      return;
    }
    var erased := true;
    for index := 0 to |sector|
      invariant erased ==> Only(sector[..index], 0xff)
      invariant !erased ==> !Only(sector, 0xff)
    {
      if sector[index] != 0xff {
        erased := false;
        break;
      }
    }
    assert sector[..|sector|] == sector;
    if erased {
      status := status.(reason := Rejected(Erased));
      return;
    }
    if sector[..4] != [0x50, 0x55, 0x43, 0x46] {
      return;
    }
    if sector[4] != 1 || sector[5] != 0 {
      status := status.(reason := Rejected(UnsupportedVersion));
      return;
    }
    if sector[6] != 32 || sector[7] != 0 || ReadU32(sector, 8) != 36 {
      return;
    }
    var crc := SkippingCrc(sector);
    if crc != ReadU32(sector, 12) {
      status := status.(reason := Rejected(CrcFailed));
      return;
    }
    var zero := AllBytes(sector, 16, 32, 0);
    if !zero {
      return;
    }
    var blank := AllBytes(sector, RECORD_SIZE, |sector|, 0xff);
    assert sector[RECORD_SIZE..|sector|] == sector[RECORD_SIZE..];
    if !blank {
      return;
    }
    var profile := ReadU32(sector, 32);
    if !ProfileSupported(profile) {
      status := status.(reason := Rejected(InvalidProfile));
      return;
    }
    status := Status(FromFlash, Accepted, profile, profile);
    if !rp2350 && profile == 4 {
      status := status.(active := 3);
    }
    if recovery && profile != 0 {
      status := status.(active := 0, source := Recovery, reason := WatchdogRecovery);
    }
  }

  /** The checksum of a record in place, stepping over its own field. */
  method SkippingCrc(sector: seq<bv8>) returns (crc: bv32)
    requires |sector| >= RECORD_SIZE
    ensures crc == Crc(Protected(sector))
  {
    crc := 0xffff_ffff;
    for index := 0 to RECORD_SIZE
      invariant crc == FoldLeft(Octet, ONES, Skipping(sector, index))
    {
      SkippingStep(sector, index);
      if index < 12 || index >= 16 {
        crc := CrcByte(crc, sector[index]);
      }
    }
    crc := crc ^ 0xffff_ffff;
  }

  /** The bytes below `end` without the checksum field. */
  ghost function Skipping(sector: seq<bv8>, end: nat): seq<bv8>
    requires end <= RECORD_SIZE <= |sector|
  {
    if end < 12 then sector[..end] else if end < 16 then sector[..12] else sector[..12] + sector[16..end]
  }

  lemma SkippingStep(sector: seq<bv8>, index: nat)
    requires index < RECORD_SIZE <= |sector|
    ensures FoldLeft(Octet, ONES, Skipping(sector, index + 1)) ==
      if 12 <= index < 16 then FoldLeft(Octet, ONES, Skipping(sector, index))
      else Octet(FoldLeft(Octet, ONES, Skipping(sector, index)), sector[index])
  {
    var now, next := Skipping(sector, index), Skipping(sector, index + 1);
    if 12 <= index < 16 {
      assert next == now;
    } else {
      assert next == now + [sector[index]];
      assert next[..|next| - 1] == now;
    }
  }

  method AllBytes(sector: seq<bv8>, first: nat, end: nat, value: bv8) returns (all: bool)
    requires first <= end <= |sector|
    ensures all == Only(sector[first..end], value)
  {
    for index := first to end
      invariant forall k :: first <= k < index ==> sector[k] == value
    {
      if sector[index] != value {
        assert sector[first..end][index - first] != value;
        return false;
      }
    }
    return true;
  }

  // ---- The Python provisioner ------------------------------------------------------------------------------

  method EncodeSector(profile: bv32) returns (sector: seq<bv8>)
    requires ProfileSupported(profile)
    ensures sector == Sector(profile)
  {
    var record := [0x50, 0x55, 0x43, 0x46] + [1, 0] + [32, 0] + Le(36) + Le(0) + Filled(16, 0) + Le(profile);
    assert record[..12] == Head();
    assert record[16..] == Body(profile);
    var crc := ZlibCrc(record[..12] + record[16..]);
    ZlibAgrees(record[..12] + record[16..]);
    record := record[..12] + Le(crc) + record[16..];
    sector := record + Filled(SECTOR_SIZE - RECORD_SIZE, 0xff);
  }

  datatype Readback = Blank | Valid(profile: bv32) | ValueError

  function DecodeSector(sector: seq<bv8>, knownFamily: bool): Readback {
    if |sector| != SECTOR_SIZE then ValueError
    else if sector == Filled(SECTOR_SIZE, 0xff) then Blank
    else if sector[..4] != [0x50, 0x55, 0x43, 0x46] || sector[4..6] != [1, 0] || sector[6..8] != [32, 0]
            || sector[8..12] != Le(36) then ValueError
    else if ReadU32(sector, 12) != ZlibCrc(sector[..12] + sector[16..RECORD_SIZE]) then ValueError
    else if sector[16..32] != Filled(16, 0) || sector[RECORD_SIZE..] != Filled(SECTOR_SIZE - RECORD_SIZE, 0xff) then
      ValueError
    else if ReadU32(sector, 32) >= 5 then ValueError
    else if !knownFamily then ValueError
    else Valid(ReadU32(sector, 32))
  }

  /** The firmware and the provisioner accept exactly the same sectors and read the same profile from them. */
  lemma DecodersAgree(s: seq<bv8>)
    ensures DecodeSector(s, true) == match Judge(s)
      case Stored(profile) => Valid(profile)
      case Erased => Blank
      case _ => ValueError
  {
    if |s| == SECTOR_SIZE {
      assert s == Filled(SECTOR_SIZE, 0xff) <==> Only(s, 0xff);
      ZlibAgrees(Protected(s));
      ReadLe(s, 8, 36);
      assert s[4..6] == [s[4], s[5]] && s[6..8] == [s[6], s[7]];
      assert s[16..32] == Filled(16, 0) <==> Only(s[16..32], 0);
      assert s[RECORD_SIZE..] == Filled(SECTOR_SIZE - RECORD_SIZE, 0xff) <==> Only(s[RECORD_SIZE..], 0xff);
    }
  }

  // ---- Settings, boot status and the flash sector ----------------------------------------------------------

  datatype SaveResult = SaveOk | FlashFailed | VerifyFailed

  class Settings {
    const rp2350: bool
    var profile: bv32
    var status: Status
    var sector: seq<bv8>

    predicate Valid()
      reads this
    {
      ProfileSupported(profile) && |sector| == SECTOR_SIZE
    }

    constructor (rp2350: bool, sector: seq<bv8>)
      requires |sector| == SECTOR_SIZE
      ensures Valid() && this.sector == sector && profile == 0
    {
      this.rp2350, this.profile, this.sector := rp2350, 0, sector;
      this.status := Status(Defaults, Rejected(Erased), UNAVAILABLE, 0);
    }

    /** Boot: the settings keep the stored profile even when a recovery boots without it. */
    method Load(recovery: bool)
      requires Valid()
      modifies this`status, this`profile
      ensures Valid()
      ensures status == StatusOf(Judge(sector), recovery, rp2350)
      ensures profile == match Judge(sector) case Stored(p) => p case _ => 0
    {
      status := Decode(sector, recovery, rp2350);
      if Judge(sector).Stored? {
        AcceptedIsSector(sector, Judge(sector).profile);
      }
      profile := if status.stored == UNAVAILABLE then 0 else status.stored;
    }

    method Set(requested: bv32) returns (ok: bool)
      requires Valid()
      modifies this`profile
      ensures Valid() && ok == ProfileSupported(requested)
      ensures profile == if ok then requested else old(profile)
    {
      if !ProfileSupported(requested) {
        return false;
      }
      profile := requested;
      return true;
    }

    /** Erase and program: it may report failure, and it may leave anything in the sector. */
    method Program(page: seq<bv8>) returns (ok: bool)
      requires |sector| == SECTOR_SIZE
      modifies this`sector
      ensures |sector| == SECTOR_SIZE
    {
      ok := *;
      var left: seq<bv8> := *;
      if |left| == SECTOR_SIZE {
        sector := left;
      }
    }

    /**
     A save succeeds exactly when the whole sector ends as the canonical one of the requested profile, and it
     leaves a sector that already is canonical alone.
     */
    method Save() returns (result: SaveResult)
      requires Valid()
      modifies this`sector
      ensures Valid()
      ensures result == SaveOk ==> sector == Sector(profile)
      ensures result == VerifyFailed ==> sector != Sector(profile)
      ensures old(sector) == Sector(profile) ==> result == SaveOk && sector == old(sector)
    {
      var page := new bv8[PAGE_SIZE](_ => 0xff);
      Encode(page, profile);
      var stored := ReadsBack();
      if stored {
        return SaveOk;
      }
      PageIsPrefix(page[..], profile);
      result := Rewrite(page[..]);
    }

    /** Program the page, then read the sector back: first its bytes, then what it decodes to. */
    method Rewrite(page: seq<bv8>) returns (result: SaveResult)
      requires Valid() && page == Sector(profile)[..PAGE_SIZE]
      modifies this`sector
      ensures Valid()
      ensures result == SaveOk ==> sector == Sector(profile)
      ensures result == VerifyFailed ==> sector != Sector(profile)
    {
      var ok := Program(page);
      if !ok {
        return FlashFailed;
      }
      if sector[..PAGE_SIZE] != page {
        return VerifyFailed;
      }
      var stored := ReadsBack();
      return if stored then SaveOk else VerifyFailed;
    }

    /** The sector decodes to the profile exactly when it is the profile's canonical one. */
    method ReadsBack() returns (stored: bool)
      requires Valid()
      ensures stored == (sector == Sector(profile))
    {
      StoredIffSector(sector, profile);
      var status := Decode(sector, false, rp2350);
      stored := status.reason == Accepted && status.stored == profile;
    }
  }

  lemma PageIsPrefix(page: seq<bv8>, profile: bv32)
    requires |page| == PAGE_SIZE && page[..RECORD_SIZE] == Record(profile) && Only(page[RECORD_SIZE..], 0xff)
    ensures Sector(profile)[..PAGE_SIZE] == page
  {
    assert page == Record(profile) + page[RECORD_SIZE..];
  }
}
