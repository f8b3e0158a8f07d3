/** The records of a PAF archive, its codecs, and the foreign functions the engine builds on. */
module ArchiveFormat {
  import opened Base
  import opened PathKeys

  const HEADER_LEN: nat := 96
  const FOOTER_LEN: nat := 64
  const SECTION_ENTRY_LEN: nat := 32
  const REQUIRED_RAW_SECTIONS: nat := 6
  const REQUIRED_COMPRESSED_SECTIONS: nat := 7

  /** What a byte vector can hold: the largest signed 64-bit number, which also bounds the size of a file. */
  const MAX_VEC_BYTES: nat := 0x7FFF_FFFF_FFFF_FFFF

  type Hash = bytes

  // ----- Codecs -----

  datatype CodecId = Store | Zstd | Brotli | Lzma2

  function CodecNumber(c: CodecId): u16 {
    match c
    case Store => 0
    case Zstd => 1
    case Brotli => 2
    case Lzma2 => 3
  }

  function CodecFromNumber(n: nat): Option<CodecId> {
    if n == 0 then Some(Store)
    else if n == 1 then Some(Zstd)
    else if n == 2 then Some(Brotli)
    else if n == 3 then Some(Lzma2)
    else None
  }

  function DefaultLevel(c: CodecId): int {
    match c
    case Store => 0
    case Zstd => 9
    case Brotli => 9
    case Lzma2 => 6
  }

  function Pow2(n: nat): nat {
    if n == 0 then 1 else 2 * Pow2(n - 1)
  }

  /** Scratch memory of a codec at a level; `None` for a level the codec does not have. */
  function ScratchBytes(c: CodecId, level: int): Option<nat> {
    match c
    case Store => if level == 0 then Some(1) else None
    case Zstd => if -7 <= level <= 22 then Some(128 * MIB) else None
    case Brotli => if 0 <= level <= 11 then Some(32 * MIB) else None
    case Lzma2 => if 0 <= level <= 9 then Some(Pow2(level + 20)) else None
  }

  function MemoryBound(c: CodecId, level: int, inputLen: nat): Result<u64, PithosError> {
    match ScratchBytes(c, level)
    case None => Failure(InvalidMetadata("unsupported codec level"))
    case Some(scratch) => if inputLen + scratch <= U64_MAX then Success(inputLen + scratch)
      else Failure(IntegerOverflow)
  }

  // ----- Records -----

  datatype EntryKind = File(groupId: nat) | Directory | Hardlink(targetEntryId: nat)
    | Symlink(target: LinkTarget, targetIsDir: bool)

  datatype EntryRecord = EntryRecord(entryId: nat, path: ArchivePath, size: nat, modifiedNs: int, mode: nat,
                                     blake3: Hash, kind: EntryKind)

  /** A group table record: the group and where its payload starts in the file. */
  datatype GroupRecord = GroupRecord(version: nat, flags: nat, groupId: nat, codecChainId: nat, chunkCount: nat,
                                     uncompressedLen: nat, compressedLen: nat, descriptorLen: nat, payloadCrc32c: nat,
                                     payloadOffset: nat)

  datatype RestoreMapRecord = RestoreMapRecord(entryId: nat, originalOffset: nat, length: nat, groupId: nat,
                                               groupOffset: nat)

  datatype CentralIndexRecord = CentralIndexRecord(path: ArchivePath, entryId: nat, groupId: Option<nat>)

  datatype IntegrityRecord = IntegrityRecord(entryId: nat, blake3: Hash)

  datatype Header = Header(flags: nat, archiveId: bytes, originalTotalSize: nat, entryCount: nat,
                           logicalChunkCount: nat, groupCount: nat, sectionDirectoryOffset: nat, footerOffset: nat,
                           sectionCount: nat)

  datatype Footer = Footer(archiveLength: nat, blake3Root: Hash, directoryCrc32c: nat, version: nat)

  datatype SectionRecord = SectionRecord(sectionType: nat, sectionVersion: nat, flags: nat, offset: nat, length: nat,
                                         crc32c: nat, reserved: nat)

  const CODEC_REGISTRY: nat := 1
  const ENTRY_TABLE: nat := 2
  const GROUP_TABLE: nat := 5
  const PAYLOAD_AREA: nat := 6
  const RESTORE_MAP: nat := 7
  const CENTRAL_INDEX: nat := 8
  const INTEGRITY_TREE: nat := 9

  datatype DecodeLimits = DecodeLimits(maxEntries: u64, maxGroups: u64, maxChunks: u64, maxOriginalBytes: u64,
                                       maxGroupOutput: u64, maxExpansionRatio: u64, maxMetadataBytes: u64,
                                       maxPathBytes: u64, maxPathComponents: u64, maxSections: u32)

  // ----- What the engine takes from elsewhere -----

  /**
   Checksums, hashes, record and table encodings, codecs, and what the platform says of names: whether a path component
   is usable and the bytes of its name, and the paths and link targets the file system accepts.
   */
  datatype Primitives = Primitives(
    crc32c: bytes -> nat,
    blake3: bytes -> Hash,
    headerBytes: Header -> bytes, readHeader: bytes -> Result<Header, PithosError>,
    footerBytes: Footer -> bytes, readFooter: bytes -> Result<Footer, PithosError>,
    sectionBytes: SectionRecord -> bytes, readSection: bytes -> SectionRecord,
    entryBytes: seq<EntryRecord> -> bytes, readEntries: bytes -> Option<seq<EntryRecord>>,
    groupBytes: seq<GroupRecord> -> bytes, readGroups: bytes -> Option<seq<GroupRecord>>,
    restoreBytes: seq<RestoreMapRecord> -> bytes, readRestores: bytes -> Option<seq<RestoreMapRecord>>,
    indexBytes: seq<CentralIndexRecord> -> bytes, readIndex: bytes -> Option<seq<CentralIndexRecord>>,
    integrityBytes: seq<IntegrityRecord> -> bytes, readIntegrity: bytes -> Option<seq<IntegrityRecord>>,
    linkBytes: LinkTarget -> bytes,
    encode: (CodecId, bytes) -> bytes, decode: (CodecId, bytes, nat) -> Result<bytes, PithosError>,
    safeComponent: PathComponent -> bool, osName: PathComponent -> bytes,
    acceptsPath: NativePath -> bool, acceptsTarget: LinkTarget -> bool)

  /** Codecs: the store codec copies, and every codec decodes what it encoded, to exactly the announced length. */
  ghost predicate SoundCodecs(p: Primitives) {
    && (forall x :: p.encode(Store, x) == x)
    && (forall c, x :: p.decode(c, p.encode(c, x), |x|) == Success(x))
    && (forall c, y, n :: p.decode(c, y, n).Success? ==> |p.decode(c, y, n).value| == n)
  }

  const ARCHIVE_ID_LEN: nat := 16
  const HASH_LEN: nat := 32

  /** The header's fields have the widths the file gives them. */
  predicate HeaderFits(h: Header) {
    && h.flags <= U64_MAX && |h.archiveId| == ARCHIVE_ID_LEN && h.originalTotalSize <= U64_MAX
    && h.entryCount <= U64_MAX
    && h.logicalChunkCount <= U64_MAX && h.groupCount <= U64_MAX && h.sectionDirectoryOffset <= U64_MAX
    && h.footerOffset <= U64_MAX
    && h.sectionCount <= U32_MAX
  }

  predicate FooterFits(f: Footer) {
    f.archiveLength <= U64_MAX && |f.blake3Root| == HASH_LEN && f.directoryCrc32c <= U32_MAX && f.version <= U32_MAX
  }

  predicate SectionFits(s: SectionRecord) {
    && s.sectionType <= U16_MAX && s.sectionVersion <= U16_MAX && s.flags <= U32_MAX && s.offset <= U64_MAX
    && s.length <= U64_MAX
    && s.crc32c <= U32_MAX && s.reserved <= U32_MAX
  }

  /** Digests and fixed-size records have their sizes, and reading a record undoes writing one whose fields fit. */
  ghost predicate SoundRecords(p: Primitives) {
    && (forall x :: p.crc32c(x) <= U32_MAX) && (forall x :: |p.blake3(x)| == HASH_LEN)
    && (forall h :: |p.headerBytes(h)| == HEADER_LEN)
    && (forall h | HeaderFits(h) :: p.readHeader(p.headerBytes(h)) == Success(h))
    && (forall f :: |p.footerBytes(f)| == FOOTER_LEN)
    && (forall f | FooterFits(f) :: p.readFooter(p.footerBytes(f)) == Success(f))
    && (forall s :: |p.sectionBytes(s)| == SECTION_ENTRY_LEN)
    && (forall s | SectionFits(s) :: p.readSection(p.sectionBytes(s)) == s)
  }

  ghost predicate SoundTables(p: Primitives) {
    && (forall t :: p.readEntries(p.entryBytes(t)) == Some(t))
    && (forall t :: p.readGroups(p.groupBytes(t)) == Some(t))
    && (forall t :: p.readRestores(p.restoreBytes(t)) == Some(t))
    && (forall t :: p.readIndex(p.indexBytes(t)) == Some(t))
    && (forall t :: p.readIntegrity(p.integrityBytes(t)) == Some(t))
  }

  // ----- Paths as the reader checks them -----

  function EncodedLen(path: ArchivePath): nat {
    if path == [] then 0 else |path[0].data| + EncodedLen(path[1..])
  }

  predicate PathOk(p: Primitives, limits: DecodeLimits, path: ArchivePath) {
    && |path| <= limits.maxPathComponents && EncodedLen(path) <= limits.maxPathBytes
    && path != [] && forall c | c in path :: p.safeComponent(c)
  }

  /** A path as the file system names it. */
  type NativePath = seq<bytes>

  function Native(p: Primitives, path: ArchivePath): (n: NativePath)
    ensures |n| == |path| && forall k | 0 <= k < |n| :: n[k] == p.osName(path[k])
  {
    seq(|path|, k requires 0 <= k < |path| => p.osName(path[k]))
  }

  predicate TargetOk(p: Primitives, target: LinkTarget) {
    forall c | c in target && c.Normal? :: p.safeComponent(c.component)
  }

  // ----- Names as the file system takes them -----

  /** Something can be created at this path: system calls take no zero byte, and lengths are limited. */
  predicate PathTaken(p: Primitives, path: NativePath) {
    (forall name | name in path :: 0 !in name) && p.acceptsPath(path)
  }

  /** A link with this target can be created: it is not empty. */
  predicate TargetTaken(p: Primitives, target: LinkTarget) {
    && target != [] && (forall c | c in target && c.Normal? :: 0 !in p.osName(c.component))
    && p.acceptsTarget(target)
  }

  /** The first `n` directories on the way down `path` can be created. */
  predicate PrefixesTaken(p: Primitives, path: NativePath, n: nat)
    requires n <= |path|
  {
    forall k | 0 < k <= n :: PathTaken(p, path[..k])
  }
}

/** The codec registry section: which chain id names which codec. */
module CodecRegistry {
  import opened Base
  import opened LittleEndian
  import opened ArchiveFormat

  type i32 = x: int | -0x8000_0000 <= x < 0x8000_0000

  datatype RegistryRecord = RegistryRecord(chainId: u32, codecId: u16, codecVersion: u16, level: i32, flags: u32)

  const RECORD_LEN: nat := 16
  const FLAG_REQUIRED: u32 := 1
  const MAX_RECORDS: nat := 32

  /** Two's complement. */
  function Unsigned(x: i32): nat {
    if x < 0 then x + 0x1_0000_0000 else x
  }

  function Signed(n: nat): i32
    requires n < 0x1_0000_0000
  {
    if n < 0x8000_0000 then n else n - 0x1_0000_0000
  }

  function RecordBytes(r: RegistryRecord): (s: bytes)
    ensures |s| == RECORD_LEN
  {
    Le(r.chainId, 4) + Le(r.codecId, 2) + Le(r.codecVersion, 2) + Le(Unsigned(r.level), 4) + Le(r.flags, 4)
  }

  lemma {:induction false} FromLeBound(s: bytes)
    ensures FromLe(s) < Pow256(|s|)
  {
    if s != [] {
      FromLeBound(s[1..]);
    }
  }

  function ReadRecord(s: bytes): RegistryRecord
    requires |s| == RECORD_LEN
  {
    FromLeBound(s[0..4]);
    FromLeBound(s[4..6]);
    FromLeBound(s[6..8]);
    FromLeBound(s[8..12]);
    FromLeBound(s[12..16]);
    Widths();
    RegistryRecord(FromLe(s[0..4]), FromLe(s[4..6]), FromLe(s[6..8]), Signed(FromLe(s[8..12])), FromLe(s[12..16]))
  }

  lemma {:induction false} RecordRoundTrip(r: RegistryRecord)
    ensures ReadRecord(RecordBytes(r)) == r
  {
    Widths();
    var s := RecordBytes(r);
    assert s[0..4] == Le(r.chainId, 4) && s[4..6] == Le(r.codecId, 2) && s[6..8] == Le(r.codecVersion, 2);
    assert s[8..12] == Le(Unsigned(r.level), 4) && s[12..16] == Le(r.flags, 4);
    LeRoundTrip(r.chainId, 4);
    LeRoundTrip(r.codecId, 2);
    LeRoundTrip(r.codecVersion, 2);
    LeRoundTrip(Unsigned(r.level), 4);
    LeRoundTrip(r.flags, 4);
  }

  function BodyBytes(records: seq<RegistryRecord>): (s: bytes)
    ensures |s| == |records| * RECORD_LEN
  {
    if records == [] then [] else BodyBytes(records[..|records| - 1]) + RecordBytes(records[|records| - 1])
  }

  function RegistryBytes(records: seq<RegistryRecord>): bytes {
    Le(|records|, 4) + BodyBytes(records)
  }

  /** A record the decoder takes: a real chain, no unknown flag, and a known codec unless it is optional. */
  predicate RecordOk(r: RegistryRecord) {
    && r.chainId != 0
    && r.flags <= 1
    && (r.flags == FLAG_REQUIRED ==> r.codecId <= 3 && r.codecVersion == 1)
  }

  ghost predicate DistinctChains(records: seq<RegistryRecord>) {
    forall i, j | 0 <= i < j < |records| :: records[i].chainId != records[j].chainId
  }

  ghost predicate RegistryOk(records: seq<RegistryRecord>) {
    |records| <= MAX_RECORDS && (forall i | 0 <= i < |records| :: RecordOk(records[i])) && DistinctChains(records)
  }

  lemma {:induction false} BodyAt(records: seq<RegistryRecord>, i: nat)
    requires i < |records|
    ensures BodyBytes(records)[i * RECORD_LEN..(i + 1) * RECORD_LEN] == RecordBytes(records[i])
  {
    var n := |records| - 1;
    var front := BodyBytes(records[..n]);
    if i < n {
      BodyAt(records[..n], i);
      assert BodyBytes(records)[i * RECORD_LEN..(i + 1) * RECORD_LEN] == front[i * RECORD_LEN..(i + 1) * RECORD_LEN];
    }
  }

  method EncodeRegistry(records: seq<RegistryRecord>) returns (r: Result<bytes, PithosError>)
    ensures r.Success?
            <==> |records| <= U32_MAX && DistinctChains(records)
                 && forall i | 0 <= i < |records| :: records[i].chainId != 0
    ensures r.Success? ==> r.value == RegistryBytes(records)
  {
    if |records| > U32_MAX {
      return Failure(IntegerOverflow);
    }
    var chains: set<u32> := {};
    var output := Le(|records|, 4);
    for i := 0 to |records|
      invariant output == Le(|records|, 4) + BodyBytes(records[..i])
      invariant forall c :: c in chains <==> exists j | 0 <= j < i :: records[j].chainId == c
      invariant DistinctChains(records[..i]) && forall j | 0 <= j < i :: records[j].chainId != 0
    {
      if records[i].chainId == 0 || records[i].chainId in chains {
        return Failure(InvalidMetadata("duplicate or reserved codec chain"));
      }
      chains := chains + {records[i].chainId};
      assert records[..i + 1][..i] == records[..i];
      output := output + RecordBytes(records[i]);
    }
    assert records[..|records|] == records;
    return Success(output);
  }

  function RecordSlice(input: bytes, i: nat): (s: bytes)
    requires |input| >= 4 + (i + 1) * RECORD_LEN
    ensures |s| == RECORD_LEN
  {
    input[4 + i * RECORD_LEN..4 + (i + 1) * RECORD_LEN]
  }

  predicate RecordIn(input: bytes, records: seq<RegistryRecord>, i: nat)
    requires i < |records| && |input| >= 4 + |records| * RECORD_LEN
  {
    records[i] == ReadRecord(RecordSlice(input, i)) && RecordOk(records[i])
  }

  /**
   The bytes are the registry `records`: the stated count, nothing after them, every record acceptable, no chain twice.
   */
  ghost predicate RegistryIn(input: bytes, maxRecords: nat, records: seq<RegistryRecord>) {
    && |records| <= maxRecords
    && |input| == 4 + |records| * RECORD_LEN
    && FromLe(input[..4]) == |records|
    && (forall i | 0 <= i < |records| :: RecordIn(input, records, i))
    && DistinctChains(records)
  }

  lemma {:induction false} RegistryIsUnique(input: bytes, maxRecords: nat, a: seq<RegistryRecord>,
                                            b: seq<RegistryRecord>)
    requires RegistryIn(input, maxRecords, a) && RegistryIn(input, maxRecords, b)
    ensures a == b
  {
    forall i | 0 <= i < |a| ensures a[i] == b[i] {
      assert RecordIn(input, a, i) && RecordIn(input, b, i);
    }
  }

  lemma {:induction false} RecordHolds(input: bytes, maxRecords: nat, records: seq<RegistryRecord>, i: nat)
    requires RegistryIn(input, maxRecords, records) && i < |records|
    ensures records[i] == ReadRecord(RecordSlice(input, i)) && RecordOk(records[i])
  {
    assert RecordIn(input, records, i);
  }

  /** Decoding reads back every registry the encoder writes. */
  lemma {:induction false} RegistryRoundTrip(records: seq<RegistryRecord>)
    requires RegistryOk(records)
    ensures RegistryIn(RegistryBytes(records), MAX_RECORDS, records)
  {
    var input := RegistryBytes(records);
    Widths();
    LeRoundTrip(|records|, 4);
    assert input[..4] == Le(|records|, 4);
    forall i | 0 <= i < |records| ensures RecordIn(input, records, i) {
      BodyAt(records, i);
      assert RecordSlice(input, i) == BodyBytes(records)[i * RECORD_LEN..(i + 1) * RECORD_LEN];
      RecordRoundTrip(records[i]);
    }
  }

  method DecodeRegistry(input: bytes, maxRecords: u32) returns (r: Result<seq<RegistryRecord>, PithosError>)
    ensures r.Success? ==> RegistryIn(input, maxRecords, r.value)
    ensures r.Failure? ==> forall records :: !RegistryIn(input, maxRecords, records)
  {
    if |input| < 4 {
      return Failure(InvalidRange);
    }
    var count := FromLe(input[..4]);
    if count > maxRecords {
      return Failure(ResourceLimit("codec registry record count"));
    }
    if |input| != 4 + count * RECORD_LEN {
      return Failure(InvalidRange);
    }
    var chains: set<u32> := {};
    var records := [];
    while |records| < count
      invariant |records| <= count
      invariant forall i | 0 <= i < |records| :: RecordIn(input, records, i)
      invariant DistinctChains(records)
      invariant forall c :: c in chains <==> exists j | 0 <= j < |records| :: records[j].chainId == c
      decreases count - |records|
    {
      var n := |records|;
      var record := ReadRecord(RecordSlice(input, n));
      if !RecordOk(record) {
        forall other | RegistryIn(input, maxRecords, other) ensures false {
          RecordHolds(input, maxRecords, other, n);
        }
        return Failure(if record.chainId == 0 || record.flags > 1 then InvalidMetadata("codec registry record")
                       else UnsupportedCodec);
      }
      if record.chainId in chains {
        var j :| 0 <= j < n && records[j].chainId == record.chainId;
        assert RecordIn(input, records, j);
        forall other | RegistryIn(input, maxRecords, other) ensures false {
          RecordHolds(input, maxRecords, other, n);
          RecordHolds(input, maxRecords, other, j);
        }
        return Failure(InvalidMetadata("duplicate codec chain"));
      }
      chains := chains + {record.chainId};
      Extended(input, records, records + [record]);
      records := records + [record];
      assert records[n].chainId == record.chainId;
    }
    return Success(records);
  }

  lemma {:induction false} Extended(input: bytes, records: seq<RegistryRecord>, records': seq<RegistryRecord>)
    requires |records'| == |records| + 1 && records'[..|records|] == records
    requires |input| >= 4 + |records'| * RECORD_LEN
    requires forall i | 0 <= i < |records| :: RecordIn(input, records, i)
    requires RecordIn(input, records', |records|)
    ensures forall i | 0 <= i < |records'| :: RecordIn(input, records', i)
  {
    forall i | 0 <= i < |records| ensures RecordIn(input, records', i) {
      assert RecordIn(input, records, i) && records'[i] == records[i];
    }
  }

  /** The record a chain id names: the first with that id. */
  function Chain(records: seq<RegistryRecord>, chainId: nat): Option<RegistryRecord> {
    if records == [] then None
    else if records[0].chainId == chainId then Some(records[0])
    else Chain(records[1..], chainId)
  }
}
