/** Laying tables and payload out as one file, and why the reader finds them again. */
module ArchiveLayout {
  import opened Base
  import opened ArchiveFormat
  import opened CodecRegistry
  import opened CatalogRules
  import opened SectionRanges
  import opened ArchiveReader

  // ----- Consecutive blocks -----

  function Concat(blocks: seq<bytes>): bytes {
    if blocks == [] then [] else Concat(blocks[..|blocks| - 1]) + blocks[|blocks| - 1]
  }

  /** Where block `k` starts. */
  function BlockStart(blocks: seq<bytes>, k: nat): nat
    requires k <= |blocks|
  {
    if k == 0 then 0 else BlockStart(blocks, k - 1) + |blocks[k - 1]|
  }

  lemma {:induction false} BlockStartGrows(blocks: seq<bytes>, j: nat, k: nat)
    requires j <= k <= |blocks|
    ensures BlockStart(blocks, j) <= BlockStart(blocks, k)
  {
    if j < k {
      BlockStartGrows(blocks, j, k - 1);
    }
  }

  lemma {:induction false} BlockStartOfPrefix(blocks: seq<bytes>, n: nat, k: nat)
    requires k <= n <= |blocks|
    ensures BlockStart(blocks[..n], k) == BlockStart(blocks, k)
  {
    if k > 0 {
      BlockStartOfPrefix(blocks, n, k - 1);
    }
  }

  lemma {:induction false} ConcatLength(blocks: seq<bytes>)
    ensures |Concat(blocks)| == BlockStart(blocks, |blocks|)
  {
    if blocks != [] {
      var n := |blocks| - 1;
      ConcatLength(blocks[..n]);
      BlockStartOfPrefix(blocks, n, n);
    }
  }

  /** The first `k + 1` blocks are the first `k` and one more. */
  lemma {:induction false} ConcatNext(blocks: seq<bytes>, k: nat)
    requires k < |blocks|
    ensures Concat(blocks[..k + 1]) == Concat(blocks[..k]) + blocks[k]
    ensures |Concat(blocks[..k])| == BlockStart(blocks, k)
  {
    assert blocks[..k + 1][..k] == blocks[..k];
    ConcatLength(blocks[..k]);
    BlockStartOfPrefix(blocks, k, k);
  }

  /** Block `k` is found at its start. */
  lemma {:induction false} BlockAt(blocks: seq<bytes>, k: nat)
    requires k < |blocks|
    ensures BlockStart(blocks, k) + |blocks[k]| <= |Concat(blocks)|
    ensures Slice(Concat(blocks), BlockStart(blocks, k), |blocks[k]|) == blocks[k]
  {
    var n := |blocks| - 1;
    var front := blocks[..n];
    ConcatLength(front);
    BlockStartOfPrefix(blocks, n, k);
    if k < n {
      BlockAt(front, k);
      PrefixSlice(Concat(front), blocks[n], BlockStart(blocks, k), |blocks[k]|);
    }
  }

  lemma {:induction false} PrefixSlice(a: bytes, b: bytes, offset: nat, length: nat)
    requires offset + length <= |a|
    ensures Slice(a + b, offset, length) == Slice(a, offset, length)
  {
  }

  lemma {:induction false} InnerSlice(before: bytes, s: bytes, after: bytes, offset: nat, length: nat)
    requires offset + length <= |s|
    ensures Slice(before + s + after, |before| + offset, length) == Slice(s, offset, length)
  {
    var whole := before + s + after;
    var a, b := Slice(whole, |before| + offset, length), Slice(s, offset, length);
    forall k | 0 <= k < length ensures a[k] == b[k] {
      assert a[k] == whole[|before| + offset + k] == s[offset + k];
    }
  }

  // ----- The file -----

  /** The metadata sections in the order they are written: type and content. */
  function Metadata(p: Primitives, t: Tables): seq<(nat, bytes)> {
    (match t.registry { case None => [] case Some(records) => [(CODEC_REGISTRY, RegistryBytes(records))] })
    + [(ENTRY_TABLE, p.entryBytes(t.entries)), (GROUP_TABLE, p.groupBytes(t.groups)),
       (RESTORE_MAP, p.restoreBytes(t.restores)),
       (CENTRAL_INDEX, p.indexBytes(t.index)), (INTEGRITY_TREE, p.integrityBytes(t.integrity))]
  }

  function SectionCount(t: Tables): nat {
    if t.registry.Some? then REQUIRED_COMPRESSED_SECTIONS else REQUIRED_RAW_SECTIONS
  }

  /** Where the payload starts: right after header and directory. */
  function PayloadOffset(t: Tables): nat {
    HEADER_LEN + SectionCount(t) * SECTION_ENTRY_LEN
  }

  /** Payload and metadata, one after the other. */
  function Body(p: Primitives, t: Tables, payload: bytes): (blocks: seq<bytes>)
    ensures |blocks| == SectionCount(t)
  {
    var m := Metadata(p, t);
    [payload] + seq(|m|, k requires 0 <= k < |m| => m[k].1)
  }

  /** The directory record of body block `k`. */
  function SectionFor(p: Primitives, t: Tables, payload: bytes, sectionType: nat, k: nat): SectionRecord
    requires k < SectionCount(t)
  {
    var b := Body(p, t, payload);
    SectionRecord(sectionType, 1, 0, PayloadOffset(t) + BlockStart(b, k), |b[k]|, p.crc32c(b[k]), 0)
  }

  /** Which body block each directory record stands for; the records come in order of type. */
  function DirectoryOrder(t: Tables): (order: seq<(nat, nat)>)
    ensures |order| == SectionCount(t)
    ensures forall i | 0 <= i < |order| :: order[i].1 < SectionCount(t)
  {
    if t.registry.Some?
    then [(CODEC_REGISTRY, 1), (ENTRY_TABLE, 2), (GROUP_TABLE, 3), (PAYLOAD_AREA, 0), (RESTORE_MAP, 4),
          (CENTRAL_INDEX, 5), (INTEGRITY_TREE, 6)]
    else [(ENTRY_TABLE, 1), (GROUP_TABLE, 2), (PAYLOAD_AREA, 0), (RESTORE_MAP, 3), (CENTRAL_INDEX, 4),
          (INTEGRITY_TREE, 5)]
  }

  function Sections(p: Primitives, t: Tables, payload: bytes): (s: seq<SectionRecord>)
    ensures |s| == SectionCount(t)
    ensures var order := DirectoryOrder(t);
      forall i | 0 <= i < |s| :: s[i] == SectionFor(p, t, payload, order[i].0, order[i].1)
  {
    var order := DirectoryOrder(t);
    seq(|order|, i requires 0 <= i < |order| => SectionFor(p, t, payload, order[i].0, order[i].1))
  }

  function FooterOffset(p: Primitives, t: Tables, payload: bytes): nat {
    PayloadOffset(t) + |Concat(Body(p, t, payload))|
  }

  function ArchiveId(p: Primitives, t: Tables, payload: bytes): bytes {
    var digest := p.blake3(Concat(Body(p, t, payload)[1..]));
    if |digest| >= 16 then digest[..16] else digest
  }

  function HeaderFor(p: Primitives, t: Tables, payload: bytes, originalTotal: nat): Header {
    Header(0, ArchiveId(p, t, payload), originalTotal, |t.entries|, |t.restores|, |t.groups|, HEADER_LEN,
           FooterOffset(p, t, payload), SectionCount(t))
  }

  function RecordBlocks(p: Primitives, records: seq<SectionRecord>): (blocks: seq<bytes>)
    ensures |blocks| == |records| && forall i | 0 <= i < |blocks| :: blocks[i] == p.sectionBytes(records[i])
  {
    seq(|records|, i requires 0 <= i < |records| => p.sectionBytes(records[i]))
  }

  function DirectoryBytes(p: Primitives, t: Tables, payload: bytes): bytes {
    Concat(RecordBlocks(p, Sections(p, t, payload)))
  }

  /** Everything the root hash covers. */
  function HashedPart(p: Primitives, t: Tables, payload: bytes, originalTotal: nat): bytes {
    p.headerBytes(HeaderFor(p, t, payload, originalTotal)) + DirectoryBytes(p, t, payload) + Concat(Body(p, t, payload))
  }

  function FooterFor(p: Primitives, t: Tables, payload: bytes, originalTotal: nat): Footer {
    Footer(FooterOffset(p, t, payload) + FOOTER_LEN, p.blake3(HashedPart(p, t, payload, originalTotal)),
           p.crc32c(DirectoryBytes(p, t, payload)), 1)
  }

  /** The archive file of some tables and their payload. */
  function Assemble(p: Primitives, t: Tables, payload: bytes, originalTotal: nat): bytes {
    HashedPart(p, t, payload, originalTotal) + p.footerBytes(FooterFor(p, t, payload, originalTotal))
  }

  function CatalogFor(p: Primitives, t: Tables, payload: bytes, originalTotal: nat): Catalog {
    Catalog(HeaderFor(p, t, payload, originalTotal), FooterFor(p, t, payload, originalTotal), Sections(p, t, payload),
            t)
  }

  // ----- The reader finds every part -----

  lemma {:induction false} RecordBlocksAt(p: Primitives, records: seq<SectionRecord>, k: nat)
    requires SoundRecords(p) && k <= |records|
    ensures BlockStart(RecordBlocks(p, records), k) == k * SECTION_ENTRY_LEN
  {
    if k > 0 {
      RecordBlocksAt(p, records, k - 1);
    }
  }

  lemma {:induction false} DirectoryLengthIs(p: Primitives, records: seq<SectionRecord>)
    requires SoundRecords(p)
    ensures |Concat(RecordBlocks(p, records))| == |records| * SECTION_ENTRY_LEN
  {
    ConcatLength(RecordBlocks(p, records));
    RecordBlocksAt(p, records, |records|);
  }

  /** Reading the written directory yields the records written. */
  lemma {:induction false} DirectoryReadsBack(p: Primitives, records: seq<SectionRecord>)
    requires SoundRecords(p) && forall i | 0 <= i < |records| :: SectionFits(records[i])
    ensures |Concat(RecordBlocks(p, records))| == |records| * SECTION_ENTRY_LEN
    ensures DirectoryRecords(p, Concat(RecordBlocks(p, records)), |records|) == records
  {
    var blocks := RecordBlocks(p, records);
    var directory := Concat(blocks);
    DirectoryLengthIs(p, records);
    forall i | 0 <= i < |records| ensures DirectoryRecords(p, directory, |records|)[i] == records[i] {
      RecordBlocksAt(p, records, i);
      BlockAt(blocks, i);
      assert directory[i * SECTION_ENTRY_LEN..(i + 1) * SECTION_ENTRY_LEN]
             == Slice(directory, i * SECTION_ENTRY_LEN, SECTION_ENTRY_LEN);
    }
  }

  lemma {:induction false} PartLengths(p: Primitives, t: Tables, payload: bytes, originalTotal: nat)
    requires SoundRecords(p)
    ensures |p.headerBytes(HeaderFor(p, t, payload, originalTotal))| == HEADER_LEN
    ensures |DirectoryBytes(p, t, payload)| == SectionCount(t) * SECTION_ENTRY_LEN
    ensures |HashedPart(p, t, payload, originalTotal)| == FooterOffset(p, t, payload)
    ensures |Assemble(p, t, payload, originalTotal)| == FooterOffset(p, t, payload) + FOOTER_LEN
  {
    DirectoryLengthIs(p, Sections(p, t, payload));
  }

  /** Body block `k` is where its directory record says. */
  lemma {:induction false} BodyBlockAt(p: Primitives, t: Tables, payload: bytes, originalTotal: nat, k: nat)
    requires SoundRecords(p) && k < SectionCount(t)
    ensures var b := Body(p, t, payload);
      var offset := PayloadOffset(t) + BlockStart(b, k);
      && offset + |b[k]| <= FooterOffset(p, t, payload) <= |Assemble(p, t, payload, originalTotal)|
      && Slice(Assemble(p, t, payload, originalTotal), offset, |b[k]|) == b[k]
  {
    var b := Body(p, t, payload);
    PartLengths(p, t, payload, originalTotal);
    BlockAt(b, k);
    var before := p.headerBytes(HeaderFor(p, t, payload, originalTotal)) + DirectoryBytes(p, t, payload);
    InnerSlice(before, Concat(b), p.footerBytes(FooterFor(p, t, payload, originalTotal)), BlockStart(b, k), |b[k]|);
  }

  lemma {:induction false} SectionOfAt(records: seq<SectionRecord>, k: nat)
    requires DistinctTypes(records) && k < |records|
    ensures SectionOf(records, records[k].sectionType) == Some(records[k])
  {
    if k > 0 {
      assert records[1..][k - 1] == records[k];
      SectionOfAt(records[1..], k - 1);
    }
  }

  lemma {:induction false} OrderIsSorted(order: seq<(nat, nat)>, t: Tables)
    requires order == DirectoryOrder(t)
    ensures forall i, j | 0 <= i < j < |order| :: order[i].0 < order[j].0 && order[i].1 != order[j].1
    ensures forall i | 0 <= i < |order| :: KnownSection(order[i].0)
  {
  }

  lemma {:induction false} SectionsAreDistinct(p: Primitives, t: Tables, payload: bytes, s: seq<SectionRecord>)
    requires s == Sections(p, t, payload)
    ensures DistinctTypes(s)
    ensures forall i | 0 <= i < |s| :: SectionOk(s[i])
  {
    var order := DirectoryOrder(t);
    OrderIsSorted(order, t);
    TypesFromOrder(s, order);
  }

  lemma {:induction false} TypesFromOrder(s: seq<SectionRecord>, order: seq<(nat, nat)>)
    requires |s| == |order| && forall i | 0 <= i < |s| :: s[i].sectionType == order[i].0
    requires forall i, j | 0 <= i < j < |order| :: order[i].0 < order[j].0
    ensures DistinctTypes(s)
  {
  }

  /** The directory record of each type. */
  lemma {:induction false} SectionsByType(p: Primitives, t: Tables, payload: bytes, i: nat)
    requires i < SectionCount(t)
    ensures var (sectionType, k) := DirectoryOrder(t)[i];
      SectionOf(Sections(p, t, payload), sectionType) == Some(SectionFor(p, t, payload, sectionType, k))
  {
    var s := Sections(p, t, payload);
    SectionsAreDistinct(p, t, payload, s);
    SectionOfAt(s, i);
  }

  lemma {:induction false} NoRegistrySection(p: Primitives, t: Tables, payload: bytes)
    requires t.registry.None?
    ensures SectionOf(Sections(p, t, payload), CODEC_REGISTRY) == None
  {
    SectionOfMember(Sections(p, t, payload), CODEC_REGISTRY);
  }

  lemma {:induction false} BlocksAreDisjoint(p: Primitives, t: Tables, payload: bytes, i: nat, j: nat)
    requires i < SectionCount(t) && j < SectionCount(t) && i != j
    ensures Disjoint(RangeOf(SectionFor(p, t, payload, 0, i)), RangeOf(SectionFor(p, t, payload, 0, j)))
  {
    var b := Body(p, t, payload);
    if i < j {
      BlockStartGrows(b, i + 1, j);
    } else {
      BlockStartGrows(b, j + 1, i);
    }
  }

  lemma {:induction false} AssembledRanges(p: Primitives, t: Tables, payload: bytes, s: seq<SectionRecord>)
    requires SoundRecords(p) && s == Sections(p, t, payload)
    ensures RangesOk(s, PayloadOffset(t), FooterOffset(p, t, payload))
  {
    var order := DirectoryOrder(t);
    forall i | 0 <= i < |s| ensures Inside(s[i], PayloadOffset(t), FooterOffset(p, t, payload)) {
      BodyBlockAt(p, t, payload, 0, order[i].1);
    }
    OrderIsSorted(order, t);
    forall i, j | 0 <= i < j < |s| ensures Disjoint(RangesOf(s)[i], RangesOf(s)[j]) {
      BlocksAreDisjoint(p, t, payload, order[i].1, order[j].1);
    }
  }

  /** Totals and counts fit the header's fields. */
  predicate CountsFit(t: Tables, originalTotal: nat) {
    originalTotal <= U64_MAX && |t.entries| <= U64_MAX && |t.groups| <= U64_MAX && |t.restores| <= U64_MAX
  }

  /** A file within 64 bits has records that fit their fields. */
  lemma {:induction false} EndRecordsFit(p: Primitives, t: Tables, payload: bytes, originalTotal: nat)
    requires SoundRecords(p) && CountsFit(t, originalTotal) && |Assemble(p, t, payload, originalTotal)| <= U64_MAX
    ensures HeaderFits(HeaderFor(p, t, payload, originalTotal)) && FooterFits(FooterFor(p, t, payload, originalTotal))
  {
    PartLengths(p, t, payload, originalTotal);
  }

  lemma {:induction false} SectionsFit(p: Primitives, t: Tables, payload: bytes, originalTotal: nat,
                                       s: seq<SectionRecord>)
    requires SoundRecords(p) && |Assemble(p, t, payload, originalTotal)| <= U64_MAX && s == Sections(p, t, payload)
    ensures forall i | 0 <= i < |s| :: SectionFits(s[i])
  {
    var order := DirectoryOrder(t);
    OrderIsSorted(order, t);
    forall i | 0 <= i < |s| ensures SectionFits(s[i]) {
      BodyBlockAt(p, t, payload, originalTotal, order[i].1);
      assert KnownSection(order[i].0);
    }
  }

  /** What the reader requires of the tables and sizes, once all encodings are sound. */
  ghost predicate AssemblyFits(p: Primitives, limits: DecodeLimits, t: Tables, payload: bytes, originalTotal: nat) {
    && |Assemble(p, t, payload, originalTotal)| <= U64_MAX
    && HeaderOk(limits, HeaderFor(p, t, payload, originalTotal), |Assemble(p, t, payload, originalTotal)|)
    && MetadataLength(Sections(p, t, payload), HeaderFor(p, t, payload, originalTotal)) <= limits.maxMetadataBytes
    && CountsOk(HeaderFor(p, t, payload, originalTotal), t)
    && TablesOk(p, limits, t, PayloadSection(Sections(p, t, payload)))
    && OriginalSize(t.entries, |t.entries|) == originalTotal
  }

  lemma {:induction false} AssembledEnvelope(p: Primitives, limits: DecodeLimits, t: Tables, payload: bytes,
                                             originalTotal: nat)
    requires SoundRecords(p)
    requires |Assemble(p, t, payload, originalTotal)| <= U64_MAX
    requires HeaderOk(limits, HeaderFor(p, t, payload, originalTotal), |Assemble(p, t, payload, originalTotal)|)
    ensures EnvelopeOk(p, Assemble(p, t, payload, originalTotal), limits, HeaderFor(p, t, payload, originalTotal),
                       FooterFor(p, t, payload, originalTotal))
  {
    EndsOfFile(p, t, payload, originalTotal);
    EndRecordsFit(p, t, payload, originalTotal);
  }

  /** The first and the last bytes of the file. */
  lemma {:induction false} EndsOfFile(p: Primitives, t: Tables, payload: bytes, originalTotal: nat)
    requires SoundRecords(p)
    ensures var file := Assemble(p, t, payload, originalTotal);
      && FooterOffset(p, t, payload) + FOOTER_LEN == |file| && HEADER_LEN + FOOTER_LEN <= |file|
      && file[..HEADER_LEN] == p.headerBytes(HeaderFor(p, t, payload, originalTotal))
      && file[FooterOffset(p, t, payload)..] == p.footerBytes(FooterFor(p, t, payload, originalTotal))
  {
    PartLengths(p, t, payload, originalTotal);
    FourParts(p.headerBytes(HeaderFor(p, t, payload, originalTotal)), DirectoryBytes(p, t, payload),
              Concat(Body(p, t, payload)),
              p.footerBytes(FooterFor(p, t, payload, originalTotal)));
  }

  lemma {:induction false} FourParts(a: bytes, b: bytes, c: bytes, d: bytes)
    ensures (a + b + c + d)[..|a|] == a && (a + b + c + d)[|a + b + c|..] == d
  {
  }

  lemma {:induction false} DirectorySlice(p: Primitives, t: Tables, payload: bytes, originalTotal: nat, file: bytes)
    requires SoundRecords(p) && file == Assemble(p, t, payload, originalTotal)
    ensures HEADER_LEN + SectionCount(t) * SECTION_ENTRY_LEN <= |file|
    ensures Slice(file, HEADER_LEN, SectionCount(t) * SECTION_ENTRY_LEN) == DirectoryBytes(p, t, payload)
  {
    PartLengths(p, t, payload, originalTotal);
  }

  lemma {:induction false} EveryTypePresent(p: Primitives, t: Tables, payload: bytes, s: seq<SectionRecord>)
    requires s == Sections(p, t, payload)
    ensures forall k | 0 <= k < |RAW_SECTION_TYPES| :: SectionOf(s, RAW_SECTION_TYPES[k]).Some?
  {
    var order := DirectoryOrder(t);
    var shift := if t.registry.Some? then 1 else 0;
    forall k | 0 <= k < |RAW_SECTION_TYPES| ensures SectionOf(s, RAW_SECTION_TYPES[k]).Some? {
      SectionsByType(p, t, payload, k + shift);
      assert order[k + shift].0 == RAW_SECTION_TYPES[k];
    }
  }

  lemma {:induction false} AssembledDirectoryOk(p: Primitives, t: Tables, payload: bytes, s: seq<SectionRecord>)
    requires s == Sections(p, t, payload)
    ensures DirectoryOk(s)
  {
    SectionsAreDistinct(p, t, payload, s);
    EveryTypePresent(p, t, payload, s);
  }

  lemma {:induction false} AssembledDirectory(p: Primitives, limits: DecodeLimits, t: Tables, payload: bytes,
                                              originalTotal: nat)
    requires SoundRecords(p) && SectionCount(t) * SECTION_ENTRY_LEN <= limits.maxMetadataBytes
    requires |Assemble(p, t, payload, originalTotal)| <= U64_MAX
    ensures FooterOffset(p, t, payload) <= |Assemble(p, t, payload, originalTotal)|
    ensures DirectoryIn(p, Assemble(p, t, payload, originalTotal), limits, HeaderFor(p, t, payload, originalTotal),
                        FooterFor(p, t, payload, originalTotal), Sections(p, t, payload))
  {
    var file, s := Assemble(p, t, payload, originalTotal), Sections(p, t, payload);
    PartLengths(p, t, payload, originalTotal);
    DirectorySlice(p, t, payload, originalTotal, file);
    SectionsFit(p, t, payload, originalTotal, s);
    DirectoryReadsBack(p, s);
    AssembledRanges(p, t, payload, s);
    AssembledDirectoryOk(p, t, payload, s);
  }

  lemma {:induction false} CheckedFinds(p: Primitives, file: bytes, limits: DecodeLimits, s: SectionRecord,
                                        content: bytes)
    requires s.offset + |content| <= |file| && Slice(file, s.offset, |content|) == content
    requires s.length == |content| <= limits.maxMetadataBytes && s.crc32c == p.crc32c(content)
    ensures Checked(p, file, limits, s) == Success(content)
  {
  }

  /** The section of a type passes its check and holds some content. */
  predicate Held(p: Primitives, file: bytes, limits: DecodeLimits, s: seq<SectionRecord>, sectionType: nat,
                 content: bytes) {
    SectionOf(s, sectionType).Some? && Checked(p, file, limits, SectionOf(s, sectionType).value) == Success(content)
  }

  ghost predicate AllHeld(p: Primitives, file: bytes, limits: DecodeLimits, s: seq<SectionRecord>, t: Tables) {
    && Held(p, file, limits, s, ENTRY_TABLE, p.entryBytes(t.entries))
    && Held(p, file, limits, s, GROUP_TABLE, p.groupBytes(t.groups))
    && Held(p, file, limits, s, RESTORE_MAP, p.restoreBytes(t.restores))
    && Held(p, file, limits, s, CENTRAL_INDEX, p.indexBytes(t.index))
    && Held(p, file, limits, s, INTEGRITY_TREE, p.integrityBytes(t.integrity))
    && (t.registry.Some? ==> Held(p, file, limits, s, CODEC_REGISTRY, RegistryBytes(t.registry.value)))
    && (t.registry.None? ==> SectionOf(s, CODEC_REGISTRY).None?)
  }

  lemma {:induction false} HeldTablesRead(p: Primitives, file: bytes, limits: DecodeLimits, h: Header,
                                          s: seq<SectionRecord>, t: Tables)
    requires SoundTables(p) && AllHeld(p, file, limits, s, t) && MetadataLength(s, h) <= limits.maxMetadataBytes
    requires t.registry.Some? ==> RegistryOk(t.registry.value)
    ensures TablesIn(p, file, limits, h, s, t)
  {
    if t.registry.Some? {
      RegistryRoundTrip(t.registry.value);
    }
  }

  /** The directory record for metadata section `m`, which is body block `m + 1`. */
  lemma {:induction false} MetadataOrder(p: Primitives, t: Tables, m: nat) returns (i: nat)
    requires m < |Metadata(p, t)|
    ensures m + 1 < SectionCount(t) && i < SectionCount(t) && DirectoryOrder(t)[i] == (Metadata(p, t)[m].0, m + 1)
  {
    var n := if t.registry.Some? then 1 else 0;
    i := if m < n + 2 then m else m + 1;
  }

  lemma {:induction false} MetadataHeld(p: Primitives, limits: DecodeLimits, t: Tables, payload: bytes,
                                        originalTotal: nat, file: bytes, m: nat)
    requires SoundRecords(p) && m < |Metadata(p, t)| && file == Assemble(p, t, payload, originalTotal)
    requires |Metadata(p, t)[m].1| <= limits.maxMetadataBytes
    ensures Held(p, file, limits, Sections(p, t, payload), Metadata(p, t)[m].0, Metadata(p, t)[m].1)
  {
    hide Assemble, Concat, Slice, Sections;
    var i := MetadataOrder(p, t, m);
    SectionsByType(p, t, payload, i);
    BodyBlockAt(p, t, payload, originalTotal, m + 1);
    CheckedFinds(p, file, limits, SectionFor(p, t, payload, Metadata(p, t)[m].0, m + 1), Metadata(p, t)[m].1);
  }

  /** Each metadata section counts towards the metadata length. */
  lemma {:induction false} MetadataCounted(p: Primitives, t: Tables, payload: bytes, h: Header, m: nat)
    requires m < |Metadata(p, t)|
    ensures |Metadata(p, t)[m].1| <= MetadataLength(Sections(p, t, payload), h)
  {
    var i := MetadataOrder(p, t, m);
    SectionsByType(p, t, payload, i);
    OneLengthCounts(Sections(p, t, payload), h, Metadata(p, t)[m].0);
  }

  lemma {:induction false} OneLengthCounts(s: seq<SectionRecord>, h: Header, sectionType: nat)
    requires KnownSection(sectionType) && sectionType != PAYLOAD_AREA && SectionOf(s, sectionType).Some?
    ensures SectionOf(s, sectionType).value.length <= MetadataLength(s, h)
  {
  }

  lemma {:induction false} AssembledHeld(p: Primitives, limits: DecodeLimits, t: Tables, payload: bytes,
                                         originalTotal: nat, file: bytes, h: Header)
    requires SoundRecords(p) && file == Assemble(p, t, payload, originalTotal)
    requires MetadataLength(Sections(p, t, payload), h) <= limits.maxMetadataBytes
    ensures AllHeld(p, file, limits, Sections(p, t, payload), t)
  {
    var s, metadata := Sections(p, t, payload), Metadata(p, t);
    forall m | 0 <= m < |metadata| ensures Held(p, file, limits, s, metadata[m].0, metadata[m].1) {
      MetadataCounted(p, t, payload, h, m);
      MetadataHeld(p, limits, t, payload, originalTotal, file, m);
    }
    if t.registry.None? {
      NoRegistrySection(p, t, payload);
    }
    MetadataListed(p, file, limits, s, t);
  }

  lemma {:induction false} MetadataListed(p: Primitives, file: bytes, limits: DecodeLimits, s: seq<SectionRecord>,
                                          t: Tables)
    requires forall m | 0 <= m < |Metadata(p, t)| :: Held(p, file, limits, s, Metadata(p, t)[m].0, Metadata(p, t)[m].1)
    requires t.registry.None? ==> SectionOf(s, CODEC_REGISTRY).None?
    ensures AllHeld(p, file, limits, s, t)
  {
    var m := Metadata(p, t);
    if t.registry.Some? {
      assert m[0].0 == CODEC_REGISTRY && m[1].0 == ENTRY_TABLE && m[2].0 == GROUP_TABLE && m[3].0 == RESTORE_MAP
             && m[4].0 == CENTRAL_INDEX
             && m[5].0 == INTEGRITY_TREE;
    } else {
      assert m[0].0 == ENTRY_TABLE && m[1].0 == GROUP_TABLE && m[2].0 == RESTORE_MAP && m[3].0 == CENTRAL_INDEX
             && m[4].0 == INTEGRITY_TREE;
    }
  }

  lemma {:induction false} PayloadHeld(p: Primitives, t: Tables, payload: bytes, originalTotal: nat, file: bytes)
    requires SoundRecords(p) && file == Assemble(p, t, payload, originalTotal)
    ensures PayloadOffset(t) + |payload| <= |file| && Slice(file, PayloadOffset(t), |payload|) == payload
  {
    BodyBlockAt(p, t, payload, originalTotal, 0);
  }

  lemma {:induction false} PayloadPlace(p: Primitives, t: Tables, payload: bytes)
    ensures PayloadSection(Sections(p, t, payload)) == SectionFor(p, t, payload, PAYLOAD_AREA, 0)
  {
    SectionsByType(p, t, payload, if t.registry.Some? then 3 else 2);
  }

  lemma {:induction false} AssembledTables(p: Primitives, limits: DecodeLimits, t: Tables, payload: bytes,
                                           originalTotal: nat)
    requires SoundRecords(p) && SoundTables(p) && AssemblyFits(p, limits, t, payload, originalTotal)
    requires t.registry.Some? ==> RegistryOk(t.registry.value)
    ensures TablesIn(p, Assemble(p, t, payload, originalTotal), limits, HeaderFor(p, t, payload, originalTotal),
                     Sections(p, t, payload), t)
  {
    var file, h := Assemble(p, t, payload, originalTotal), HeaderFor(p, t, payload, originalTotal);
    AssembledHeld(p, limits, t, payload, originalTotal, file, h);
    HeldTablesRead(p, file, limits, h, Sections(p, t, payload), t);
  }

  lemma {:induction false} AssembledRegistryCount(p: Primitives, t: Tables, payload: bytes, originalTotal: nat)
    ensures RegistryCountOk(HeaderFor(p, t, payload, originalTotal), Sections(p, t, payload))
  {
    if t.registry.Some? {
      SectionsByType(p, t, payload, 0);
    } else {
      NoRegistrySection(p, t, payload);
    }
  }

  lemma {:induction false} AcceptedByParts(p: Primitives, file: bytes, limits: DecodeLimits, c: Catalog)
    requires EnvelopeOk(p, file, limits, c.header, c.footer)
    requires DirectoryIn(p, file, limits, c.header, c.footer, c.sections)
    requires RegistryCountOk(c.header, c.sections) && CountsOk(c.header, c.tables)
    requires TablesIn(p, file, limits, c.header, c.sections, c.tables)
    requires TablesOk(p, limits, c.tables, PayloadSection(c.sections))
    requires OriginalSize(c.tables.entries, |c.tables.entries|) == c.header.originalTotalSize
    ensures Accepts(p, file, limits, c)
  {
  }

  /** `file` and `c` are the file and the catalog of some tables that fit. */
  ghost predicate Fitting(p: Primitives, limits: DecodeLimits, t: Tables, payload: bytes, originalTotal: nat,
                          file: bytes, c: Catalog) {
    && SoundRecords(p) && SoundTables(p) && (t.registry.Some? ==> RegistryOk(t.registry.value))
    && AssemblyFits(p, limits, t, payload, originalTotal)
    && file == Assemble(p, t, payload, originalTotal) && c == CatalogFor(p, t, payload, originalTotal)
  }

  lemma {:induction false} FittingEnvelope(p: Primitives, limits: DecodeLimits, t: Tables, payload: bytes,
                                           originalTotal: nat, file: bytes, c: Catalog)
    requires Fitting(p, limits, t, payload, originalTotal, file, c)
    ensures EnvelopeOk(p, file, limits, c.header, c.footer)
  {
    AssembledEnvelope(p, limits, t, payload, originalTotal);
  }

  lemma {:induction false} FittingDirectory(p: Primitives, limits: DecodeLimits, t: Tables, payload: bytes,
                                            originalTotal: nat, file: bytes, c: Catalog)
    requires Fitting(p, limits, t, payload, originalTotal, file, c)
    ensures c.header.footerOffset <= |file| && DirectoryIn(p, file, limits, c.header, c.footer, c.sections)
  {
    hide Assemble, DirectoryIn, TablesOk, HeaderOk;
    AssembledDirectory(p, limits, t, payload, originalTotal);
  }

  lemma {:induction false} FittingTables(p: Primitives, limits: DecodeLimits, t: Tables, payload: bytes,
                                         originalTotal: nat, file: bytes, c: Catalog)
    requires Fitting(p, limits, t, payload, originalTotal, file, c)
    ensures RegistryCountOk(c.header, c.sections) && TablesIn(p, file, limits, c.header, c.sections, c.tables)
  {
    AssembledTables(p, limits, t, payload, originalTotal);
    AssembledRegistryCount(p, t, payload, originalTotal);
  }

  lemma {:induction false} FittingIsAccepted(p: Primitives, limits: DecodeLimits, t: Tables, payload: bytes,
                                             originalTotal: nat, file: bytes, c: Catalog)
    requires Fitting(p, limits, t, payload, originalTotal, file, c)
    ensures Accepts(p, file, limits, c)
  {
    FittingEnvelope(p, limits, t, payload, originalTotal, file, c);
    FittingDirectory(p, limits, t, payload, originalTotal, file, c);
    FittingTables(p, limits, t, payload, originalTotal, file, c);
    AcceptedByParts(p, file, limits, c);
  }

  /**
   The reader accepts an assembled file exactly when the tables obey the rules and the sizes fit; it then reads the same
   tables back.
   */
  lemma {:induction false} AssembledIsAccepted(p: Primitives, limits: DecodeLimits, t: Tables, payload: bytes,
                                               originalTotal: nat)
    requires SoundRecords(p) && SoundTables(p)
    requires t.registry.Some? ==> RegistryOk(t.registry.value)
    ensures AssemblyFits(p, limits, t, payload, originalTotal)
            <==> Accepts(p, Assemble(p, t, payload, originalTotal), limits, CatalogFor(p, t, payload, originalTotal))
  {
    if AssemblyFits(p, limits, t, payload, originalTotal) {
      FittingIsAccepted(p, limits, t, payload, originalTotal, Assemble(p, t, payload, originalTotal),
                        CatalogFor(p, t, payload, originalTotal));
    }
  }

  lemma {:induction false} OnlyHeaderAndFooter(p: Primitives, limits: DecodeLimits, t: Tables, payload: bytes,
                                               originalTotal: nat, file: bytes, h: Header, f: Footer)
    requires SoundRecords(p) && CountsFit(t, originalTotal)
    requires file == Assemble(p, t, payload, originalTotal) && EnvelopeOk(p, file, limits, h, f)
    ensures h == HeaderFor(p, t, payload, originalTotal) && f == FooterFor(p, t, payload, originalTotal)
  {
    EndsOfFile(p, t, payload, originalTotal);
    EndRecordsFit(p, t, payload, originalTotal);
  }

  lemma {:induction false} OnlySections(p: Primitives, limits: DecodeLimits, t: Tables, payload: bytes,
                                        originalTotal: nat, file: bytes, h: Header, f: Footer, s: seq<SectionRecord>)
    requires SoundRecords(p) && file == Assemble(p, t, payload, originalTotal) && |file| <= U64_MAX
    requires h.footerOffset <= |file| && h.sectionCount == SectionCount(t) && DirectoryIn(p, file, limits, h, f, s)
    ensures s == Sections(p, t, payload)
  {
    DirectorySlice(p, t, payload, originalTotal, file);
    SectionsFit(p, t, payload, originalTotal, Sections(p, t, payload));
    DirectoryReadsBack(p, Sections(p, t, payload));
  }

  lemma {:induction false} HeldTablesOnly(p: Primitives, file: bytes, limits: DecodeLimits, h: Header,
                                          s: seq<SectionRecord>, t: Tables, u: Tables)
    requires SoundTables(p) && AllHeld(p, file, limits, s, t) && TablesIn(p, file, limits, h, s, u)
    requires t.registry.Some? ==> RegistryOk(t.registry.value)
    ensures u == t
  {
    HeldTablesRead(p, file, limits, h, s, t);
    TablesAreUnique(p, file, limits, h, s, t, u);
  }

  /** No other catalog can be read from an assembled file. */
  lemma {:induction false} AssembledCatalogIsOnly(p: Primitives, limits: DecodeLimits, t: Tables, payload: bytes,
                                                  originalTotal: nat, c: Catalog)
    requires SoundRecords(p) && SoundTables(p) && (t.registry.Some? ==> RegistryOk(t.registry.value))
    requires CountsFit(t, originalTotal)
    requires Accepts(p, Assemble(p, t, payload, originalTotal), limits, c)
    ensures c == CatalogFor(p, t, payload, originalTotal)
  {
    var file := Assemble(p, t, payload, originalTotal);
    OnlyHeaderAndFooter(p, limits, t, payload, originalTotal, file, c.header, c.footer);
    OnlySections(p, limits, t, payload, originalTotal, file, c.header, c.footer, c.sections);
    AssembledHeld(p, limits, t, payload, originalTotal, file, c.header);
    HeldTablesOnly(p, file, limits, c.header, c.sections, t, c.tables);
  }
}
