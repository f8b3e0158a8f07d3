/**
 Inputs that the packer's own checks let through and its final verification refuses, and files too large for its memory.
 */
module PackRefusals {
  import opened Base
  import opened PathKeys
  import opened GreedyPartition
  import opened SolidGroups
  import opened ArchiveFormat
  import opened CatalogRules
  import opened ArchiveLayout
  import opened PackedTables
  import opened ArchiveRoundTrip
  import opened ArchiveSpool
  import opened ArchiveWriter
  import opened GroupTasks
  import opened PackCompressed

  /** Everything the packer checks before the final verification passes. */
  ghost predicate PackerAccepts(p: Primitives, profile: CompressionProfile, limits: DecodeLimits, budget: PackBudget,
                                scanned: seq<ScannedEntry>, layout: Layout)
    requires LayoutOk(scanned, layout)
  {
    && ScanOk(p, limits, scanned) && WalkPasses(limits, scanned, |scanned|)
    && WriterAccepts(p, profile, limits, budget, scanned, layout)
  }

  /** The packer does not look at the expansion ratio, and at the metadata limit only for the length of the sections. */
  lemma {:induction false} PackerAcceptsTight(p: Primitives, profile: CompressionProfile, limits: DecodeLimits,
                                              budget: PackBudget, scanned: seq<ScannedEntry>, layout: Layout,
                                              tight: DecodeLimits)
    requires LayoutOk(scanned, layout) && PackerAccepts(p, profile, limits, budget, scanned, layout)
    requires tight == limits.(maxExpansionRatio := tight.maxExpansionRatio, maxMetadataBytes := tight.maxMetadataBytes)
    requires var metadata := Metadata(p, TablesFor(p, scanned, layout));
      MetadataSum(metadata, |metadata|) <= tight.maxMetadataBytes
    ensures PackerAccepts(p, profile, tight, budget, scanned, layout)
  {
    hide TablesFor, GroupsFitMemory, WithinBudgets, Metadata, PathOk;
    forall i | 0 <= i < |scanned| ensures ScannedOk(p, tight, scanned[i]) && SourceFits(tight, scanned, i) {
      assert ScannedOk(p, limits, scanned[i]) && SourceFits(limits, scanned, i);
      SamePathLimits(p, limits, tight, scanned[i].path);
    }
  }

  lemma {:induction false} SamePathLimits(p: Primitives, limits: DecodeLimits, tight: DecodeLimits, path: ArchivePath)
    requires tight.maxPathBytes == limits.maxPathBytes && tight.maxPathComponents == limits.maxPathComponents
    ensures PathOk(p, limits, path) == PathOk(p, tight, path)
  {
  }

  // ----- Expansion ratio -----

  /**
   Nothing in the packer looks at the expansion ratio: with a ratio a group exceeds, only the verification refuses.
   */
  lemma {:induction false} RatioIsReadersOnly(p: Primitives, profile: CompressionProfile, limits: DecodeLimits,
                                              budget: PackBudget, scanned: seq<ScannedEntry>, layout: Layout, k: nat,
                                              ratio: u64)
    requires LayoutOk(scanned, layout) && PackerAccepts(p, profile, limits, budget, scanned, layout)
    requires k < |layout.ends|
    requires var g := GroupFor(p, scanned, layout, StartFor(layout), k);
      0 < g.compressedLen && g.compressedLen * ratio < g.uncompressedLen <= U64_MAX
    ensures var tight := limits.(maxExpansionRatio := ratio);
      PackerAccepts(p, profile, tight, budget, scanned, layout) && !PackFits(p, tight, scanned, layout)
  {
    hide GroupFor, TablesFor, PackerAccepts, PackedFile, Payloads, Metadata, Sections;
    var tight := limits.(maxExpansionRatio := ratio);
    assert PackerAccepts(p, profile, tight, budget, scanned, layout) by {
      SumWithinLimit(p, profile, limits, budget, scanned, layout);
      PackerAcceptsTight(p, profile, limits, budget, scanned, layout, tight);
    }
    assert !RatioOk(tight, GroupFor(p, scanned, layout, StartFor(layout), k));
    assert !GroupFits(p, tight, scanned, layout, k);
  }

  // ----- Metadata -----

  /** Whatever is packed: a metadata limit of just the sections' length passes the packer and fails the verification. */
  lemma {:induction false} MetadataLimitIsTight(p: Primitives, profile: CompressionProfile, limits: DecodeLimits,
                                                budget: PackBudget, scanned: seq<ScannedEntry>, layout: Layout)
    requires LayoutOk(scanned, layout) && PackerAccepts(p, profile, limits, budget, scanned, layout)
    ensures var metadata := Metadata(p, TablesFor(p, scanned, layout));
      && MetadataSum(metadata, |metadata|) <= U64_MAX
      && var tight := limits.(maxMetadataBytes := MetadataSum(metadata, |metadata|));
         PackerAccepts(p, profile, tight, budget, scanned, layout) && !PackFits(p, tight, scanned, layout)
  {
    hide TablesFor, Payloads, PackerAccepts, Metadata, Sections, PackedFile;
    SumWithinLimit(p, profile, limits, budget, scanned, layout);
    var t, payload := TablesFor(p, scanned, layout), Concat(Payloads(p, scanned, layout));
    var tight := limits.(maxMetadataBytes := MetadataSum(Metadata(p, t), |Metadata(p, t)|));
    PackerAcceptsTight(p, profile, limits, budget, scanned, layout, tight);
    ReaderAddsDirectory(p, t, payload, HeaderFor(p, t, payload, OriginalTotal(scanned, |scanned|)));
    assert SectionCount(t) * SECTION_ENTRY_LEN > 0;
  }

  lemma {:induction false} SumWithinLimit(p: Primitives, profile: CompressionProfile, limits: DecodeLimits,
                                          budget: PackBudget, scanned: seq<ScannedEntry>, layout: Layout)
    requires LayoutOk(scanned, layout) && PackerAccepts(p, profile, limits, budget, scanned, layout)
    ensures var metadata := Metadata(p, TablesFor(p, scanned, layout));
      MetadataSum(metadata, |metadata|) <= limits.maxMetadataBytes
  {
  }

  // ----- Single entries under the default limits -----

  /** The reader's limits that packing with `PackLimits::default()` derives. */
  const DEFAULT_LIMITS: DecodeLimits :=
    DecodeLimits(10_000_000, 1_000_000, 10_000_000, 1_000_000_000_000, 1024 * MIB, 1000, 256 * MIB, 32 * KIB, 1024, 64)

  /** The budgets of `PackLimits::default()`. */
  const DEFAULT_BUDGET: PackBudget := PackBudget(U64_MAX, U64_MAX, U64_MAX)

  /** One entry with a one-component path. */
  function OneEntry(c: PathComponent, kind: ScannedKind): seq<ScannedEntry> {
    [ScannedEntry([c], 0, 0, kind)]
  }

  predicate UsableName(p: Primitives, c: PathComponent) {
    p.safeComponent(c) && |c.data| <= DEFAULT_LIMITS.maxPathBytes
  }

  lemma {:induction false} OneEntryScans(p: Primitives, c: PathComponent, kind: ScannedKind)
    requires UsableName(p, c)
    requires kind.ScannedSymlink? ==> ResolvesWithin(kind.target, [c])
    requires kind.ScannedFile? ==> |kind.content| <= MAX_VEC_BYTES
    ensures ScanOk(p, DEFAULT_LIMITS, OneEntry(c, kind))
  {
    assert EncodedLen([c]) == |c.data|;
    assert ScannedOk(p, DEFAULT_LIMITS, OneEntry(c, kind)[0]);
  }

  /** The encoded tables are within the default metadata limit. */
  ghost predicate Small(p: Primitives, scanned: seq<ScannedEntry>, layout: Layout) {
    LayoutOk(scanned, layout) &&
    var metadata := Metadata(p, TablesFor(p, scanned, layout));
    MetadataSum(metadata, |metadata|) <= DEFAULT_LIMITS.maxMetadataBytes
  }

  // ----- A link with an unusable target -----

  function LinkTo(c: PathComponent, d: PathComponent): seq<ScannedEntry> {
    OneEntry(c, ScannedSymlink([Normal(d)], false))
  }

  const NO_GROUPS: Layout := Layout([], Some([]))

  lemma {:induction false} LinkHasNoGroups(p: Primitives, profile: CompressionProfile, c: PathComponent,
                                           d: PathComponent)
    requires profile != Raw
    ensures AllSources(LinkTo(c, d)) == [] && LayoutOk(LinkTo(c, d), NO_GROUPS)
    ensures Planned(p, profile, LinkTo(c, d), NO_GROUPS)
    ensures Payloads(p, LinkTo(c, d), NO_GROUPS) == []
  {
    var scanned := LinkTo(c, d);
    assert Sources(scanned, 1) == Sources(scanned, 0);
    assert Greedy(Lengths(scanned), SolidGroupTarget(profile), 0, []);
  }

  lemma {:induction false} WalkPassesLink(c: PathComponent, d: PathComponent)
    ensures WalkPasses(DEFAULT_LIMITS, LinkTo(c, d), 1)
  {
    var scanned := LinkTo(c, d);
    assert OriginalTotal(scanned, 1) == OriginalTotal(scanned, 0);
    assert SourceFits(DEFAULT_LIMITS, scanned, 0);
  }

  /**
   A link whose target has a component that is no usable file name is packed up to the verification, which refuses it.
   */
  lemma {:induction false} UnusableTargetIsRefused(p: Primitives, profile: CompressionProfile, c: PathComponent,
                                                   d: PathComponent)
    requires profile != Raw && SoundRecords(p) && UsableName(p, c) && !p.safeComponent(d)
    requires Small(p, LinkTo(c, d), NO_GROUPS)
    ensures Planned(p, profile, LinkTo(c, d), NO_GROUPS)
    ensures PackerAccepts(p, profile, DEFAULT_LIMITS, DEFAULT_BUDGET, LinkTo(c, d), NO_GROUPS)
    ensures !PackFits(p, DEFAULT_LIMITS, LinkTo(c, d), NO_GROUPS)
  {
    var scanned := LinkTo(c, d);
    LinkHasNoGroups(p, profile, c, d);
    OneEntryScans(p, c, ScannedSymlink([Normal(d)], false));
    WalkPassesLink(c, d);
    FitsBudgets(p, scanned, NO_GROUPS);
    assert GroupsFitMemory(profile, Lengths(scanned), NO_GROUPS.ends, DEFAULT_BUDGET.Memory());
    assert [Normal(d)][0] in scanned[0].kind.target && !TargetOk(p, scanned[0].kind.target);
    assert !LinkUsable(p, scanned[0]);
  }

  /** A small archive is within the default budgets. */
  lemma {:induction false} FitsBudgets(p: Primitives, scanned: seq<ScannedEntry>, layout: Layout)
    requires SoundRecords(p) && LayoutOk(scanned, layout) && layout.codecs.Some? && Small(p, scanned, layout)
    requires |layout.ends| <= 1
    requires |Concat(Payloads(p, scanned, layout))| <= 1024 * MIB
    ensures WithinBudgets(p, scanned, layout, SpooledBytes(p, scanned, layout), DEFAULT_BUDGET.maxOutput,
                          DEFAULT_BUDGET.maxTemp)
  {
    hide TablesFor, Payloads, Metadata, SoundRecords, Assemble;
    var t := TablesFor(p, scanned, layout);
    ExpectedLength(p, t, Concat(Payloads(p, scanned, layout)), OriginalTotal(scanned, |scanned|));
    PayloadStartsEarly(p, scanned, layout);
  }

  lemma {:induction false} PayloadStartsEarly(p: Primitives, scanned: seq<ScannedEntry>, layout: Layout)
    requires LayoutOk(scanned, layout)
    ensures PayloadOffset(TablesFor(p, scanned, layout)) == StartFor(layout) <= 512
  {
  }

  // ----- One file -----

  function OneFile(c: PathComponent, content: bytes): seq<ScannedEntry> {
    OneEntry(c, ScannedFile(content, None))
  }

  function OneGroup(codec: CodecId): Layout {
    Layout([1], Some([codec]))
  }

  lemma {:induction false} FileIsSource(c: PathComponent, content: bytes)
    ensures AllSources(OneFile(c, content)) == [0] && Contents(OneFile(c, content)) == [content]
    ensures Lengths(OneFile(c, content)) == [|content|]
    ensures OriginalTotal(OneFile(c, content), 1) == |content|
  {
    var scanned := OneFile(c, content);
    assert IsSource(scanned, 0);
    assert Sources(scanned, 1) == Sources(scanned, 0) + [0];
    assert OriginalTotal(scanned, 1) == OriginalTotal(scanned, 0) + |content|;
  }

  lemma {:induction false} OneFileOneGroup(p: Primitives, profile: CompressionProfile, c: PathComponent, content: bytes,
                                           codec: CodecId)
    requires profile != Raw && BestCodec(p, content, ProfileCodecs(profile), codec)
    ensures var scanned, layout := OneFile(c, content), OneGroup(codec);
      && LayoutOk(scanned, layout) && Planned(p, profile, scanned, layout)
      && PartAt(layout.ends, |AllSources(scanned)|, 0) && SumRange(Lengths(scanned), 0, 1) == |content|
      && Payloads(p, scanned, layout) == [p.encode(codec, content)]
  {
    hide BestCodec, ProfileCodecs, Planned;
    var scanned, layout := OneFile(c, content), OneGroup(codec);
    FileIsSource(c, content);
    assert PartAt(layout.ends, 1, 0);
    assert SumRange([|content|], 0, 1) == SumRange([|content|], 0, 0) + |content|;
    assert Joined([content], 0, 1) == Joined([content], 0, 0) + content == content;
    OneGroupIsPlanned(p, profile, c, content, codec);
  }

  lemma {:induction false} OneGroupIsPlanned(p: Primitives, profile: CompressionProfile, c: PathComponent,
                                             content: bytes, codec: CodecId)
    requires profile != Raw && BestCodec(p, content, ProfileCodecs(profile), codec)
    ensures Planned(p, profile, OneFile(c, content), OneGroup(codec))
  {
    hide BestCodec, ProfileCodecs;
    var scanned, layout := OneFile(c, content), OneGroup(codec);
    FileIsSource(c, content);
    assert Joined([content], 0, 1) == Joined([content], 0, 0) + content == content;
    assert PartAt(layout.ends, 1, 0) && GreedyAt([|content|], SolidGroupTarget(profile), 1, [1], 0);
    assert BestAt(p, profile, scanned, layout, 0);
  }

  // ----- Memory -----

  lemma {:induction false} ScratchIsBounded(c: CodecId)
    ensures ScratchBytes(c, DefaultLevel(c)).Some? && ScratchBytes(c, DefaultLevel(c)).value <= 128 * MIB
    ensures c == Zstd ==> ScratchBytes(c, DefaultLevel(c)).value == 128 * MIB
  {
    assert Pow2(26) == 64 * MIB by {
      assert Pow2(6) == 64 && Pow2(16) == 1024 * Pow2(6) && Pow2(26) == 1024 * Pow2(16);
    }
  }

  lemma {:induction false} MemoryIsBounded(candidates: seq<CodecId>, inputLen: nat)
    requires inputLen + 128 * MIB <= U64_MAX
    ensures CodecMemory(candidates, inputLen).Success?
    ensures CodecMemory(candidates, inputLen).value <= inputLen + 128 * MIB
  {
    if candidates != [] {
      MemoryIsBounded(candidates[..|candidates| - 1], inputLen);
      ScratchIsBounded(candidates[|candidates| - 1]);
    }
  }

  /** What a compressing profile needs for a group: twice its length, and 129 MiB and two bytes. */
  lemma {:induction false} MemoryNeeded(profile: CompressionProfile, inputLen: nat, budget: nat)
    requires profile != Raw && inputLen <= MAX_VEC_BYTES
    ensures FitsMemory(ProfileCodecs(profile), inputLen, budget) <==> 2 * inputLen + 129 * MIB + 2 <= budget
  {
    MemoryIsBounded(ProfileCodecs(profile), inputLen);
    CodecMemoryIsMost(ProfileCodecs(profile), inputLen, Zstd);
    ScratchIsBounded(Zstd);
  }

  /** The part an item is in. */
  lemma {:induction false} PartOfItem(lengths: seq<nat>, ends: seq<nat>, s: nat) returns (k: nat)
    requires Partition(ends, |lengths|) && s < |lengths|
    ensures k < |ends| && PartAt(ends, |lengths|, k)
    ensures lengths[s] <= SumRange(lengths, Start(ends, k), ends[k])
  {
    PartFromHolds(ends, |lengths|, s, 0);
    k := PartFrom(ends, s, 0);
    assert PartAt(ends, |lengths|, k);
    SumWithin(lengths, Start(ends, k), s, s + 1, ends[k]);
    assert SumRange(lengths, s, s + 1) == SumRange(lengths, s, s) + lengths[s];
  }

  /** A part is one file, or several within the target of the profile, which is at most 512 MiB. */
  lemma {:induction false} PartLength(profile: CompressionProfile, lengths: seq<nat>, ends: seq<nat>, k: nat)
    requires profile != Raw && PlannedParts(profile, lengths, ends) && k < |ends|
    ensures PartAt(ends, |lengths|, k)
    ensures var length := SumRange(lengths, Start(ends, k), ends[k]);
      length <= SolidGroupTarget(profile) || length == lengths[Start(ends, k)]
  {
    GreedyIsAdmissible(lengths, SolidGroupTarget(profile), |lengths|, ends);
    assert FitsAt(lengths, SolidGroupTarget(profile), |lengths|, ends, k);
    var s := Start(ends, k);
    if ends[k] == s + 1 {
      assert SumRange(lengths, s, s + 1) == SumRange(lengths, s, s) + lengths[s];
    }
  }

  predicate PackableFile(length: nat, budget: nat) {
    2 * length + 129 * MIB + 2 <= budget
  }

  ghost predicate AllPackable(lengths: seq<nat>, budget: nat) {
    forall s | 0 <= s < |lengths| :: PackableFile(lengths[s], budget)
  }

  /** The group of a file fits no budget that the file alone does not fit. */
  lemma {:induction false} LongFileFitsNot(profile: CompressionProfile, lengths: seq<nat>, ends: seq<nat>, s: nat,
                                           budget: nat)
    requires profile != Raw && PlannedParts(profile, lengths, ends) && s < |lengths|
    requires forall i | 0 <= i < |lengths| :: lengths[i] <= MAX_VEC_BYTES
    requires !PackableFile(lengths[s], budget)
    ensures !GroupsFitMemory(profile, lengths, ends, budget)
  {
    hide FitsMemory, ProfileCodecs;
    var k := PartOfItem(lengths, ends, s);
    PartLength(profile, lengths, ends, k);
    MemoryNeeded(profile, SumRange(lengths, Start(ends, k), ends[k]), budget);
    assert !GroupFitsMemory(profile, lengths, ends, budget, k);
  }

  /** With a budget that a group of the profile's target length fits, each file decides for itself. */
  lemma {:induction false} FilesDecideMemory(profile: CompressionProfile, lengths: seq<nat>, ends: seq<nat>,
                                             budget: nat)
    requires profile != Raw && PlannedParts(profile, lengths, ends)
    requires forall i | 0 <= i < |lengths| :: lengths[i] <= MAX_VEC_BYTES
    requires PackableFile(SolidGroupTarget(profile), budget)
    ensures GroupsFitMemory(profile, lengths, ends, budget) <==> AllPackable(lengths, budget)
  {
    hide FitsMemory, ProfileCodecs;
    if AllPackable(lengths, budget) {
      forall k | 0 <= k < |ends| ensures GroupFitsMemory(profile, lengths, ends, budget, k) {
        PartLength(profile, lengths, ends, k);
        assert PackableFile(lengths[Start(ends, k)], budget);
        MemoryNeeded(profile, SumRange(lengths, Start(ends, k), ends[k]), budget);
      }
    } else {
      var s :| 0 <= s < |lengths| && !PackableFile(lengths[s], budget);
      LongFileFitsNot(profile, lengths, ends, s, budget);
    }
  }

  /** The longest file a compressing profile packs whatever the memory limit: just short of 959.5 MiB. */
  const MAX_PACKED_FILE: nat := 959 * MIB + 512 * KIB - 1

  /** No file of the scan is longer than what the memory cap leaves room for. */
  ghost predicate FilesFitCap(scanned: seq<ScannedEntry>) {
    forall i | 0 <= i < |scanned| && scanned[i].kind.ScannedFile? :: |scanned[i].kind.content| <= MAX_PACKED_FILE
  }

  /** Every file of the scan, or the file it is another name of, is a source, and every source is a file of the scan. */
  lemma {:induction false} LengthsAreFiles(p: Primitives, limits: DecodeLimits, scanned: seq<ScannedEntry>)
    requires ScanOk(p, limits, scanned)
    ensures forall s | 0 <= s < |Lengths(scanned)| :: Lengths(scanned)[s] <= MAX_VEC_BYTES
    ensures FilesFitCap(scanned) <==> AllPackable(Lengths(scanned), 2048 * MIB)
  {
    hide ScanOk, Lengths, Contents, Sources;
    var lengths, sources := Lengths(scanned), AllSources(scanned);
    forall s | 0 <= s < |lengths| ensures lengths[s] <= MAX_VEC_BYTES {
      FileIsShort(p, limits, scanned, s);
    }
    forall s | FilesFitCap(scanned) && 0 <= s < |lengths| ensures PackableFile(lengths[s], 2048 * MIB) {
      assert lengths[s] == |scanned[sources[s]].kind.content|;
    }
    forall i | AllPackable(lengths, 2048 * MIB) && 0 <= i < |scanned| && scanned[i].kind.ScannedFile?
      ensures |scanned[i].kind.content| <= MAX_PACKED_FILE {
      FileHasSource(p, limits, scanned, i);
      assert PackableFile(lengths[SourceIndex(scanned, Leader(scanned, i))], 2048 * MIB);
    }
  }

  lemma {:induction false} FileHasSource(p: Primitives, limits: DecodeLimits, scanned: seq<ScannedEntry>, i: nat)
    requires ScanOk(p, limits, scanned) && i < |scanned| && scanned[i].kind.ScannedFile?
    ensures var s := SourceIndex(scanned, Leader(scanned, i));
      s < |Lengths(scanned)| && Lengths(scanned)[s] == |scanned[i].kind.content|
  {
    var leader := Leader(scanned, i);
    LeaderIsSource(scanned, i);
    SourceIndexAt(scanned, leader, |scanned|);
    assert leader == i || SameFile(scanned, leader, i);
  }

  /**
   Whatever is packed, and with the memory limit as high as it goes: the groups fit the scheduler's memory, which is
   capped at 2 GiB, exactly when no file is longer than `MAX_PACKED_FILE`. A longer file is refused under every limit,
   though the walk and the reader allow files of up to 1 GiB.
   */
  lemma {:induction false} MemoryCapDecides(p: Primitives, profile: CompressionProfile, limits: DecodeLimits,
                                            scanned: seq<ScannedEntry>, layout: Layout)
    requires profile != Raw && ScanOk(p, limits, scanned) && Planned(p, profile, scanned, layout)
    ensures GroupsFitMemory(profile, Lengths(scanned), layout.ends, DEFAULT_BUDGET.Memory()) <==> FilesFitCap(scanned)
    ensures !FilesFitCap(scanned) ==>
              forall budget: PackBudget ::
                !GroupsFitMemory(profile, Lengths(scanned), layout.ends, budget.Memory())
  {
    hide ScanOk, BestAt, GroupsFitMemory, FilesFitCap, Lengths;
    var lengths := Lengths(scanned);
    LengthsAreFiles(p, limits, scanned);
    FilesDecideMemory(profile, lengths, layout.ends, 2048 * MIB);
    if !FilesFitCap(scanned) {
      var s :| 0 <= s < |lengths| && !PackableFile(lengths[s], 2048 * MIB);
      forall budget: PackBudget ensures !GroupsFitMemory(profile, lengths, layout.ends, budget.Memory()) {
        LongFileFitsNot(profile, lengths, layout.ends, s, budget.Memory());
      }
    }
  }

  /** The instance of one file within the reader's default limit of 1 GiB, which the walk lets through. */
  lemma {:induction false} OneFileMemory(p: Primitives, profile: CompressionProfile, c: PathComponent,
                                             content: bytes, codec: CodecId)
    requires profile != Raw && UsableName(p, c) && BestCodec(p, content, ProfileCodecs(profile), codec)
    requires |content| <= DEFAULT_LIMITS.maxGroupOutput
    ensures WalkPasses(DEFAULT_LIMITS, OneFile(c, content), 1)
    ensures LayoutOk(OneFile(c, content), OneGroup(codec)) && Planned(p, profile, OneFile(c, content), OneGroup(codec))
    ensures GroupsFitMemory(profile, Lengths(OneFile(c, content)), [1], DEFAULT_BUDGET.Memory())
            <==> |content| <= MAX_PACKED_FILE
    ensures |content| > MAX_PACKED_FILE ==>
              forall budget: PackBudget :: !GroupsFitMemory(profile, Lengths(OneFile(c, content)), [1], budget.Memory())
  {
    hide BestCodec, ProfileCodecs, Planned, GroupsFitMemory, ScanOk;
    var scanned := OneFile(c, content);
    FileIsSource(c, content);
    OneFileOneGroup(p, profile, c, content, codec);
    OneEntryScans(p, c, ScannedFile(content, None));
    assert SourceFits(DEFAULT_LIMITS, scanned, 0);
    MemoryCapDecides(p, profile, DEFAULT_LIMITS, scanned, OneGroup(codec));
    assert scanned[0].kind.content == content;
  }

  /**
   A file that compresses more than a thousandfold passes every check of the packer and is refused by the verification.
   */
  lemma {:induction false} CompressibleFileIsRefused(p: Primitives, profile: CompressionProfile, c: PathComponent,
                                                     content: bytes, codec: CodecId)
    requires profile != Raw && SoundRecords(p) && UsableName(p, c)
    requires BestCodec(p, content, ProfileCodecs(profile), codec)
    requires 0 < |p.encode(codec, content)| && 1000 * |p.encode(codec, content)| < |content| <= MAX_PACKED_FILE
    requires Small(p, OneFile(c, content), OneGroup(codec))
    ensures LayoutOk(OneFile(c, content), OneGroup(codec)) && Planned(p, profile, OneFile(c, content), OneGroup(codec))
    ensures PackerAccepts(p, profile, DEFAULT_LIMITS, DEFAULT_BUDGET, OneFile(c, content), OneGroup(codec))
    ensures !PackFits(p, DEFAULT_LIMITS, OneFile(c, content), OneGroup(codec))
  {
    var scanned, layout := OneFile(c, content), OneGroup(codec);
    OneFileMemory(p, profile, c, content, codec);
    OneFileOneGroup(p, profile, c, content, codec);
    OneEntryScans(p, c, ScannedFile(content, None));
    hide BestCodec, ProfileCodecs, Planned, SoundRecords, ScanOk, GroupsFitMemory, Payloads, WalkPasses, WithinBudgets,
         TablesFor;
    assert Concat([p.encode(codec, content)]) == p.encode(codec, content);
    FitsBudgets(p, scanned, layout);
    OneGroupRecord(p, scanned, layout);
    RatioIsReadersOnly(p, profile, DEFAULT_LIMITS, DEFAULT_BUDGET, scanned, layout, 0,
                       DEFAULT_LIMITS.maxExpansionRatio);
  }

  lemma {:induction false} OneGroupRecord(p: Primitives, scanned: seq<ScannedEntry>, layout: Layout)
    requires LayoutOk(scanned, layout) && |layout.ends| == 1
    ensures PartAt(layout.ends, |AllSources(scanned)|, 0)
    ensures var g := GroupFor(p, scanned, layout, StartFor(layout), 0);
      g.compressedLen == |Payloads(p, scanned, layout)[0]|
      && g.uncompressedLen == SumRange(Lengths(scanned), 0, layout.ends[0])
  {
    assert PartAt(layout.ends, |AllSources(scanned)|, 0);
  }
}
