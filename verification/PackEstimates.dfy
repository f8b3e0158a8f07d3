/** The estimate of what a pack needs, and that it is enough. */
module PackEstimates {
  import opened Base
  import opened GreedyPartition
  import opened SolidGroups
  import opened ArchiveFormat
  import opened ArchiveLayout
  import opened PackedTables
  import opened ArchiveRoundTrip
  import opened ArchiveSpool
  import opened ArchiveWriter
  import opened GroupTasks
  import opened PackCompressed
  import opened PackRaw
  import opened PackRefusals
  import opened PackOperation

  datatype PackEstimate = PackEstimate(memory: u64, temp: u64, output: u64)

  const ENTRY_OVERHEAD: nat := MIB
  const FIXED_OVERHEAD: nat := 16 * MIB
  const SCAN_ENTRY_MEMORY: nat := 512
  const IO_BUFFER_SIZE: nat := 64 * KIB

  /** What the inputs were measured as: bytes of all files, the longest file, and the number of entries. */
  datatype Measurement = Measurement(bytes: u64, maxFile: u64, entries: u64)

  function LargestGroup(profile: CompressionProfile, m: Measurement): u64 {
    Max(m.maxFile, Min(m.bytes, SolidGroupTarget(profile)))
  }

  function EstimatePack(profile: CompressionProfile, m: Measurement): Result<PackEstimate, PithosError> {
    var perEntry :- CheckedMul(m.entries, ENTRY_OVERHEAD);
    var metadata :- CheckedAdd(perEntry, FIXED_OVERHEAD);
    var output :- CheckedAdd(m.bytes, metadata);
    var scanned :- CheckedMul(m.entries, SCAN_ENTRY_MEMORY);
    var scanMemory :- CheckedAdd(scanned, IO_BUFFER_SIZE);
    if profile == Raw then Success(PackEstimate(scanMemory, output, output))
    else
      var largest := LargestGroup(profile, m);
      var codecMemory :- CodecMemory(ProfileCodecs(profile), largest);
      var selected :- CheckedAdd(largest, OUTPUT_SLACK);
      var taskMemory :- CheckedAdd(codecMemory, selected);
      var temp :- CheckedAdd(m.bytes, output);
      Success(PackEstimate(Max(taskMemory, scanMemory), temp, output))
  }

  // ----- What the estimate comes to -----

  lemma {:induction false} CodecMemoryIs(profile: CompressionProfile, length: u64)
    requires profile != Raw
    ensures CodecMemory(ProfileCodecs(profile), length)
            == if length + 128 * MIB <= U64_MAX then Success(length + 128 * MIB) else Failure(IntegerOverflow)
  {
    ScratchIsBounded(Zstd);
    if length + 128 * MIB <= U64_MAX {
      MemoryIsBounded(ProfileCodecs(profile), length);
      CodecMemoryIsMost(ProfileCodecs(profile), length, Zstd);
    } else {
      OnlyOverflows(ProfileCodecs(profile), length);
      if CodecMemory(ProfileCodecs(profile), length).Success? {
        CodecMemoryIsMost(ProfileCodecs(profile), length, Zstd);
        assert false;
      }
    }
  }

  lemma {:induction false} OnlyOverflows(candidates: seq<CodecId>, length: nat)
    ensures CodecMemory(candidates, length).Failure? ==> CodecMemory(candidates, length).error == IntegerOverflow
  {
    if candidates != [] {
      OnlyOverflows(candidates[..|candidates| - 1], length);
      ScratchIsBounded(candidates[|candidates| - 1]);
    }
  }

  function OutputBound(m: Measurement): nat {
    m.bytes + m.entries * ENTRY_OVERHEAD + FIXED_OVERHEAD
  }

  /** The group of the largest length takes twice that and 129 MiB. */
  function TaskMemory(profile: CompressionProfile, m: Measurement): nat {
    2 * LargestGroup(profile, m) + 129 * MIB + 2
  }

  /** The estimate exists exactly when nothing it adds up overflows, and then in closed form. */
  lemma {:induction false} EstimateIs(profile: CompressionProfile, m: Measurement)
    ensures EstimatePack(profile, m).Success? <==>
            if profile == Raw then OutputBound(m) <= U64_MAX
              else m.bytes + OutputBound(m) <= U64_MAX && TaskMemory(profile, m) <= U64_MAX
    ensures EstimatePack(profile, m).Failure? ==> EstimatePack(profile, m).error == IntegerOverflow
    ensures var scanMemory := m.entries * SCAN_ENTRY_MEMORY + IO_BUFFER_SIZE;
      EstimatePack(profile, m).Success? ==>
        EstimatePack(profile, m).value ==
        if profile == Raw then PackEstimate(scanMemory, OutputBound(m), OutputBound(m))
        else PackEstimate(Max(TaskMemory(profile, m), scanMemory), m.bytes + OutputBound(m), OutputBound(m))
  {
    if profile != Raw {
      CodecMemoryIs(profile, LargestGroup(profile, m));
    }
    hide CodecMemory, ProfileCodecs, LargestGroup;
  }

  // ----- It is enough -----

  /** The measurement covers the stored files: their total, and each of them. */
  ghost predicate Covers(m: Measurement, lengths: seq<nat>) {
    SumRange(lengths, 0, |lengths|) <= m.bytes && forall s | 0 <= s < |lengths| :: lengths[s] <= m.maxFile
  }

  lemma {:induction false} GroupIsCovered(profile: CompressionProfile, lengths: seq<nat>, ends: seq<nat>,
                                          m: Measurement, k: nat)
    requires profile != Raw && PlannedParts(profile, lengths, ends) && Covers(m, lengths) && k < |ends|
    ensures PartAt(ends, |lengths|, k)
    ensures SumRange(lengths, Start(ends, k), ends[k]) <= LargestGroup(profile, m)
  {
    PartLength(profile, lengths, ends, k);
    SumWithin(lengths, 0, Start(ends, k), ends[k], |lengths|);
  }

  /**
   With the estimated memory as limit the groups fit, exactly unless a file is too long for the cap of 2 GiB, where no
   limit helps.
   */
  lemma {:induction false} MemoryIsEnough(profile: CompressionProfile, lengths: seq<nat>, ends: seq<nat>,
                                          m: Measurement, budget: PackBudget)
    requires profile != Raw && PlannedParts(profile, lengths, ends) && Covers(m, lengths)
    requires forall s | 0 <= s < |lengths| :: lengths[s] <= MAX_VEC_BYTES
    requires TaskMemory(profile, m) <= budget.maxMemory
    ensures GroupsFitMemory(profile, lengths, ends, budget.Memory()) <==> AllPackable(lengths, 2048 * MIB)
  {
    hide FitsMemory, ProfileCodecs;
    if TaskMemory(profile, m) <= 2048 * MIB {
      forall k | 0 <= k < |ends| ensures GroupFitsMemory(profile, lengths, ends, budget.Memory(), k) {
        GroupIsCovered(profile, lengths, ends, m, k);
        MemoryNeeded(profile, SumRange(lengths, Start(ends, k), ends[k]), budget.Memory());
      }
      forall s | 0 <= s < |lengths| ensures PackableFile(lengths[s], 2048 * MIB) {
      }
    } else {
      FilesDecideMemory(profile, lengths, ends, 2048 * MIB);
    }
  }

  lemma {:induction false} PayloadNeverGrows(p: Primitives, profile: CompressionProfile, scanned: seq<ScannedEntry>,
                                             layout: Layout, k: nat)
    requires SoundCodecs(p) && Lays(p, profile, scanned, layout) && k < |layout.ends|
    ensures PartAt(layout.ends, |AllSources(scanned)|, k)
    ensures |GroupPayload(p, scanned, layout, k)|
            <= SumRange(Lengths(scanned), Start(layout.ends, k), layout.ends[k])
  {
    hide SoundCodecs, BestCodec, Joined;
    assert PartAt(layout.ends, |AllSources(scanned)|, k);
    JoinedLength(scanned, Start(layout.ends, k), layout.ends[k]);
    if profile != Raw {
      assert BestAt(p, profile, scanned, layout, k);
      BestNeverGrows(p, GroupInput(scanned, layout, k), ProfileCodecs(profile), layout.codecs.value[k]);
    }
  }

  predicate BlockWithin(blocks: seq<bytes>, lengths: seq<nat>, ends: seq<nat>, k: nat)
    requires k < |blocks| == |ends|
  {
    PartAt(ends, |lengths|, k) && |blocks[k]| <= SumRange(lengths, Start(ends, k), ends[k])
  }

  lemma {:induction false} BlocksWithin(blocks: seq<bytes>, lengths: seq<nat>, ends: seq<nat>, k: nat)
    requires k <= |blocks| == |ends| && forall i | 0 <= i < |blocks| :: BlockWithin(blocks, lengths, ends, i)
    ensures Start(ends, k) <= |lengths| && BlockStart(blocks, k) <= SumRange(lengths, 0, Start(ends, k))
  {
    if k > 0 {
      BlocksWithin(blocks, lengths, ends, k - 1);
      assert BlockWithin(blocks, lengths, ends, k - 1);
      SumSplits(lengths, 0, Start(ends, k - 1), ends[k - 1]);
    }
  }

  /** No profile makes a group longer than its files. */
  lemma {:induction false} PayloadsNeverGrow(p: Primitives, profile: CompressionProfile, scanned: seq<ScannedEntry>,
                                             layout: Layout)
    requires SoundCodecs(p) && Lays(p, profile, scanned, layout)
    ensures |Concat(Payloads(p, scanned, layout))| <= SumRange(Lengths(scanned), 0, |Lengths(scanned)|)
  {
    hide SoundCodecs, GroupPayload, Lengths, SumRange, BestAt, RawLayout, Greedy;
    var blocks, lengths := Payloads(p, scanned, layout), Lengths(scanned);
    forall k | 0 <= k < |blocks| ensures BlockWithin(blocks, lengths, layout.ends, k) {
      PayloadNeverGrows(p, profile, scanned, layout, k);
    }
    BlocksWithin(blocks, lengths, layout.ends, |blocks|);
    ConcatLength(blocks);
  }

  /**
   What an archive holds besides its payload, and two bytes for each spool file, is within the estimate's allowance.
   */
  ghost predicate OverheadAllowed(p: Primitives, scanned: seq<ScannedEntry>, layout: Layout, m: Measurement)
    requires LayoutOk(scanned, layout)
  {
    var t := TablesFor(p, scanned, layout);
    PayloadOffset(t) + MetadataSum(Metadata(p, t), |Metadata(p, t)|) + FOOTER_LEN + 2 * |layout.ends|
    <= m.entries * ENTRY_OVERHEAD + FIXED_OVERHEAD
  }

  lemma {:induction false} DiskIsEnough(p: Primitives, profile: CompressionProfile, limits: PackLimits,
                                        scanned: seq<ScannedEntry>, layout: Layout, m: Measurement)
    requires SoundCodecs(p) && SoundRecords(p) && Lays(p, profile, scanned, layout) && Covers(m, Lengths(scanned))
    requires OverheadAllowed(p, scanned, layout, m) && OutputBound(m) <= limits.maxOutput
    requires (if profile == Raw then OutputBound(m) else m.bytes + OutputBound(m)) <= limits.maxTemp
    ensures WithinBudgets(p, scanned, layout, if profile == Raw then 0 else SpooledBytes(p, scanned, layout),
                          limits.maxOutput, limits.maxTemp)
  {
    var payload := Concat(Payloads(p, scanned, layout));
    PayloadsNeverGrow(p, profile, scanned, layout);
    assert |payload| <= m.bytes;
    hide Payloads, TablesFor, Metadata, Assemble, SoundCodecs, SoundRecords, Lays, Covers, Lengths, PayloadOffset;
    ExpectedLength(p, TablesFor(p, scanned, layout), payload, OriginalTotal(scanned, |scanned|));
  }

  /**
   The estimate is conservative: with its memory, temporary space and output as limits, and metadata within its
   allowance, a pack fails only for the reader's limits or for a file too long for the cap on memory.
   */
  lemma {:induction false} EstimateIsEnough(p: Primitives, profile: CompressionProfile, limits: PackLimits,
                                            scanned: seq<ScannedEntry>, layout: Layout, m: Measurement)
    requires SoundCodecs(p) && SoundRecords(p) && ScanOk(p, ReaderLimits(profile, limits), scanned)
    requires Lays(p, profile, scanned, layout) && Covers(m, Lengths(scanned))
    requires OverheadAllowed(p, scanned, layout, m)
    requires EstimatePack(profile, m).Success?
    requires var e := EstimatePack(profile, m).value;
      e.memory <= limits.maxMemory && e.temp <= limits.maxTemp && e.output <= limits.maxOutput
    ensures Packs(p, profile, limits, scanned, layout) <==>
            PackFits(p, ReaderLimits(profile, limits), scanned, layout) && (profile != Raw ==> FilesFitCap(scanned))
  {
    hide ScanOk, SoundCodecs, SoundRecords, PackFits, GroupsFitMemory, WithinBudgets, EstimatePack, OverheadAllowed,
         FilesFitCap, AllPackable, TaskMemory, OutputBound, Covers, Lengths, BestAt, Greedy, ReaderLimits, PackedFile;
    EstimateIs(profile, m);
    DiskIsEnough(p, profile, limits, scanned, layout, m);
    LengthsAreFiles(p, ReaderLimits(profile, limits), scanned);
    if profile != Raw {
      MemoryIsEnough(profile, Lengths(scanned), layout.ends, m, BudgetOf(limits));
    }
  }
}
