/** Packing from the request on: the checks before the scan, the reader's limits, and the way of each profile. */
module PackOperation {
  import opened Base
  import opened SolidGroups
  import opened ArchiveFormat
  import opened ArchiveContents
  import opened PackedTables
  import opened ArchiveRoundTrip
  import opened ArchiveWriter
  import opened PackCompressed
  import opened PackRaw
  import opened PackRefusals
  import opened Unpack

  /** How many inputs are named, and whether something already stands at the output path. */
  datatype PackRequest = PackRequest(inputs: nat, outputExists: bool, profile: CompressionProfile)

  datatype PackLimits = PackLimits(maxInput: u64, maxMemory: u64, maxTemp: u64, maxOutput: u64, maxMetadata: u64,
                                   maxEntries: u64)

  /** `DecodeLimits::default()`. */
  const READER_DEFAULTS: DecodeLimits :=
    DecodeLimits(10_000_000, 1_000_000, 50_000_000, 1_000_000_000_000, 1024 * MIB, 1000, 256 * MIB, 32 * KIB, 1024, 64)

  /** `PackLimits::default()`. */
  const PACK_DEFAULTS: PackLimits :=
    PackLimits(READER_DEFAULTS.maxOriginalBytes, U64_MAX, U64_MAX, U64_MAX, READER_DEFAULTS.maxMetadataBytes,
               READER_DEFAULTS.maxEntries)

  /** The limits under which the finished archive is verified; only RAW takes the input limit for a group. */
  function ReaderLimits(profile: CompressionProfile, limits: PackLimits): DecodeLimits {
    READER_DEFAULTS.(
      maxEntries := Min(limits.maxEntries, READER_DEFAULTS.maxEntries),
      maxGroups := Min(limits.maxEntries, READER_DEFAULTS.maxGroups),
      maxChunks := Min(limits.maxEntries, READER_DEFAULTS.maxChunks),
      maxOriginalBytes := limits.maxInput,
      maxGroupOutput := if profile == Raw then Min(limits.maxInput, READER_DEFAULTS.maxGroupOutput)
        else READER_DEFAULTS.maxGroupOutput,
      maxMetadataBytes := Min(limits.maxMetadata, READER_DEFAULTS.maxMetadataBytes))
  }

  function BudgetOf(limits: PackLimits): PackBudget {
    PackBudget(limits.maxMemory, limits.maxTemp, limits.maxOutput)
  }

  /** The defaults are those under which the single-entry examples of `PackRefusals` are refused. */
  lemma {:induction false} DefaultsAgree(profile: CompressionProfile)
    ensures ReaderLimits(profile, PACK_DEFAULTS) == DEFAULT_LIMITS && BudgetOf(PACK_DEFAULTS) == DEFAULT_BUDGET
  {
  }

  /** The refusals before anything is scanned, in their order. */
  function StartError(request: PackRequest, limits: PackLimits): Option<PithosError> {
    if request.inputs == 0 then Some(InvalidMetadata("nenhuma entrada"))
    else if request.outputExists then Some(OutputExists)
    else if limits.maxTemp == 0 || limits.maxOutput == 0 || limits.maxMetadata == 0 || limits.maxEntries == 0
    then Some(ResourceLimit("pack budget"))
    else None
  }

  /** The layout a profile gives an archive: a group for each file with RAW, the planned groups otherwise. */
  ghost predicate Lays(p: Primitives, profile: CompressionProfile, scanned: seq<ScannedEntry>, layout: Layout) {
    LayoutOk(scanned, layout)
    && if profile == Raw then layout == RawLayout(scanned) else Planned(p, profile, scanned, layout)
  }

  /** The archive fits the limits of the reader and the budgets of the packer. */
  ghost predicate Packs(p: Primitives, profile: CompressionProfile, limits: PackLimits, scanned: seq<ScannedEntry>,
                        layout: Layout)
    requires LayoutOk(scanned, layout)
  {
    && PackFits(p, ReaderLimits(profile, limits), scanned, layout)
    && (profile != Raw ==> GroupsFitMemory(profile, Lengths(scanned), layout.ends, BudgetOf(limits).Memory()))
    && WithinBudgets(p, scanned, layout, if profile == Raw then 0 else SpooledBytes(p, scanned, layout),
                     limits.maxOutput, limits.maxTemp)
  }

  lemma {:induction false} OneLayout(p: Primitives, profile: CompressionProfile, scanned: seq<ScannedEntry>, a: Layout,
                                     b: Layout)
    requires Lays(p, profile, scanned, a) && Lays(p, profile, scanned, b)
    ensures a == b
  {
    if profile != Raw {
      PlannedIsUnique(p, profile, scanned, a, b);
    }
  }

  /**
   Packing scanned inputs: refused before the scan for no inputs, an existing output or a zero budget, and otherwise
   successful exactly when the archive its profile lays out fits all limits. The layout, and so the archive, is
   determined by the scan and the profile.
   */
  method Pack(p: Primitives, request: PackRequest, limits: PackLimits, workers: nat, scanned: seq<ScannedEntry>)
    returns (r: Result<bytes, PithosError>, ghost layout: Layout)
    requires SoundCodecs(p) && SoundRecords(p) && SoundTables(p) && EncodingsAreShort(p) && 1 <= workers <= 8
    requires ScanOk(p, ReaderLimits(request.profile, limits), scanned)
    ensures StartError(request, limits).Some? ==> r == Failure(StartError(request, limits).value)
    ensures r.Success? ==> Lays(p, request.profile, scanned, layout)
                           && Packs(p, request.profile, limits, scanned, layout)
                           && r.value == PackedFile(p, scanned, layout)
    ensures r.Failure? && StartError(request, limits).None? ==>
              forall l | Lays(p, request.profile, scanned, l) :: !Packs(p, request.profile, limits, scanned, l)
  {
    hide PackFits, GroupsFitMemory, WithinBudgets, SoundCodecs, SoundRecords, SoundTables, EncodingsAreShort, ScanOk,
         Planned, RawLayout, LayoutOk, ReaderLimits;
    layout := Layout([], None);
    if request.inputs == 0 {
      return Failure(InvalidMetadata("nenhuma entrada")), layout;
    }
    if request.outputExists {
      return Failure(OutputExists), layout;
    }
    if limits.maxTemp == 0 || limits.maxOutput == 0 || limits.maxMetadata == 0 || limits.maxEntries == 0 {
      return Failure(ResourceLimit("pack budget")), layout;
    }
    var readerLimits := ReaderLimits(request.profile, limits);
    if request.profile != Raw {
      r, layout := PackInputs(p, request.profile, readerLimits, BudgetOf(limits), workers, scanned);
      PlannedIsLaid(p, request.profile, scanned);
    } else {
      r := PackRawInputs(p, readerLimits, BudgetOf(limits), scanned);
      layout := RawLayout(scanned);
    }
  }

  lemma {:induction false} PlannedIsLaid(p: Primitives, profile: CompressionProfile, scanned: seq<ScannedEntry>)
    ensures forall l | Planned(p, profile, scanned, l) :: LayoutOk(scanned, l)
  {
  }

  /**
   What packing returns, unpacking turns back into the scanned tree: the archive is unpackable under the limits it was
   packed with, and the only tree that unpacking can finish with is the scanned one.
   */
  lemma {:induction false} PackThenUnpack(p: Primitives, profile: CompressionProfile, limits: PackLimits,
                                          scanned: seq<ScannedEntry>, layout: Layout, maxTempBytes: nat)
    requires SoundCodecs(p) && SoundRecords(p) && SoundTables(p) && ScanOk(p, ReaderLimits(profile, limits), scanned)
    requires Lays(p, profile, scanned, layout) && Packs(p, profile, limits, scanned, layout)
    requires ScannedTree(p, scanned) && ScannedTaken(p, scanned) && OriginalTotal(scanned, |scanned|) <= maxTempBytes
    ensures var file, c := PackedFile(p, scanned, layout), PackedCatalog(p, scanned, layout);
      && Unpackable(p, file, ReaderLimits(profile, limits), maxTempBytes, c)
      && forall tree | Unpacked(p, file, ReaderLimits(profile, limits), c.tables, tree) ::
           IsScannedTree(p, scanned, tree)
  {
    hide Unpacked, IsScannedTree, ScanOk, SoundCodecs, SoundRecords, SoundTables, ScannedTree, ScannedTaken, Planned,
         Unpackable, Verified, GroupsFitMemory, WithinBudgets, PackedFile, PackedCatalog, ReaderLimits, TablesFor,
         OriginalTotal, AllGroupsFit;
    var reader, file, c := ReaderLimits(profile, limits), PackedFile(p, scanned, layout),
                           PackedCatalog(p, scanned, layout);
    PackedIsUnpackable(p, reader, scanned, layout, maxTempBytes);
    forall tree | Unpacked(p, file, reader, c.tables, tree) ensures IsScannedTree(p, scanned, tree) {
      RoundTrip(p, reader, scanned, layout, file, c, tree);
    }
  }
}
