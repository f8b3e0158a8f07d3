/**
 Structural chunking: a scanner's region ends are kept as chunk ends, and large regions are cut further. The
 version on a slice and the one on a reader are proved against the same specification.
 */
module StructuralChunks {
  import opened Base
  import opened ChunkingPolicy
  import opened Chunks
  import opened Chunkers
  import opened Readers

  // ----- Boundaries and the cuts they give -----

  /** Where region `i` starts. */
  function StartOf(ends: seq<nat>, i: nat): nat
    requires i <= |ends|
  {
    if i == 0 then 0 else ends[i - 1]
  }

  predicate RegionAt(ends: seq<nat>, i: nat, size: nat)
    requires i < |ends|
  {
    StartOf(ends, i) < ends[i] <= size
  }

  predicate RegionsWithin(ends: seq<nat>, count: nat, size: nat)
    requires count <= |ends|
  {
    forall i | 0 <= i < count :: RegionAt(ends, i, size)
  }

  /** Strictly ascending region ends, the last of which is the size of the object. */
  predicate BoundariesOk(ends: seq<nat>, size: nat) {
    ends != [] && ends[|ends| - 1] == size && RegionsWithin(ends, |ends|, size)
  }

  method ValidateBoundaryEnds(ends: seq<nat>, size: nat) returns (r: Result<(), PithosError>)
    ensures r.Success? <==> BoundariesOk(ends, size)
  {
    if ends == [] || ends[|ends| - 1] != size {
      return Failure(InvalidMetadata("structural boundaries"));
    }
    var previous := 0;
    for i := 0 to |ends|
      invariant previous == StartOf(ends, i) && RegionsWithin(ends, i, size)
    {
      assert RegionAt(ends, i, size) <==> previous < ends[i] <= size;
      if ends[i] <= previous || ends[i] > size {
        return Failure(InvalidMetadata("structural boundaries"));
      }
      previous := ends[i];
    }
    return Success(());
  }

  function RegionCuts(cdc: FastCdc, data: bytes, start: nat, end: nat, config: ChunkingConfig): seq<Cut>
    requires start <= end <= |data|
  {
    if end - start <= config.fastcdcMax then [Cut(start, end - start)]
    else Shift(CutsOf(cdc, data[start..end], config), start)
  }

  /** The cuts of the first `count` regions. */
  function CutsUpTo(cdc: FastCdc, data: bytes, ends: seq<nat>, count: nat, config: ChunkingConfig): seq<Cut>
    requires count <= |ends| && RegionsWithin(ends, count, |data|)
  {
    if count == 0 then []
    else
      assert RegionAt(ends, count - 1, |data|);
      CutsUpTo(cdc, data, ends, count - 1, config)
        + RegionCuts(cdc, data, StartOf(ends, count - 1), ends[count - 1], config)
  }

  lemma {:induction false} RegionIsTiled(cdc: FastCdc, data: bytes, start: nat, end: nat, config: ChunkingConfig)
    requires SoundCdc(cdc) && ConfigOk(config) && start < end <= |data|
    ensures Tiles(RegionCuts(cdc, data, start, end, config), start, end)
    ensures RegionCuts(cdc, data, start, end, config) != []
    ensures NoLongerThan(RegionCuts(cdc, data, start, end, config), config.fastcdcMax)
  {
    var region := data[start..end];
    CutsAreSound(cdc, region, config);
    if end - start <= config.fastcdcMax {
      assert Tiles([Cut(start, end - start)], start, end);
    } else {
      ShiftTiles(CutsOf(cdc, region, config), 0, |region|, start);
      TilesNeedRoom(CutsOf(cdc, region, config), 0, |region|);
    }
  }

  lemma {:induction false} TilesTogether(a: seq<Cut>, b: seq<Cut>, from: nat, middle: nat, to: nat, max: nat)
    requires Tiles(a, from, middle) && Tiles(b, middle, to) && NoLongerThan(a, max) && NoLongerThan(b, max)
    ensures Tiles(a + b, from, to) && NoLongerThan(a + b, max)
  {
    TilesAppend(a, b, from, middle, to);
  }

  lemma {:induction false} CutsTile(cdc: FastCdc, data: bytes, ends: seq<nat>, count: nat, config: ChunkingConfig)
    requires SoundCdc(cdc) && ConfigOk(config) && count <= |ends| && RegionsWithin(ends, count, |data|)
    ensures Tiles(CutsUpTo(cdc, data, ends, count, config), 0, StartOf(ends, count))
    ensures NoLongerThan(CutsUpTo(cdc, data, ends, count, config), config.fastcdcMax)
  {
    if count > 0 {
      var i := count - 1;
      CutsTile(cdc, data, ends, i, config);
      var start, end := StartOf(ends, i), ends[i];
      assert RegionAt(ends, i, |data|);
      RegionIsTiled(cdc, data, start, end, config);
      TilesTogether(CutsUpTo(cdc, data, ends, i, config), RegionCuts(cdc, data, start, end, config), 0, start, end,
                    config.fastcdcMax);
    }
  }

  lemma {:induction false} OneRegionLonger(cdc: FastCdc, data: bytes, ends: seq<nat>, i: nat, config: ChunkingConfig)
    requires SoundCdc(cdc) && ConfigOk(config) && i < |ends| && RegionsWithin(ends, i + 1, |data|)
    ensures RegionsWithin(ends, i, |data|)
    ensures CutsUpTo(cdc, data, ends, i, config) < CutsUpTo(cdc, data, ends, i + 1, config)
  {
    assert RegionAt(ends, i, |data|);
    RegionIsTiled(cdc, data, StartOf(ends, i), ends[i], config);
  }

  lemma {:induction false} LongerStill<T>(a: seq<T>, b: seq<T>, c: seq<T>, steps: nat)
    requires a <= b < c && |a| + steps <= |b|
    ensures a <= c && |a| + steps + 1 <= |c|
  {
  }

  /** The cuts of fewer regions are the first cuts of more, and each region adds at least one. */
  lemma {:induction false} CutsGrow(cdc: FastCdc, data: bytes, ends: seq<nat>, few: nat, many: nat,
                                    config: ChunkingConfig)
    requires SoundCdc(cdc) && ConfigOk(config) && few <= many <= |ends| && RegionsWithin(ends, many, |data|)
    ensures RegionsWithin(ends, few, |data|)
    ensures CutsUpTo(cdc, data, ends, few, config) <= CutsUpTo(cdc, data, ends, many, config)
    ensures |CutsUpTo(cdc, data, ends, few, config)| + (many - few) <= |CutsUpTo(cdc, data, ends, many, config)|
    decreases many
  {
    if few < many {
      var i := many - 1;
      OneRegionLonger(cdc, data, ends, i, config);
      CutsGrow(cdc, data, ends, few, i, config);
      LongerStill(CutsUpTo(cdc, data, ends, few, config), CutsUpTo(cdc, data, ends, i, config),
                  CutsUpTo(cdc, data, ends, many, config), i - few);
    }
  }

  /** The regions lie in the data, and their cuts stay within the limit. */
  predicate RegionsFit(cdc: FastCdc, data: bytes, ends: seq<nat>, config: ChunkingConfig) {
    RegionsWithin(ends, |ends|, |data|) && |CutsUpTo(cdc, data, ends, |ends|, config)| <= config.maxChunks
  }

  /** When structural chunking of the whole object succeeds. */
  predicate StructuralFits(cdc: FastCdc, data: bytes, origin: ChunkOrigin, ends: seq<nat>, config: ChunkingConfig) {
    && ConfigOk(config) && |data| <= config.maxLogicalBytes && origin.baseOffset + |data| <= U64_MAX
    && if data == [] then ends == []
       else BoundariesOk(ends, |data|) && |CutsUpTo(cdc, data, ends, |ends|, config)| <= config.maxChunks
  }

  function StructuralResult(cdc: FastCdc, data: bytes, origin: ChunkOrigin, ends: seq<nat>, config: ChunkingConfig):
    seq<LogicalChunkDraft>
    requires StructuralFits(cdc, data, origin, ends, config)
  {
    if data == [] then [] else Drafts(origin, CutsUpTo(cdc, data, ends, |ends|, config), Structural)
  }

  // ----- What the result promises -----

  /** The result covers the object without gap or overlap. */
  lemma {:induction false} ResultCovers(cdc: FastCdc, data: bytes, origin: ChunkOrigin, ends: seq<nat>,
                                        config: ChunkingConfig)
    requires SoundCdc(cdc) && StructuralFits(cdc, data, origin, ends, config)
    ensures Covers(StructuralResult(cdc, data, origin, ends, config), origin, origin.baseOffset,
                   origin.baseOffset + |data|)
    ensures forall i | 0 <= i < |StructuralResult(cdc, data, origin, ends, config)| ::
              StructuralResult(cdc, data, origin, ends, config)[i].length <= config.fastcdcMax
  {
    if data != [] {
      var cuts := CutsUpTo(cdc, data, ends, |ends|, config);
      CutsTile(cdc, data, ends, |ends|, config);
      DraftsCover(origin, cuts, Structural, 0, |data|);
    }
  }

  /** The last cut of the first regions ends at the last of their boundaries. */
  lemma {:induction false} LastCutOfRegions(cdc: FastCdc, data: bytes, ends: seq<nat>, config: ChunkingConfig,
                                            count: nat)
    requires SoundCdc(cdc) && ConfigOk(config) && 0 < count <= |ends| && RegionsWithin(ends, count, |data|)
    ensures var cuts := CutsUpTo(cdc, data, ends, count, config);
            cuts != [] && cuts[|cuts| - 1].offset + cuts[|cuts| - 1].length == ends[count - 1]
  {
    var cuts := CutsUpTo(cdc, data, ends, count, config);
    CutsTile(cdc, data, ends, count, config);
    assert RegionAt(ends, count - 1, |data|);
    TilesNeedRoom(cuts, 0, ends[count - 1]);
    TilesEnd(cuts, 0, ends[count - 1]);
  }

  /** Every boundary of the scanner is the end of a chunk. */
  lemma {:induction false} BoundaryIsChunkEnd(cdc: FastCdc, data: bytes, origin: ChunkOrigin, ends: seq<nat>,
                                              config: ChunkingConfig, i: nat)
    returns (k: nat)
    requires SoundCdc(cdc) && StructuralFits(cdc, data, origin, ends, config) && i < |ends|
    ensures k < |StructuralResult(cdc, data, origin, ends, config)|
    ensures EndOf(StructuralResult(cdc, data, origin, ends, config)[k]) == origin.baseOffset + ends[i]
  {
    var all := CutsUpTo(cdc, data, ends, |ends|, config);
    CutsGrow(cdc, data, ends, i + 1, |ends|, config);
    LastCutOfRegions(cdc, data, ends, config, i + 1);
    k := |CutsUpTo(cdc, data, ends, i + 1, config)| - 1;
    assert EndOf(Drafts(origin, all, Structural)[k]) == origin.baseOffset + all[k].offset + all[k].length;
  }

  /** No chunk has a boundary of the scanner strictly inside it. */
  lemma {:induction false} NoChunkCrosses(cdc: FastCdc, data: bytes, origin: ChunkOrigin, ends: seq<nat>,
                                          config: ChunkingConfig, i: nat, k: nat)
    requires SoundCdc(cdc) && StructuralFits(cdc, data, origin, ends, config) && i < |ends|
    requires k < |StructuralResult(cdc, data, origin, ends, config)|
    ensures var c := StructuralResult(cdc, data, origin, ends, config)[k];
            !(c.logicalOffset < origin.baseOffset + ends[i] < EndOf(c))
  {
    var chunks := StructuralResult(cdc, data, origin, ends, config);
    var l := BoundaryIsChunkEnd(cdc, data, origin, ends, config, i);
    ResultCovers(cdc, data, origin, ends, config);
    NoEndInside(chunks, origin, origin.baseOffset, origin.baseOffset + |data|, k, l);
  }

  // ----- On a slice -----

  lemma {:induction false} Relabelled(origin: ChunkOrigin, cuts: seq<Cut>, start: nat,
                                      relabelled: seq<LogicalChunkDraft>)
    requires |relabelled| == |cuts|
    requires var inner := Drafts(origin.(baseOffset := origin.baseOffset + start), cuts, FastCdcV2020);
             forall i | 0 <= i < |cuts| :: relabelled[i] == inner[i].(producer := Structural)
    ensures relabelled == Drafts(origin, Shift(cuts, start), Structural)
  {
  }

  /** Adds the chunks of a region that was cut further, as structural chunks. */
  method Relabel(chunks: seq<LogicalChunkDraft>, subchunks: seq<LogicalChunkDraft>, ghost origin: ChunkOrigin,
                 ghost start: nat, ghost cuts: seq<Cut>)
    returns (all: seq<LogicalChunkDraft>)
    requires subchunks == Drafts(origin.(baseOffset := origin.baseOffset + start), cuts, FastCdcV2020)
    ensures all == chunks + Drafts(origin, Shift(cuts, start), Structural)
  {
    all := chunks;
    for i := 0 to |subchunks|
      invariant |all| == |chunks| + i && all[..|chunks|] == chunks
      invariant forall k | 0 <= k < i :: all[|chunks| + k] == subchunks[k].(producer := Structural)
    {
      all := all + [subchunks[i].(producer := Structural)];
    }
    Relabelled(origin, cuts, start, all[|chunks|..]);
    assert all == all[..|chunks|] + all[|chunks|..];
  }

  method AppendRegion(cdc: FastCdc, data: bytes, chunks: seq<LogicalChunkDraft>, start: nat, end: nat,
                      origin: ChunkOrigin, config: ChunkingConfig)
    returns (r: Result<seq<LogicalChunkDraft>, PithosError>)
    requires SoundCdc(cdc) && ConfigOk(config) && start < end <= |data| && |chunks| <= config.maxChunks
    requires origin.baseOffset + end <= U64_MAX
    ensures r.Success? <==> |chunks| + |RegionCuts(cdc, data, start, end, config)| <= config.maxChunks
    ensures r.Success? ==> r.value == chunks + Drafts(origin, RegionCuts(cdc, data, start, end, config), Structural)
  {
    var length := end - start;
    RegionIsTiled(cdc, data, start, end, config);
    if length <= config.fastcdcMax {
      return PushRelative(chunks, origin, Cut(start, length), Structural, config.maxChunks);
    }
    var remaining := config.maxChunks - |chunks|;
    if remaining == 0 {
      return Failure(ResourceLimit("chunk count"));
    }
    var sub := ChunkFastCdc(cdc, data[start..end], origin.(baseOffset := origin.baseOffset + start),
                            config.(maxChunks := remaining, maxLogicalBytes := length));
    if sub.Failure? {
      return Failure(sub.error);
    }
    var all := Relabel(chunks, sub.value, origin, start, CutsOf(cdc, data[start..end], config));
    return Success(all);
  }

  /** The chunks of the first `count` regions have been collected within the limit. */
  ghost predicate Collected(cdc: FastCdc, data: bytes, origin: ChunkOrigin, ends: seq<nat>, config: ChunkingConfig,
                            count: nat, chunks: seq<LogicalChunkDraft>)
  {
    && count <= |ends| && RegionsWithin(ends, count, |data|) && |chunks| <= config.maxChunks
    && chunks == Drafts(origin, CutsUpTo(cdc, data, ends, count, config), Structural)
  }

  lemma {:induction false} StartIsInside(ends: seq<nat>, i: nat, size: nat)
    requires i < |ends| && RegionsWithin(ends, |ends|, size)
    ensures StartOf(ends, i) < ends[i] <= size && RegionsWithin(ends, i + 1, size)
  {
    assert RegionAt(ends, i, size);
  }

  lemma {:induction false} OneMoreRegion(cdc: FastCdc, data: bytes, origin: ChunkOrigin, ends: seq<nat>,
                                         config: ChunkingConfig, i: nat, chunks: seq<LogicalChunkDraft>,
                                         next: seq<LogicalChunkDraft>)
    requires i < |ends| && Collected(cdc, data, origin, ends, config, i, chunks) && StartOf(ends, i) < ends[i] <= |data|
    requires |next| <= config.maxChunks
    requires next == chunks + Drafts(origin, RegionCuts(cdc, data, StartOf(ends, i), ends[i], config), Structural)
    ensures Collected(cdc, data, origin, ends, config, i + 1, next)
  {
    assert RegionAt(ends, i, |data|);
    DraftsAppend(origin, CutsUpTo(cdc, data, ends, i, config), RegionCuts(cdc, data, StartOf(ends, i), ends[i], config),
                 Structural);
  }

  /** A region that does not fit means that the whole object does not. */
  lemma {:induction false} RegionFails(cdc: FastCdc, data: bytes, origin: ChunkOrigin, ends: seq<nat>,
                                       config: ChunkingConfig, i: nat, chunks: seq<LogicalChunkDraft>)
    requires SoundCdc(cdc) && ConfigOk(config) && i < |ends| && Collected(cdc, data, origin, ends, config, i, chunks)
    requires StartOf(ends, i) < ends[i]
    requires ends[i] <= |data| ==>
               |chunks| + |RegionCuts(cdc, data, StartOf(ends, i), ends[i], config)| > config.maxChunks
    ensures !RegionsFit(cdc, data, ends, config)
  {
    if RegionsWithin(ends, |ends|, |data|) {
      StartIsInside(ends, i, |data|);
      CutsGrow(cdc, data, ends, i + 1, |ends|, config);
    }
  }

  lemma {:induction false} CutsAccepted(cdc: FastCdc, data: bytes, origin: ChunkOrigin, ends: seq<nat>,
                                        config: ChunkingConfig)
    requires SoundCdc(cdc) && ConfigOk(config) && BoundariesOk(ends, |data|) && origin.baseOffset + |data| <= U64_MAX
    ensures AcceptedCoverage(Drafts(origin, CutsUpTo(cdc, data, ends, |ends|, config), Structural), origin, |data|)
  {
    CutsTile(cdc, data, ends, |ends|, config);
    DraftsAccepted(origin, CutsUpTo(cdc, data, ends, |ends|, config), Structural, |data|);
  }

  method ChunkStructural(cdc: FastCdc, data: bytes, origin: ChunkOrigin, ends: seq<nat>, config: ChunkingConfig)
    returns (r: Result<seq<LogicalChunkDraft>, PithosError>)
    requires SoundCdc(cdc)
    ensures r.Success? <==> StructuralFits(cdc, data, origin, ends, config)
    ensures r.Success? ==> r.value == StructuralResult(cdc, data, origin, ends, config)
  {
    if !ConfigOk(config) {
      return Failure(InvalidMetadata("FastCDC sizes"));
    }
    if |data| > config.maxLogicalBytes {
      return Failure(ResourceLimit("logical bytes"));
    }
    if origin.baseOffset + |data| > U64_MAX {
      return Failure(IntegerOverflow);
    }
    if data == [] {
      return if ends == [] then Success([]) else Failure(InvalidMetadata("structural boundaries"));
    }
    if |ends| > config.maxChunks {
      if BoundariesOk(ends, |data|) {
        CutsGrow(cdc, data, ends, 0, |ends|, config);
      }
      return Failure(ResourceLimit("chunk count"));
    }
    var valid := ValidateBoundaryEnds(ends, |data|);
    if valid.Failure? {
      return Failure(valid.error);
    }
    r := AppendRegions(cdc, data, origin, ends, config);
    if r.Failure? {
      return;
    }
    CutsAccepted(cdc, data, origin, ends, config);
    var covered := ValidateChunkCoverage(r.value, origin, |data|);
    if covered.Failure? {
      assert false;
    }
  }

  method AppendRegions(cdc: FastCdc, data: bytes, origin: ChunkOrigin, ends: seq<nat>, config: ChunkingConfig)
    returns (r: Result<seq<LogicalChunkDraft>, PithosError>)
    requires SoundCdc(cdc) && ConfigOk(config) && BoundariesOk(ends, |data|) && origin.baseOffset + |data| <= U64_MAX
    ensures r.Success? <==> RegionsFit(cdc, data, ends, config)
    ensures r.Success? ==> r.value == Drafts(origin, CutsUpTo(cdc, data, ends, |ends|, config), Structural)
  {
    var chunks: seq<LogicalChunkDraft> := [];
    for i := 0 to |ends|
      invariant Collected(cdc, data, origin, ends, config, i, chunks)
    {
      StartIsInside(ends, i, |data|);
      var next := AppendRegion(cdc, data, chunks, StartOf(ends, i), ends[i], origin, config);
      if next.Failure? {
        RegionFails(cdc, data, origin, ends, config, i, chunks);
        return Failure(next.error);
      }
      OneMoreRegion(cdc, data, origin, ends, config, i, chunks, next.value);
      chunks := next.value;
    }
    return Success(chunks);
  }

  // ----- On a reader -----

  const REGION_BUFFER: nat := 64 * 1024

  /** Reads past a region that is kept whole. */
  method ConsumeExactRegion(reader: ByteReader, length: nat) returns (r: Result<(), PithosError>)
    requires reader.Valid()
    modifies reader`position
    ensures reader.Valid()
    ensures r.Success? <==> length <= |old(reader.Rest())|
    ensures r.Success? ==> reader.Rest() == old(reader.Rest())[length..]
  {
    var remaining := length;
    while remaining > 0
      invariant reader.Valid() && 0 <= remaining <= length && length - remaining <= |old(reader.Rest())|
      invariant reader.Rest() == old(reader.Rest())[length - remaining..]
    {
      var block := reader.Read(if remaining < REGION_BUFFER then remaining else REGION_BUFFER);
      if block == [] {
        return Failure(InvalidMetadata("short structural stream"));
      }
      remaining := remaining - |block|;
    }
    return Success(());
  }

  /** One region from the reader; the bytes before it have been read. */
  method AppendReaderRegion(cdc: FastCdc, reader: ByteReader, ghost data: bytes, chunks: seq<LogicalChunkDraft>,
                            start: nat, end: nat, origin: ChunkOrigin, config: ChunkingConfig)
    returns (r: Result<seq<LogicalChunkDraft>, PithosError>)
    requires reader.Valid() && start < end && start <= |data| && reader.Rest() == data[start..]
    requires SoundCdc(cdc) && ConfigOk(config) && |chunks| <= config.maxChunks && origin.baseOffset + end <= U64_MAX
    modifies reader`position
    ensures reader.Valid()
    ensures r.Success? <==> end <= |data| && |chunks| + |RegionCuts(cdc, data, start, end, config)| <= config.maxChunks
    ensures r.Success? ==> r.value == chunks + Drafts(origin, RegionCuts(cdc, data, start, end, config), Structural)
    ensures r.Success? ==> reader.Rest() == data[end..]
  {
    var length := end - start;
    if end <= |data| {
      RegionIsTiled(cdc, data, start, end, config);
      RestSplits(data, start, end);
    }
    if length <= config.fastcdcMax {
      var consumed := ConsumeExactRegion(reader, length);
      if consumed.Failure? {
        return Failure(consumed.error);
      }
      return PushRelative(chunks, origin, Cut(start, length), Structural, config.maxChunks);
    }
    var remaining := config.maxChunks - |chunks|;
    if remaining == 0 {
      return Failure(ResourceLimit("chunk count"));
    }
    var block := reader.ReadUpTo(length);
    r := AppendStream(cdc, block, data, chunks, start, end, origin, config);
  }

  lemma {:induction false} RestSplits(data: bytes, start: nat, end: nat)
    requires start <= end <= |data|
    ensures data[start..] == data[start..end] + data[end..] && data[start..][end - start..] == data[end..]
    ensures forall block: bytes, rest: bytes | block + rest == data[start..]
            && |block| == end - start :: block == data[start..end] && rest == data[end..]
  {
    forall block: bytes, rest: bytes | block + rest == data[start..] && |block| == end - start
      ensures block == data[start..end] && rest == data[end..]
    {
      assert block == (block + rest)[..end - start] && rest == (block + rest)[end - start..];
    }
  }

  /** The chunks of a large region, from the bytes that the reader gave for it. */
  method AppendStream(cdc: FastCdc, block: bytes, ghost data: bytes, chunks: seq<LogicalChunkDraft>, start: nat,
                      end: nat, origin: ChunkOrigin, config: ChunkingConfig)
    returns (r: Result<seq<LogicalChunkDraft>, PithosError>)
    requires start <= |data| && end - start > config.fastcdcMax && |block| <= end - start
    requires end <= |data| ==> block == data[start..end]
    requires end > |data| ==> |block| < end - start
    requires SoundCdc(cdc) && ConfigOk(config) && |chunks| < config.maxChunks && origin.baseOffset + end <= U64_MAX
    ensures r.Success? <==> end <= |data| && |chunks| + |RegionCuts(cdc, data, start, end, config)| <= config.maxChunks
    ensures r.Success? ==> r.value == chunks + Drafts(origin, RegionCuts(cdc, data, start, end, config), Structural)
  {
    var length := end - start;
    var subOrigin := origin.(baseOffset := origin.baseOffset + start);
    var subConfig := config.(maxChunks := config.maxChunks - |chunks|, maxLogicalBytes := length);
    BoundedFits(cdc, block, subOrigin, subConfig);
    var sub := ChunkFastCdcStream(cdc, block, subOrigin, subConfig);
    if sub.Failure? {
      return Failure(sub.error);
    }
    if |block| < length {
      return Failure(InvalidMetadata("short structural stream"));
    }
    CutsAreSound(cdc, block, config);
    DraftsAccepted(subOrigin, CutsOf(cdc, block, config), FastCdcV2020, length);
    var covered := ValidateChunkCoverage(sub.value, subOrigin, length);
    if covered.Failure? {
      assert false;
    }
    var all := Relabel(chunks, sub.value, origin, start, CutsOf(cdc, block, config));
    return Success(all);
  }

  /** Chunks a stream; it must end exactly at the last boundary. */
  method ChunkStructuralReader(cdc: FastCdc, reader: ByteReader, origin: ChunkOrigin, ends: seq<nat>,
                               config: ChunkingConfig)
    returns (r: Result<seq<LogicalChunkDraft>, PithosError>)
    requires SoundCdc(cdc) && reader.Valid()
    modifies reader`position
    ensures r.Success? <==> StructuralFits(cdc, old(reader.Rest()), origin, ends, config)
    ensures r.Success? ==>
              r.value == StructuralResult(cdc, old(reader.Rest()), origin, ends, config) && reader.Valid()
              && reader.Rest() == []
  {
    ghost var data := reader.Rest();
    if !ConfigOk(config) {
      return Failure(InvalidMetadata("FastCDC sizes"));
    }
    var size := if ends == [] then 0 else ends[|ends| - 1];
    if size > config.maxLogicalBytes {
      return Failure(ResourceLimit("logical bytes"));
    }
    if origin.baseOffset + size > U64_MAX {
      return Failure(IntegerOverflow);
    }
    if size == 0 {
      if ends != [] {
        return Failure(InvalidMetadata("structural boundaries"));
      }
      var trailing := reader.Read(1);
      return if trailing == [] then Success([]) else Failure(InvalidMetadata("trailing structural data"));
    }
    if |ends| > config.maxChunks {
      if BoundariesOk(ends, |data|) {
        CutsGrow(cdc, data, ends, 0, |ends|, config);
      }
      return Failure(ResourceLimit("chunk count"));
    }
    var valid := ValidateBoundaryEnds(ends, size);
    if valid.Failure? {
      return Failure(valid.error);
    }
    r := AppendReaderRegions(cdc, reader, data, origin, ends, config);
    if r.Failure? {
      return;
    }
    var trailing := reader.Read(1);
    if trailing != [] {
      return Failure(InvalidMetadata("trailing structural data"));
    }
    assert |data| == size;
    CutsAccepted(cdc, data, origin, ends, config);
    var covered := ValidateChunkCoverage(r.value, origin, size);
    if covered.Failure? {
      assert false;
    }
  }

  method AppendReaderRegions(cdc: FastCdc, reader: ByteReader, ghost data: bytes, origin: ChunkOrigin, ends: seq<nat>,
                             config: ChunkingConfig)
    returns (r: Result<seq<LogicalChunkDraft>, PithosError>)
    requires SoundCdc(cdc) && reader.Valid() && reader.Rest() == data
    requires ConfigOk(config) && ends != [] && BoundariesOk(ends, ends[|ends| - 1])
    requires origin.baseOffset + ends[|ends| - 1] <= U64_MAX
    modifies reader`position
    ensures reader.Valid()
    ensures r.Success? <==> RegionsFit(cdc, data, ends, config)
    ensures r.Success? ==> r.value == Drafts(origin, CutsUpTo(cdc, data, ends, |ends|, config), Structural)
    ensures r.Success? ==> ends[|ends| - 1] <= |data| && reader.Rest() == data[ends[|ends| - 1]..]
  {
    var chunks: seq<LogicalChunkDraft> := [];
    for i := 0 to |ends|
      invariant reader.Valid() && StartOf(ends, i) <= |data| && reader.Rest() == data[StartOf(ends, i)..]
      invariant Collected(cdc, data, origin, ends, config, i, chunks)
    {
      StartIsInside(ends, i, ends[|ends| - 1]);
      var next := AppendReaderRegion(cdc, reader, data, chunks, StartOf(ends, i), ends[i], origin, config);
      if next.Failure? {
        RegionFails(cdc, data, origin, ends, config, i, chunks);
        return Failure(next.error);
      }
      OneMoreRegion(cdc, data, origin, ends, config, i, chunks, next.value);
      chunks := next.value;
    }
    return Success(chunks);
  }
}
