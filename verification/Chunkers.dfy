/** Readers: a byte stream that hands out its bytes in pieces of any size. */
module Readers {
  import opened Base

  class ByteReader {
    const data: bytes
    var position: nat

    constructor (data: bytes)
      ensures Valid() && this.data == data && position == 0
    {
      this.data := data;
      position := 0;
    }

    ghost predicate Valid()
      reads this
    {
      position <= |data|
    }

    /** What has not been read yet. */
    ghost function Rest(): bytes
      requires Valid()
      reads this
    {
      data[position..]
    }

    /** A read may be short, but it is empty only at the end. */
    method Read(request: nat) returns (block: bytes)
      requires Valid()
      modifies this`position
      ensures Valid() && |block| <= request && old(Rest()) == block + Rest()
      ensures block == [] ==> request == 0 || old(Rest()) == []
    {
      var most := if request <= |data| - position then request else |data| - position;
      var count: nat :| count <= most && (count == 0 ==> most == 0);
      block := data[position..position + count];
      position := position + count;
    }

    /** Reads until `limit` bytes have been seen or the stream ends. */
    method ReadUpTo(limit: nat) returns (block: bytes)
      requires Valid()
      modifies this`position
      ensures Valid() && old(Rest()) == block + Rest()
      ensures |block| == if |old(Rest())| < limit then |old(Rest())| else limit
    {
      block := [];
      var open := true;
      while open && |block| < limit
        invariant Valid() && old(Rest()) == block + Rest() && |block| <= limit
        invariant !open ==> Rest() == []
        decreases open, limit - |block|
      {
        var more := Read(limit - |block|);
        block := block + more;
        open := more != [];
      }
    }
  }
}

/** Fixed, content-defined and structural chunking of one object. */
module Chunkers {
  import opened Base
  import opened ChunkingPolicy
  import opened Chunks

  // ----- Cuts relative to the object -----

  predicate Tiles(cuts: seq<Cut>, from: nat, to: nat) {
    if cuts == [] then from == to
    else cuts[0].offset == from && cuts[0].length > 0 && Tiles(cuts[1..], from + cuts[0].length, to)
  }

  lemma {:induction false} TilesAppend(a: seq<Cut>, b: seq<Cut>, from: nat, middle: nat, to: nat)
    requires Tiles(a, from, middle)
    ensures Tiles(a + b, from, to) <==> Tiles(b, middle, to)
  {
    if a == [] {
      assert a + b == b;
    } else {
      TilesAppend(a[1..], b, from + a[0].length, middle, to);
      assert (a + b)[1..] == a[1..] + b;
    }
  }

  lemma {:induction false} TilesNeedRoom(cuts: seq<Cut>, from: nat, to: nat)
    requires Tiles(cuts, from, to)
    ensures from <= to && (cuts == [] <==> from == to)
    ensures cuts != [] ==> cuts[0].offset + cuts[0].length <= to
  {
    if cuts != [] {
      TilesNeedRoom(cuts[1..], from + cuts[0].length, to);
    }
  }

  /** The last cut of a tiling ends where the tiling does. */
  lemma {:induction false} TilesEnd(cuts: seq<Cut>, from: nat, to: nat)
    requires Tiles(cuts, from, to) && cuts != []
    ensures cuts[|cuts| - 1].offset + cuts[|cuts| - 1].length == to
  {
    if |cuts| > 1 {
      TilesEnd(cuts[1..], from + cuts[0].length, to);
    }
  }

  function Shift(cuts: seq<Cut>, shift: nat): (s: seq<Cut>)
    ensures |s| == |cuts| && forall i | 0 <= i < |s| :: s[i] == Cut(cuts[i].offset + shift, cuts[i].length)
  {
    seq(|cuts|, i requires 0 <= i < |cuts| => Cut(cuts[i].offset + shift, cuts[i].length))
  }

  lemma {:induction false} ShiftTiles(cuts: seq<Cut>, from: nat, to: nat, shift: nat)
    requires Tiles(cuts, from, to)
    ensures Tiles(Shift(cuts, shift), from + shift, to + shift)
  {
    if cuts != [] {
      ShiftTiles(cuts[1..], from + cuts[0].length, to, shift);
      assert Shift(cuts, shift)[1..] == Shift(cuts[1..], shift);
    }
  }

  predicate NoLongerThan(cuts: seq<Cut>, max: nat) {
    forall i | 0 <= i < |cuts| :: cuts[i].length <= max
  }

  // ----- Cuts as chunks -----

  function DraftOf(origin: ChunkOrigin, cut: Cut, producer: ChunkingMethod): LogicalChunkDraft {
    LogicalChunkDraft(origin.entryId, origin.objectId, origin.baseOffset + cut.offset, cut.length, producer)
  }

  function Drafts(origin: ChunkOrigin, cuts: seq<Cut>, producer: ChunkingMethod): (d: seq<LogicalChunkDraft>)
    ensures |d| == |cuts| && forall i | 0 <= i < |d| :: d[i] == DraftOf(origin, cuts[i], producer)
  {
    seq(|cuts|, i requires 0 <= i < |cuts| => DraftOf(origin, cuts[i], producer))
  }

  lemma {:induction false} DraftsCover(origin: ChunkOrigin, cuts: seq<Cut>, producer: ChunkingMethod, from: nat,
                                       to: nat)
    requires Tiles(cuts, from, to)
    ensures Covers(Drafts(origin, cuts, producer), origin, origin.baseOffset + from, origin.baseOffset + to)
  {
    if cuts != [] {
      DraftsCover(origin, cuts[1..], producer, from + cuts[0].length, to);
      assert Drafts(origin, cuts, producer)[1..] == Drafts(origin, cuts[1..], producer);
    }
  }

  lemma {:induction false} DraftsAppend(origin: ChunkOrigin, a: seq<Cut>, b: seq<Cut>, producer: ChunkingMethod)
    ensures Drafts(origin, a + b, producer) == Drafts(origin, a, producer) + Drafts(origin, b, producer)
  {
  }

  lemma {:induction false} DraftsAccepted(origin: ChunkOrigin, cuts: seq<Cut>, producer: ChunkingMethod, size: nat)
    requires Tiles(cuts, 0, size) && origin.baseOffset + size <= U64_MAX
    ensures AcceptedCoverage(Drafts(origin, cuts, producer), origin, size)
  {
    TilesNeedRoom(cuts, 0, size);
    DraftsCover(origin, cuts, producer, 0, size);
  }

  /** Appends one checked chunk. */
  function PushRelative(chunks: seq<LogicalChunkDraft>, origin: ChunkOrigin, cut: Cut, producer: ChunkingMethod,
                        maxChunks: nat):
    (r: Result<seq<LogicalChunkDraft>, PithosError>)
  {
    if |chunks| + 1 > maxChunks then Failure(ResourceLimit("chunk count"))
    else if cut.length > U32_MAX then Failure(IntegerOverflow)
    else if cut.length == 0 then Failure(InvalidMetadata("zero-length chunk"))
    else if origin.baseOffset + cut.offset + cut.length > U64_MAX then Failure(IntegerOverflow)
    else Success(chunks + [DraftOf(origin, cut, producer)])
  }

  // ----- Content-defined chunking -----

  /** FastCDC: where it cuts some bytes for given minimum, average and maximum sizes. */
  datatype FastCdc = FastCdc(cut: (bytes, nat, nat, nat) -> seq<Cut>)

  predicate SoundOn(cdc: FastCdc, data: bytes, min: nat, avg: nat, max: nat) {
    Tiles(cdc.cut(data, min, avg, max), 0, |data|) && NoLongerThan(cdc.cut(data, min, avg, max), max)
  }

  /** The library's contract: the cuts tile the bytes, and none is longer than the maximum. */
  ghost predicate SoundCdc(cdc: FastCdc) {
    forall data: bytes, min: nat, avg: nat, max: nat | min < avg < max :: SoundOn(cdc, data, min, avg, max)
  }

  function CutsOf(cdc: FastCdc, data: bytes, config: ChunkingConfig): seq<Cut> {
    cdc.cut(data, config.fastcdcMin, config.fastcdcAvg, config.fastcdcMax)
  }

  lemma {:induction false} CutsAreSound(cdc: FastCdc, data: bytes, config: ChunkingConfig)
    requires SoundCdc(cdc) && ConfigOk(config)
    ensures Tiles(CutsOf(cdc, data, config), 0, |data|) && NoLongerThan(CutsOf(cdc, data, config), config.fastcdcMax)
  {
    assert SoundOn(cdc, data, config.fastcdcMin, config.fastcdcAvg, config.fastcdcMax);
  }

  /** When content-defined chunking succeeds. */
  predicate FastCdcFits(cdc: FastCdc, data: bytes, origin: ChunkOrigin, config: ChunkingConfig) {
    && ConfigOk(config) && |data| <= config.maxLogicalBytes && origin.baseOffset + |data| <= U64_MAX
    && |CutsOf(cdc, data, config)| <= config.maxChunks
  }

  method ChunkFastCdc(cdc: FastCdc, data: bytes, origin: ChunkOrigin, config: ChunkingConfig)
    returns (r: Result<seq<LogicalChunkDraft>, PithosError>)
    requires SoundCdc(cdc)
    ensures r.Success? <==> FastCdcFits(cdc, data, origin, config)
    ensures r.Success? ==> r.value == Drafts(origin, CutsOf(cdc, data, config), FastCdcV2020)
  {
    if !ConfigOk(config) {
      return Failure(InvalidMetadata("FastCDC sizes"));
    }
    if |data| > config.maxLogicalBytes {
      return Failure(ResourceLimit("logical bytes"));
    }
    if origin.baseOffset + |data| > U64_MAX {
      return Failure(IntegerOverflow);
    }
    var cuts := CutsOf(cdc, data, config);
    CutsAreSound(cdc, data, config);
    var chunks: seq<LogicalChunkDraft> := [];
    ghost var done: nat := 0;
    for i := 0 to |cuts|
      invariant chunks == Drafts(origin, cuts[..i], FastCdcV2020) && |chunks| <= config.maxChunks
      invariant Tiles(cuts[i..], done, |data|)
    {
      assert cuts[i..][0] == cuts[i] && cuts[i..][1..] == cuts[i + 1..] && cuts[..i + 1] == cuts[..i] + [cuts[i]];
      TilesNeedRoom(cuts[i..], done, |data|);
      var pushed := PushRelative(chunks, origin, cuts[i], FastCdcV2020, config.maxChunks);
      if pushed.Failure? {
        return Failure(pushed.error);
      }
      chunks := pushed.value;
      done := done + cuts[i].length;
    }
    assert cuts[..|cuts|] == cuts;
    DraftsAccepted(origin, cuts, FastCdcV2020, |data|);
    var covered := ValidateChunkCoverage(chunks, origin, |data|);
    if covered.Failure? {
      assert false;
    }
    return Success(chunks);
  }

  /** The streaming chunker sees at most one byte more than the limit. */
  function Bounded(data: bytes, config: ChunkingConfig): bytes {
    var bound := if config.maxLogicalBytes == U64_MAX then U64_MAX else config.maxLogicalBytes + 1;
    if |data| <= bound then data else data[..bound]
  }

  /** A stream longer than the limit still shows as too long. */
  lemma {:induction false} BoundedFits(cdc: FastCdc, data: bytes, origin: ChunkOrigin, config: ChunkingConfig)
    requires |data| <= U64_MAX
    ensures FastCdcFits(cdc, Bounded(data, config), origin, config) <==> FastCdcFits(cdc, data, origin, config)
    ensures FastCdcFits(cdc, data, origin, config) ==> Bounded(data, config) == data
  {
  }

  /** Chunking a stream, on the bytes it yields. */
  method ChunkFastCdcStream(cdc: FastCdc, data: bytes, origin: ChunkOrigin, config: ChunkingConfig)
    returns (r: Result<seq<LogicalChunkDraft>, PithosError>)
    requires SoundCdc(cdc)
    ensures r.Success? <==> FastCdcFits(cdc, Bounded(data, config), origin, config)
    ensures r.Success? ==> r.value == Drafts(origin, CutsOf(cdc, Bounded(data, config), config), FastCdcV2020)
  {
    if !ConfigOk(config) {
      return Failure(InvalidMetadata("FastCDC sizes"));
    }
    var seen := Bounded(data, config);
    var cuts := CutsOf(cdc, seen, config);
    CutsAreSound(cdc, seen, config);
    r := CollectStream(seen, cuts, origin, config);
  }

  method CollectStream(seen: bytes, cuts: seq<Cut>, origin: ChunkOrigin, config: ChunkingConfig)
    returns (r: Result<seq<LogicalChunkDraft>, PithosError>)
    requires Tiles(cuts, 0, |seen|) && NoLongerThan(cuts, U32_MAX)
    ensures r.Success?
            <==> |seen| <= config.maxLogicalBytes && origin.baseOffset + |seen| <= U64_MAX && |cuts| <= config.maxChunks
    ensures r.Success? ==> r.value == Drafts(origin, cuts, FastCdcV2020)
  {
    var chunks: seq<LogicalChunkDraft> := [];
    var size := 0;
    for i := 0 to |cuts|
      invariant chunks == Drafts(origin, cuts[..i], FastCdcV2020) && |chunks| <= config.maxChunks
      invariant 0 <= size <= config.maxLogicalBytes && Tiles(cuts[i..], size, |seen|)
    {
      assert cuts[i..][0] == cuts[i] && cuts[i..][1..] == cuts[i + 1..] && cuts[..i + 1] == cuts[..i] + [cuts[i]];
      TilesNeedRoom(cuts[i..], size, |seen|);
      if cuts[i].offset != size {
        return Failure(InvalidMetadata("FastCDC stream layout"));
      }
      var next := size + cuts[i].length;
      if next > U64_MAX {
        return Failure(IntegerOverflow);
      }
      if next > config.maxLogicalBytes {
        return Failure(ResourceLimit("logical bytes"));
      }
      var pushed := PushRelative(chunks, origin, cuts[i], FastCdcV2020, config.maxChunks);
      if pushed.Failure? {
        return Failure(pushed.error);
      }
      chunks := pushed.value;
      size := next;
    }
    assert cuts[..|cuts|] == cuts && size == |seen|;
    if origin.baseOffset + |seen| <= U64_MAX {
      DraftsAccepted(origin, cuts, FastCdcV2020, |seen|);
    }
    var covered := ValidateChunkCoverage(chunks, origin, size);
    if covered.Failure? {
      return Failure(covered.error);
    }
    return Success(chunks);
  }

  // ----- Fixed blocks -----

  function FixedCuts(from: nat, size: nat, block: nat): (cuts: seq<Cut>)
    requires block > 0
    decreases size - from
  {
    if from >= size then []
    else if size - from <= block then [Cut(from, size - from)]
    else [Cut(from, block)] + FixedCuts(from + block, size, block)
  }

  /** How many blocks an object has: its size over the block size, rounded up. */
  function BlockCount(size: nat, block: nat): nat
    requires block > 0
  {
    if size == 0 then 0 else (size - 1) / block + 1
  }

  lemma {:induction false} ProductsKeepOrder(a: nat, b: nat, factor: nat)
    requires a <= b
    ensures a * factor <= b * factor
  {
    if factor > 0 {
      ProductsKeepOrder(a, b, factor - 1);
    }
  }

  lemma {:induction false} QuotientIsUnique(a: nat, b: nat, q: nat)
    requires b > 0 && q * b <= a < q * b + b
    ensures a / b == q
  {
    var d := a / b;
    assert d * b <= a < d * b + b;
    if d < q {
      ProductsKeepOrder(d + 1, q, b);
    } else if q < d {
      ProductsKeepOrder(q + 1, d, b);
    }
  }

  lemma {:induction false} OneBlockMore(size: nat, block: nat)
    requires 0 < block < size
    ensures BlockCount(size, block) == BlockCount(size - block, block) + 1
  {
    var rest := size - 1 - block;
    var q := rest / block;
    assert q * block <= rest < q * block + block;
    QuotientIsUnique(size - 1, block, q + 1);
  }

  lemma {:induction false} FixedCutsTile(from: nat, size: nat, block: nat)
    requires block > 0 && from <= size
    ensures Tiles(FixedCuts(from, size, block), from, size)
    ensures forall i | 0 <= i < |FixedCuts(from, size, block)| - 1 :: FixedCuts(from, size, block)[i].length == block
    ensures NoLongerThan(FixedCuts(from, size, block), block)
    decreases size - from
  {
    if from < size && size - from > block {
      FixedCutsTile(from + block, size, block);
    }
  }

  lemma {:induction false} FixedCutsCount(from: nat, size: nat, block: nat)
    requires block > 0 && from <= size
    ensures |FixedCuts(from, size, block)| == BlockCount(size - from, block)
    decreases size - from
  {
    if from < size && size - from > block {
      OneBlockMore(size - from, block);
      FixedCutsCount(from + block, size, block);
    } else if from < size {
      QuotientIsUnique(size - from - 1, block, 0);
    }
  }

  predicate FixedFits(size: nat, origin: ChunkOrigin, config: ChunkingConfig) {
    && ConfigOk(config) && size <= config.maxLogicalBytes && origin.baseOffset + size <= U64_MAX
    && BlockCount(size, config.highEntropyFixed) <= config.maxChunks
  }

  method ChunkFixedHighEntropy(size: nat, origin: ChunkOrigin, config: ChunkingConfig)
    returns (r: Result<seq<LogicalChunkDraft>, PithosError>)
    ensures r.Success? <==> FixedFits(size, origin, config)
    ensures r.Success? ==> r.value == Drafts(origin, FixedCuts(0, size, config.highEntropyFixed), FixedHighEntropy)
  {
    if !ConfigOk(config) {
      return Failure(InvalidMetadata("high entropy block size"));
    }
    if size > config.maxLogicalBytes {
      return Failure(ResourceLimit("logical bytes"));
    }
    if origin.baseOffset + size > U64_MAX {
      return Failure(IntegerOverflow);
    }
    if size == 0 {
      return Success([]);
    }
    var block := config.highEntropyFixed;
    if (size - 1) / block + 1 > config.maxChunks {
      return Failure(ResourceLimit("chunk count"));
    }
    FixedCutsTile(0, size, block);
    FixedCutsCount(0, size, block);
    var chunks := CollectBlocks(size, block, origin, config.maxChunks);
    DraftsAccepted(origin, FixedCuts(0, size, block), FixedHighEntropy, size);
    var covered := ValidateChunkCoverage(chunks, origin, size);
    if covered.Failure? {
      assert false;
    }
    return Success(chunks);
  }

  method CollectBlocks(size: nat, block: nat, origin: ChunkOrigin, maxChunks: nat)
    returns (chunks: seq<LogicalChunkDraft>)
    requires 0 < block <= U32_MAX && |FixedCuts(0, size, block)| <= maxChunks && origin.baseOffset + size <= U64_MAX
    ensures chunks == Drafts(origin, FixedCuts(0, size, block), FixedHighEntropy)
  {
    ghost var cuts := FixedCuts(0, size, block);
    chunks := [];
    var offset: nat := 0;
    ghost var done: seq<Cut> := [];
    while offset < size
      invariant offset <= size && chunks == Drafts(origin, done, FixedHighEntropy)
      invariant cuts == done + FixedCuts(offset, size, block)
    {
      var length := if size - offset < block then size - offset else block;
      var pushed := PushRelative(chunks, origin, Cut(offset, length), FixedHighEntropy, maxChunks);
      assert FixedCuts(offset, size, block) == [Cut(offset, length)] + FixedCuts(offset + length, size, block);
      if pushed.Failure? {
        assert false;
      } else {
        chunks := pushed.value;
      }
      done := done + [Cut(offset, length)];
      offset := offset + length;
    }
    assert done == cuts;
  }
}
