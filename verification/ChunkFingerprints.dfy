/** The fingerprint of one chunk: from a buffer or from a reader, within the configured limits. */
module ChunkFingerprints {
  import opened Base
  import opened Superfeatures
  import opened Readers

  datatype CompactKey = CompactKey(xxh3: nat, length: nat, blake3Prefix: bytes)

  datatype ChunkFingerprint = ChunkFingerprint(chunkId: nat, key: CompactKey, fullBlake3: Option<bytes>, crc32c: nat,
                                               superfeatures: seq<u64>)

  datatype FingerprintInput = FingerprintInput(chunkId: nat, length: nat, data: bytes)

  datatype FullHashPolicy = Standard | Paranoid

  /** The hash functions, on everything that was fed to them. */
  datatype Hashes = Hashes(xxh3: bytes -> u64, blake3: bytes -> bytes, crc32c: bytes -> nat)

  // ----- Configuration and limits -----

  datatype FingerprintConfig = FingerprintConfig(policy: FullHashPolicy, subchunkCount: u8, superfeatureCount: u8,
                                                 rollingWindow: u16, maxChunkBytes: u64, maxChunks: u64,
                                                 maxTotalBytes: u64, maxMetadataBytes: u64, maxWorkingBytes: u64,
                                                 parallelism: u16) {
    predicate Valid() {
      && 4 <= subchunkCount <= 64 && (superfeatureCount == 3 || superfeatureCount == 4)
      && subchunkCount % superfeatureCount == 0
      && 1 <= rollingWindow <= 4096
      && 0 < maxChunkBytes <= 4 * MIB
      && maxChunks > 0 && maxTotalBytes > 0 && maxMetadataBytes > 0 && maxWorkingBytes > 0
      && 1 <= parallelism <= 64
    }
  }

  /**
   Sizes of the structures in memory: a fingerprint, what a batch keeps per chunk, a region with its end, an
   accumulator.
   */
  datatype Sizes = Sizes(fingerprint: u64, perChunk: u64, region: u64, accumulator: u64)

  const WORKER_MARGIN: nat := 64 * KIB
  const FIXED_WORKING: nat := 4 * KIB
  const REGION_MARGIN: nat := 64

  /** What one worker needs for a chunk of this length. */
  function WorkerScratch(sizes: Sizes, config: FingerprintConfig, length: nat): nat {
    Min(config.subchunkCount * config.rollingWindow, length) + (sizes.region + REGION_MARGIN) * config.subchunkCount
    + sizes.accumulator + WORKER_MARGIN
  }

  function WorkingBytes(sizes: Sizes, config: FingerprintConfig, count: nat, largest: nat): nat {
    count * sizes.perChunk + Min(count, config.parallelism) * WorkerScratch(sizes, config, largest) + FIXED_WORKING
  }

  /** `ensure_batch_memory_limits`: metadata of all fingerprints, and working memory of all workers. */
  function BatchMemory(sizes: Sizes, config: FingerprintConfig, count: nat, largest: nat): Result<(), PithosError> {
    if count == 0 then Success(())
    else if count * sizes.fingerprint > U64_MAX then Failure(IntegerOverflow)
    else if count * sizes.fingerprint > config.maxMetadataBytes
      then Failure(ResourceLimit("fingerprint metadata bytes"))
    else if WorkingBytes(sizes, config, count, largest) > U64_MAX then Failure(IntegerOverflow)
    else if WorkingBytes(sizes, config, count, largest) > config.maxWorkingBytes
      then Failure(ResourceLimit("fingerprint working bytes"))
    else Success(())
  }

  function ChunkSize(config: FingerprintConfig, length: nat): Result<(), PithosError> {
    if length > U32_MAX then Failure(IntegerOverflow)
    else if length > config.maxChunkBytes then Failure(ResourceLimit("fingerprint chunk bytes"))
    else Success(())
  }

  /** `ensure_single_request_limits`: a batch of one. */
  function SingleRequest(sizes: Sizes, config: FingerprintConfig, length: nat): Result<(), PithosError> {
    if ChunkSize(config, length).Failure? then ChunkSize(config, length)
    else if length > config.maxTotalBytes then Failure(ResourceLimit("fingerprint total bytes"))
    else BatchMemory(sizes, config, 1, length)
  }

  lemma {:induction false} AtLeastOnce(k: nat, x: nat)
    requires k >= 1
    ensures x <= k * x
  {
    assert k * x == x + (k - 1) * x;
  }

  lemma {:induction false} AtMostTimes(k: nat, x: nat, y: nat)
    requires x <= y
    ensures k * x <= k * y
  {
  }

  /** Within a batch that fits, every chunk fits on its own. */
  lemma {:induction false} BatchCoversEach(sizes: Sizes, config: FingerprintConfig, count: nat, largest: nat,
                                           length: nat)
    requires count > 0 && length <= largest && BatchMemory(sizes, config, count, largest).Success?
    requires config.parallelism >= 1
    ensures BatchMemory(sizes, config, 1, length).Success?
  {
    var workers := Min(count, config.parallelism);
    AtLeastOnce(count, sizes.fingerprint);
    AtLeastOnce(count, sizes.perChunk);
    AtLeastOnce(workers, WorkerScratch(sizes, config, length));
    AtMostTimes(workers, WorkerScratch(sizes, config, length), WorkerScratch(sizes, config, largest));
    assert Min(1, config.parallelism) == 1;
  }

  // ----- What a fingerprint is -----

  function Prefix(digest: bytes): bytes {
    if |digest| >= 16 then digest[..16] else digest
  }

  function KeyOf(h: Hashes, data: bytes): CompactKey {
    CompactKey(h.xxh3(data), |data|, Prefix(h.blake3(data)))
  }

  /** The fingerprint of a chunk under a policy, from its whole content. */
  function FingerprintAs(h: Hashes, config: FingerprintConfig, policy: FullHashPolicy,
                         input: FingerprintInput): ChunkFingerprint
    requires config.Valid()
  {
    ChunkFingerprint(input.chunkId, KeyOf(h, input.data),
                     if policy == Paranoid then Some(h.blake3(input.data)) else None,
                     h.crc32c(input.data),
                     SuperfeaturesOf(h.xxh3, input.data, config.subchunkCount, config.superfeatureCount,
                                     config.rollingWindow))
  }

  function Fingerprint(h: Hashes, config: FingerprintConfig, input: FingerprintInput): ChunkFingerprint
    requires config.Valid()
  {
    FingerprintAs(h, config, config.policy, input)
  }

  // ----- FingerprintAccumulator -----

  /** The three stream hashers, which stand for the bytes they were fed, and the superfeatures. */
  class FingerprintAccumulator {
    const superfeatures: SuperfeatureAccumulator
    var hashed: bytes
    var bytesSeen: nat

    ghost predicate Valid()
      reads this, superfeatures, superfeatures.regions
    {
      superfeatures.Valid() && superfeatures.seen == hashed && bytesSeen == |hashed|
    }

    /** Made for a chunk of this length under this configuration. */
    ghost predicate MadeFor(expected: nat, config: FingerprintConfig)
      requires config.Valid()
    {
      && superfeatures.totalLen == expected && superfeatures.regionEnds == Shares(expected, config.subchunkCount)
      && superfeatures.window == config.rollingWindow
    }

    constructor (expected: nat, config: FingerprintConfig)
      requires config.Valid()
      ensures Valid() && fresh(superfeatures) && fresh(superfeatures.regions)
      ensures MadeFor(expected, config) && hashed == []
    {
      var accumulator := new SuperfeatureAccumulator(expected, config.subchunkCount, config.rollingWindow);
      superfeatures := accumulator;
      hashed, bytesSeen := [], 0;
    }

    method Update(block: bytes) returns (r: Result<(), PithosError>)
      requires Valid()
      modifies this, superfeatures, superfeatures.regions
      ensures r.Success? <==> |old(hashed)| + |block| <= superfeatures.totalLen
      ensures r.Success? ==> Valid() && hashed == old(hashed) + block
    {
      hide SuperfeatureAccumulator.Valid;
      hashed := hashed + block;
      r := superfeatures.Update(block);
      if r.Success? {
        bytesSeen := bytesSeen + |block|;
      }
    }

    /**
     Once the announced length has been fed, the fingerprint of what was fed; how it was cut into blocks does not
     matter.
     */
    method Finish(h: Hashes, chunkId: nat, config: FingerprintConfig) returns (r: Result<ChunkFingerprint, PithosError>)
      requires Valid() && config.Valid() && MadeFor(superfeatures.totalLen, config)
      ensures r.Success? <==> |hashed| == superfeatures.totalLen <= U32_MAX
      ensures r.Success? ==> r.value == Fingerprint(h, config, FingerprintInput(chunkId, |hashed|, hashed))
    {
      if bytesSeen != superfeatures.totalLen {
        return Failure(InvalidMetadata("fingerprint byte count"));
      }
      if bytesSeen > U32_MAX {
        return Failure(IntegerOverflow);
      }
      var features := superfeatures.Finish(h.xxh3, config.superfeatureCount);
      SuperfeaturesAreUnique(h.xxh3, hashed, config.subchunkCount, config.superfeatureCount, config.rollingWindow,
                             features.value);
      var full := h.blake3(hashed);
      return Success(ChunkFingerprint(chunkId, CompactKey(h.xxh3(hashed), bytesSeen, Prefix(full)),
                                      if config.policy == Paranoid then Some(full) else None,
                                      h.crc32c(hashed), features.value));
    }
  }

  const READ_BUFFER: nat := 64 * KIB

  /** One chunk in memory, block by block. */
  method FingerprintBytes(h: Hashes, config: FingerprintConfig, chunkId: nat, data: bytes)
    returns (r: Result<ChunkFingerprint, PithosError>)
    requires config.Valid()
    ensures r.Success? <==> ChunkSize(config, |data|).Success?
    ensures r.Success? ==> r.value == Fingerprint(h, config, FingerprintInput(chunkId, |data|, data))
  {
    var size := ChunkSize(config, |data|);
    if size.Failure? {
      return Failure(size.error);
    }
    var accumulator := new FingerprintAccumulator(|data|, config);
    var position := 0;
    while position < |data|
      invariant position <= |data| && accumulator.Valid() && accumulator.hashed == data[..position]
      invariant accumulator.MadeFor(|data|, config)
      invariant fresh(accumulator) && fresh(accumulator.superfeatures) && fresh(accumulator.superfeatures.regions)
      decreases |data| - position
    {
      var next := Min(position + READ_BUFFER, |data|);
      assert data[..next] == data[..position] + data[position..next];
      var updated := accumulator.Update(data[position..next]);
      if updated.Failure? {
        assert false;
      }
      position := next;
    }
    assert data[..|data|] == data;
    r := accumulator.Finish(h, chunkId, config);
  }

  /**
   One chunk from a reader, with reads of any size: succeeds exactly when the reader holds the announced length and the
   limits allow it, reads all of it, and yields the same fingerprint as the bytes in memory.
   */
  method FingerprintReader(h: Hashes, sizes: Sizes, config: FingerprintConfig, chunkId: nat, length: u32,
                           reader: ByteReader)
    returns (r: Result<ChunkFingerprint, PithosError>)
    requires reader.Valid()
    modifies reader`position
    ensures reader.Valid()
    ensures r.Success?
            <==> config.Valid() && SingleRequest(sizes, config, length).Success? && |old(reader.Rest())| == length
    ensures r.Success? ==>
              reader.Rest() == [] && r.value
                == Fingerprint(h, config, FingerprintInput(chunkId, length, old(reader.Rest())))
  {
    if !config.Valid() {
      return Failure(InvalidMetadata("fingerprint configuration"));
    }
    var allowed := SingleRequest(sizes, config, length);
    if allowed.Failure? {
      return Failure(allowed.error);
    }
    var accumulator := new FingerprintAccumulator(length, config);
    var remaining: nat := length;
    ghost var all := reader.Rest();
    while remaining > 0
      invariant reader.Valid() && accumulator.Valid() && remaining + |accumulator.hashed| == length
      invariant all == accumulator.hashed + reader.Rest() && accumulator.MadeFor(length, config)
      invariant fresh(accumulator) && fresh(accumulator.superfeatures) && fresh(accumulator.superfeatures.regions)
      decreases remaining
    {
      var block := reader.Read(Min(remaining, READ_BUFFER));
      if block == [] {
        return Failure(InvalidMetadata("short fingerprint stream"));
      }
      assert accumulator.hashed + (block + reader.Rest()) == accumulator.hashed + block + reader.Rest();
      var updated := accumulator.Update(block);
      if updated.Failure? {
        assert false;
      }
      remaining := remaining - |block|;
    }
    var trailing := reader.Read(1);
    if trailing != [] {
      return Failure(InvalidMetadata("trailing fingerprint data"));
    }
    assert all == accumulator.hashed;
    r := accumulator.Finish(h, chunkId, config);
  }

  // ----- escalate_full_blake3 -----

  /** The fingerprint with its full hash, once the limits and the compact identity have been confirmed on the bytes. */
  function Escalated(h: Hashes, sizes: Sizes, config: FingerprintConfig, f: ChunkFingerprint, data: bytes):
    Result<ChunkFingerprint, PithosError> {
    if |data| != f.key.length then Failure(InvalidMetadata("fingerprint chunk length"))
    else if SingleRequest(sizes, config, |data|).Failure? then Failure(SingleRequest(sizes, config, |data|).error)
    else if KeyOf(h, data) != f.key || h.crc32c(data) != f.crc32c then Failure(HashMismatch)
    else Success(f.(fullBlake3 := Some(h.blake3(data))))
  }
}
