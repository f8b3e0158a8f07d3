/** The limits and sizes that drive logical chunking and microfile packing. */
module ChunkingPolicy {
  import opened Base

  datatype ChunkingConfig = ChunkingConfig(fastcdcMin: u32, fastcdcAvg: u32, fastcdcMax: u32, highEntropyFixed: u32,
                                           microFileMax: u32, microPackTarget: u32, maxChunks: u64,
                                           maxLogicalBytes: u64, maxMetadataBytes: u64, maxPathBytes: u64)


  /** The values `validate` accepts; the first three bounds are those of the FastCDC library. */
  predicate ConfigOk(c: ChunkingConfig) {
    && 64 <= c.fastcdcMin <= 1_048_576 && 256 <= c.fastcdcAvg <= 4_194_304 && 1024 <= c.fastcdcMax <= 16_777_216
    && c.fastcdcMin < c.fastcdcAvg < c.fastcdcMax
    && MIB <= c.highEntropyFixed <= 4 * MIB
    && 0 < c.microFileMax <= 64 * KIB
    && MIB <= c.microPackTarget <= 16 * MIB && c.microFileMax <= c.microPackTarget
    && c.maxChunks > 0 && c.maxLogicalBytes > 0 && c.maxMetadataBytes > 0 && c.maxPathBytes > 0
  }
}

/** Logical chunks: pieces of one object, and what it means that they cover it. */
module Chunks {
  import opened Base

  datatype ChunkingMethod = FastCdcV2020 | FixedHighEntropy | Structural | MicroFile

  datatype ChunkOrigin = ChunkOrigin(entryId: nat, objectId: nat, baseOffset: nat)

  datatype LogicalChunkDraft = LogicalChunkDraft(entryId: nat, objectId: nat, logicalOffset: nat, length: nat,
                                                 producer: ChunkingMethod)

  /** A piece of an object, relative to the start of the object. */
  datatype Cut = Cut(offset: nat, length: nat)

  function EndOf(c: LogicalChunkDraft): nat {
    c.logicalOffset + c.length
  }

  predicate Belongs(c: LogicalChunkDraft, origin: ChunkOrigin) {
    c.entryId == origin.entryId && c.objectId == origin.objectId
  }

  /** The chunks of the object follow one another without gap or overlap from `from` to `to`; none is empty. */
  predicate Covers(chunks: seq<LogicalChunkDraft>, origin: ChunkOrigin, from: nat, to: nat) {
    if chunks == [] then from == to
    else Belongs(chunks[0], origin) && chunks[0].logicalOffset == from && chunks[0].length > 0
         && Covers(chunks[1..], origin, EndOf(chunks[0]), to)
  }

  lemma {:induction false} CoverNeedsRoom(chunks: seq<LogicalChunkDraft>, origin: ChunkOrigin, from: nat, to: nat)
    requires Covers(chunks, origin, from, to)
    ensures from <= to && (chunks == [] <==> from == to)
    ensures |chunks| <= to - from
    ensures chunks != [] ==> EndOf(chunks[0]) <= to
  {
    if chunks != [] {
      CoverNeedsRoom(chunks[1..], origin, EndOf(chunks[0]), to);
    }
  }

  predicate Holds(c: LogicalChunkDraft, position: nat) {
    c.logicalOffset <= position < EndOf(c)
  }

  /** Every byte of the object lies in exactly one chunk. */
  lemma {:induction false} CoversEachByteOnce(chunks: seq<LogicalChunkDraft>, origin: ChunkOrigin, from: nat, to: nat,
                                              position: nat)
    requires Covers(chunks, origin, from, to)
    ensures from <= position < to <==> exists i :: 0 <= i < |chunks| && Holds(chunks[i], position)
    ensures forall i, j | 0 <= i < |chunks| && 0 <= j < |chunks| && Holds(chunks[i], position)
            && Holds(chunks[j], position) :: i == j
  {
    if chunks != [] {
      CoverNeedsRoom(chunks, origin, from, to);
      var rest := chunks[1..];
      CoversEachByteOnce(rest, origin, EndOf(chunks[0]), to, position);
      if EndOf(chunks[0]) <= position < to {
        var i :| 0 <= i < |rest| && Holds(rest[i], position);
        assert Holds(chunks[i + 1], position);
      } else if from <= position < to {
        assert Holds(chunks[0], position);
      }
      forall i | 0 < i < |chunks| && Holds(chunks[i], position) ensures EndOf(chunks[0]) <= position < to {
        assert Holds(rest[i - 1], position);
      }
      forall i, j | 0 < i < |chunks| && 0 < j < |chunks| && Holds(chunks[i], position) && Holds(chunks[j], position)
        ensures i == j {
        assert Holds(rest[i - 1], position) && Holds(rest[j - 1], position);
      }
    }
  }

  /** Later chunks start later. */
  lemma {:induction false} CoverIsOrdered(chunks: seq<LogicalChunkDraft>, origin: ChunkOrigin, from: nat, to: nat,
                                          i: nat)
    requires Covers(chunks, origin, from, to) && i < |chunks|
    ensures Belongs(chunks[i], origin) && from <= chunks[i].logicalOffset && EndOf(chunks[i]) <= to
    ensures chunks[i].length > 0
    ensures forall j | i < j < |chunks| :: EndOf(chunks[i]) <= chunks[j].logicalOffset
  {
    CoverNeedsRoom(chunks, origin, from, to);
    var rest := chunks[1..];
    if i > 0 {
      CoverIsOrdered(rest, origin, EndOf(chunks[0]), to, i - 1);
      forall j | i < j < |chunks| ensures EndOf(chunks[i]) <= chunks[j].logicalOffset {
        assert chunks[j] == rest[j - 1];
      }
    } else {
      forall j | 0 < j < |chunks| ensures EndOf(chunks[0]) <= chunks[j].logicalOffset {
        CoverIsOrdered(rest, origin, EndOf(chunks[0]), to, j - 1);
      }
    }
  }

  /** No chunk of a covering ends strictly inside another. */
  lemma {:induction false} NoEndInside(chunks: seq<LogicalChunkDraft>, origin: ChunkOrigin, from: nat, to: nat, k: nat,
                                       l: nat)
    requires Covers(chunks, origin, from, to) && k < |chunks| && l < |chunks|
    ensures !(chunks[k].logicalOffset < EndOf(chunks[l]) < EndOf(chunks[k]))
  {
    CoverIsOrdered(chunks, origin, from, to, k);
    CoverIsOrdered(chunks, origin, from, to, l);
  }

  function EmptyChunk(origin: ChunkOrigin): LogicalChunkDraft {
    LogicalChunkDraft(origin.entryId, origin.objectId, origin.baseOffset, 0, MicroFile)
  }

  /** What the validator accepts: a covering, or for an empty object at most one empty microfile chunk. */
  predicate AcceptedCoverage(chunks: seq<LogicalChunkDraft>, origin: ChunkOrigin, size: nat) {
    && origin.baseOffset + size <= U64_MAX
    && if size == 0 then chunks == [] || chunks == [EmptyChunk(origin)]
       else Covers(chunks, origin, origin.baseOffset, origin.baseOffset + size)
  }

  method ValidateChunkCoverage(chunks: seq<LogicalChunkDraft>, origin: ChunkOrigin, size: nat)
    returns (r: Result<(), PithosError>)
    ensures r.Success? <==> AcceptedCoverage(chunks, origin, size)
  {
    var end := origin.baseOffset + size;
    if end > U64_MAX {
      return Failure(IntegerOverflow);
    }
    if size == 0 {
      if chunks == [] || (|chunks| == 1 && Belongs(chunks[0], origin) && chunks[0].logicalOffset == origin.baseOffset
                          && chunks[0].length == 0
                          && chunks[0].producer == MicroFile) {
        return Success(());
      }
      return Failure(InvalidMetadata("empty chunk coverage"));
    }
    if chunks == [] {
      return Failure(InvalidMetadata("missing chunk coverage"));
    }
    var cursor: nat := origin.baseOffset;
    for i := 0 to |chunks|
      invariant cursor <= end
      invariant Covers(chunks, origin, origin.baseOffset, end) <==> Covers(chunks[i..], origin, cursor, end)
    {
      var chunk := chunks[i];
      assert chunks[i..][0] == chunk && chunks[i..][1..] == chunks[i + 1..];
      if !Belongs(chunk, origin) || chunk.logicalOffset != cursor || chunk.length == 0 {
        return Failure(InvalidMetadata("chunk coverage"));
      }
      if Covers(chunks[i + 1..], origin, EndOf(chunk), end) {
        CoverNeedsRoom(chunks[i + 1..], origin, EndOf(chunk), end);
      }
      cursor := cursor + chunk.length;
      if cursor > U64_MAX {
        return Failure(IntegerOverflow);
      }
      if cursor > end {
        return Failure(InvalidMetadata("chunk coverage"));
      }
    }
    if cursor != end {
      return Failure(InvalidMetadata("chunk coverage"));
    }
    return Success(());
  }
}
