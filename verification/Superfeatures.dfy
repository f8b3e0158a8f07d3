/** Superfeatures of a chunk: one rolling region per subchunk, fed block by block. */
module Superfeatures {
  import opened Base
  import opened LittleEndian
  import opened RollingHash

  // ----- What is computed, from the whole chunk -----

  /** The floor of the first `i` of `count` equal shares. */
  function Share(total: nat, count: nat, i: nat): nat
    requires count > 0
  {
    total * i / count
  }

  /** Where each of `count` shares ends. */
  function Shares(total: nat, count: nat): (ends: seq<nat>)
    requires count > 0
    ensures |ends| == count && forall i | 0 <= i < count :: ends[i] == Share(total, count, i + 1)
  {
    seq(count, i requires 0 <= i < count => Share(total, count, i + 1))
  }

  lemma {:induction false} QuotientGrows(a: nat, b: nat, c: nat)
    requires a <= b && c > 0
    ensures a / c <= b / c
  {
    assert c * (a / c) <= a && b < c * (b / c) + c;
    assert c * (b / c + 1) == c * (b / c) + c;
    Cancel(c, a / c, b / c + 1);
  }

  lemma {:induction false} Cancel(c: nat, x: nat, y: nat)
    requires c * x < c * y
    ensures x < y
  {
  }

  lemma {:induction false} QuotientIs(c: nat, q: nat)
    requires c > 0
    ensures q * c / c == q
  {
    var x := q * c / c;
    assert c * x <= q * c < c * x + c;
    assert c * (x + 1) == c * x + c && c * (q + 1) == q * c + c;
    Cancel(c, q, x + 1);
    Cancel(c, x, q + 1);
  }

  lemma {:induction false} ShareGrows(total: nat, count: nat, i: nat, j: nat)
    requires count > 0 && i <= j
    ensures Share(total, count, i) <= Share(total, count, j)
  {
    assert total * i <= total * j;
    QuotientGrows(total * i, total * j, count);
  }

  /** Parts that follow one another from 0 to `total`; some may be empty. */
  ghost predicate Tiling(ends: seq<nat>, total: nat) {
    && ends != [] && ends[|ends| - 1] == total
    && forall i, j | 0 <= i <= j < |ends| :: ends[i] <= ends[j]
  }

  function PartStart(ends: seq<nat>, i: nat): nat
    requires i <= |ends|
  {
    if i == 0 then 0 else ends[i - 1]
  }

  /** The floors of equal shares tile the whole. */
  lemma {:induction false} SharesTile(total: nat, count: nat)
    requires count > 0
    ensures Tiling(Shares(total, count), total)
    ensures forall i | 0 <= i < count :: PartStart(Shares(total, count), i) == Share(total, count, i)
  {
    var ends := Shares(total, count);
    forall i, j | 0 <= i <= j < |ends| ensures ends[i] <= ends[j] {
      ShareGrows(total, count, i + 1, j + 1);
    }
    QuotientIs(count, total);
    QuotientIs(count, 0);
  }

  /** The part of the first bytes of a chunk that lies in region `i`. */
  function RegionPart(data: bytes, ends: seq<nat>, i: nat): bytes
    requires i < |ends| && PartStart(ends, i) <= ends[i]
  {
    data[Min(PartStart(ends, i), |data|)..Min(ends[i], |data|)]
  }

  predicate PartOrdered(ends: seq<nat>, i: nat)
    requires i < |ends|
  {
    PartStart(ends, i) <= ends[i]
  }

  /** The window maximum of region `i`. */
  function RegionMaximum(data: bytes, ends: seq<nat>, window: nat, i: nat): u64
    requires i < |ends| && PartOrdered(ends, i)
  {
    var part := RegionPart(data, ends, i);
    Maximum(part, Min(|part|, window))
  }

  /** The maxima of regions `lo` up to `hi`, as the hasher sees them. */
  function MaximaBytes(data: bytes, ends: seq<nat>, window: nat, lo: nat, hi: nat): bytes
    requires hi <= |ends| && forall i | 0 <= i < |ends| :: PartOrdered(ends, i)
  {
    if hi <= lo then []
    else MaximaBytes(data, ends, window, lo, hi - 1) + Le(RegionMaximum(data, ends, window, hi - 1), 8)
  }

  lemma {:induction false} TilingIsOrdered(ends: seq<nat>, total: nat)
    requires Tiling(ends, total)
    ensures forall i | 0 <= i < |ends| :: PartOrdered(ends, i)
  {
  }

  /** The hash of group `g` of regions. */
  function GroupHash(xxh3: bytes -> u64, data: bytes, ends: seq<nat>, groupEnds: seq<nat>, window: nat, g: nat): u64
    requires g < |groupEnds| && groupEnds[g] <= |ends| && forall i | 0 <= i < |ends| :: PartOrdered(ends, i)
  {
    xxh3(MaximaBytes(data, ends, window, PartStart(groupEnds, g), groupEnds[g]))
  }

  /**
   What the superfeatures of a chunk are: one hash per group of equal shares of the regions, none for an empty chunk.
   */
  ghost predicate AreSuperfeatures(xxh3: bytes -> u64, data: bytes, count: nat, groups: nat, window: nat,
                                   features: seq<u64>)
    requires 0 < groups <= count
  {
    if data == [] then features == []
    else
      SharesTile(|data|, count);
      SharesTile(count, groups);
      TilingIsOrdered(Shares(|data|, count), |data|);
      var ends, groupEnds := Shares(|data|, count), Shares(count, groups);
      |features| == groups && forall g | 0 <= g < groups ::
        groupEnds[g] <= count && features[g] == GroupHash(xxh3, data, ends, groupEnds, window, g)
  }

  /** The superfeatures of a chunk. */
  function SuperfeaturesOf(xxh3: bytes -> u64, data: bytes, count: nat, groups: nat, window: nat): (features: seq<u64>)
    requires 0 < groups <= count
  {
    if data == [] then []
    else
      SharesTile(|data|, count);
      SharesTile(count, groups);
      TilingIsOrdered(Shares(|data|, count), |data|);
      var ends, groupEnds := Shares(|data|, count), Shares(count, groups);
      assert forall g | 0 <= g < groups :: groupEnds[g] <= groupEnds[groups - 1] == count;
      seq(groups, g requires 0 <= g < groups
          && groupEnds[g] <= count => GroupHash(xxh3, data, ends, groupEnds, window, g))
  }

  lemma {:induction false} SuperfeaturesAreUnique(xxh3: bytes -> u64, data: bytes, count: nat, groups: nat, window: nat,
                                                  features: seq<u64>)
    requires 0 < groups <= count && AreSuperfeatures(xxh3, data, count, groups, window, features)
    ensures features == SuperfeaturesOf(xxh3, data, count, groups, window)
  {
  }

  // ----- SuperfeatureAccumulator -----

  /** Adding a byte changes the part of the region its position is in, and no other. */
  lemma {:induction false} PartGrows(data: bytes, byte: u8, ends: seq<nat>, i: nat)
    requires i < |ends| && PartOrdered(ends, i)
    ensures RegionPart(data + [byte], ends, i)
            == RegionPart(data, ends, i) + if PartStart(ends, i) <= |data| < ends[i] then [byte] else []
  {
    var longer, lo, hi := data + [byte], PartStart(ends, i), ends[i];
    if lo <= |data| < hi {
      assert longer[lo..|data| + 1] == data[lo..|data|] + [byte];
    } else if hi <= |data| {
      assert longer[lo..hi] == data[lo..hi];
    } else {
      assert longer[Min(lo, |longer|)..Min(hi, |longer|)] == [];
    }
  }

  /** A position lies in one region only. */
  lemma {:induction false} OnlyOpenRegion(ends: seq<nat>, total: nat, position: nat, current: nat, i: nat)
    requires Tiling(ends, total) && current < |ends| && i < |ends|
    requires PartStart(ends, current) <= position < ends[current]
    ensures PartStart(ends, i) <= position < ends[i] <==> i == current
  {
    if i < current {
      assert ends[i] <= ends[current - 1];
    } else if i > current {
      assert ends[current] <= ends[i - 1];
    }
  }

  /** What each region sees of the next byte. */
  lemma {:induction false} PartsGrow(data: bytes, byte: u8, ends: seq<nat>, total: nat, current: nat)
    requires Tiling(ends, total) && current < |ends| && PartStart(ends, current) <= |data| < ends[current]
    ensures forall i | 0 <= i < |ends| :: PartOrdered(ends, i)
                                          && RegionPart(data + [byte], ends, i) == RegionPart(data, ends, i) + if i
                                               == current then [byte] else []
  {
    forall i | 0 <= i < |ends|
      ensures PartOrdered(ends, i)
      ensures RegionPart(data + [byte], ends, i) == RegionPart(data, ends, i) + if i == current then [byte] else []
    {
      TilingIsOrdered(ends, total);
      PartGrows(data, byte, ends, i);
      OnlyOpenRegion(ends, total, |data|, current, i);
    }
  }

  /** A region of the right length for each part. */
  method NewRegions(ends: seq<nat>, total: nat, window: nat) returns (built: seq<RollingRegion>)
    requires Tiling(ends, total) && window > 0
    ensures |built| == |ends| && fresh(built) && forall i, j | 0 <= i < j < |built| :: built[i] != built[j]
    ensures forall i | 0 <= i < |built| :: built[i].Valid() && built[i].seen == []
    ensures forall i | 0 <= i < |built| :: built[i].window == Min(built[i].expected, window)
    ensures forall i | 0 <= i < |built| :: built[i].expected == ends[i] - PartStart(ends, i)
  {
    TilingIsOrdered(ends, total);
    built := [];
    for index := 0 to |ends|
      invariant |built| == index && fresh(built)
      invariant forall i, j | 0 <= i < j < index :: built[i] != built[j]
      invariant forall i | 0 <= i < index :: built[i].Valid() && built[i].seen == []
      invariant forall i | 0 <= i < index :: built[i].window == Min(built[i].expected, window)
      invariant forall i | 0 <= i < index :: built[i].expected == ends[i] - PartStart(ends, i)
    {
      assert PartOrdered(ends, index);
      var region := new RollingRegion(ends[index] - PartStart(ends, index), window);
      built := built + [region];
    }
  }

  class SuperfeatureAccumulator {
    const totalLen: nat
    const window: nat
    const regionEnds: seq<nat>
    const regions: seq<RollingRegion>
    var position: nat
    var currentRegion: nat
    /** All bytes taken so far. */
    ghost var seen: bytes

    /** Region `i` is as long as its share and has taken its part of the bytes. */
    ghost predicate RegionOk(i: nat)
      requires i < |regions| == |regionEnds|
      reads this, regions[i]
    {
      && PartOrdered(regionEnds, i)
      && regions[i].Valid()
      && regions[i].expected == regionEnds[i] - PartStart(regionEnds, i)
      && regions[i].window == Min(regions[i].expected, window)
      && regions[i].seen == RegionPart(seen, regionEnds, i)
    }

    ghost predicate Valid()
      reads this, regions
    {
      && |regions| == |regionEnds| && window > 0 && Tiling(regionEnds, totalLen)
      && (forall i, j | 0 <= i < j < |regions| :: regions[i] != regions[j])
      && position == |seen| <= totalLen
      && currentRegion <= |regions| && PartStart(regionEnds, currentRegion) <= position
      && (forall i | 0 <= i < |regions| :: RegionOk(i))
    }

    constructor (totalLen: nat, subchunkCount: nat, rollingWindow: nat)
      requires subchunkCount > 0 && rollingWindow > 0
      ensures Valid() && fresh(regions) && seen == []
      ensures this.totalLen == totalLen && regionEnds == Shares(totalLen, subchunkCount) && window == rollingWindow
    {
      var ends := Shares(totalLen, subchunkCount);
      SharesTile(totalLen, subchunkCount);
      TilingIsOrdered(ends, totalLen);
      var built := NewRegions(ends, totalLen, rollingWindow);
      this.totalLen, this.window, this.regionEnds, this.regions := totalLen, rollingWindow, ends, built;
      position, currentRegion := 0, 0;
      seen := [];
      new;
      forall i | 0 <= i < |regions| ensures RegionOk(i) {
        assert PartOrdered(ends, i);
      }
    }

    /** Skips the regions that end at or before the position; empty ones are skipped too. */
    method SkipFinished()
      requires Valid()
      modifies `currentRegion
      ensures Valid()
      ensures position < totalLen ==> currentRegion < |regions| && position < regionEnds[currentRegion]
      ensures position >= totalLen ==> currentRegion == |regions|
    {
      while currentRegion < |regionEnds| && position >= regionEnds[currentRegion]
        invariant currentRegion <= |regions| && PartStart(regionEnds, currentRegion) <= position
        decreases |regionEnds| - currentRegion
      {
        currentRegion := currentRegion + 1;
      }
      forall i | 0 <= i < |regions| ensures RegionOk(i) {
        assert old(RegionOk(i));
      }
    }

    /** One byte: refused exactly when the whole length has been taken already. */
    method Push(byte: u8) returns (r: Result<(), PithosError>)
      requires Valid()
      modifies this, regions
      ensures Valid()
      ensures r.Success? <==> |old(seen)| < totalLen
      ensures seen == if r.Success? then old(seen) + [byte] else old(seen)
    {
      hide RingOk, Maximum, Tiling;
      SkipFinished();
      if currentRegion >= |regions| {
        return Failure(InvalidMetadata("superfeature byte count"));
      }
      PartsGrow(seen, byte, regionEnds, totalLen, currentRegion);
      assert RegionOk(currentRegion);
      label before:
      var pushed := regions[currentRegion].Push(byte);
      position := position + 1;
      seen := seen + [byte];
      forall i | 0 <= i < |regions| ensures RegionOk(i) {
        assert old@before(RegionOk(i));
      }
      return Success(());
    }

    /** A block of bytes, as large as it may be: only the bytes taken in all matter. */
    method Update(block: bytes) returns (r: Result<(), PithosError>)
      requires Valid()
      modifies this, regions
      ensures Valid()
      ensures r.Success? <==> |old(seen)| + |block| <= totalLen
      ensures r.Success? ==> seen == old(seen) + block
    {
      for i := 0 to |block|
        invariant Valid() && seen == old(seen) + block[..i]
      {
        r := Push(block[i]);
        if r.Failure? {
          return;
        }
        assert block[..i + 1] == block[..i] + [block[i]];
      }
      assert block[..|block|] == block;
      return Success(());
    }

    /** Once everything is taken, region `i` holds the maximum of its part of the chunk. */
    lemma {:induction false} RegionIsDone(i: nat)
      requires Valid() && |seen| == totalLen && i < |regions|
      ensures PartOrdered(regionEnds, i) && regions[i].maximum == RegionMaximum(seen, regionEnds, window, i)
    {
      assert RegionOk(i);
      assert regionEnds[i] <= regionEnds[|regionEnds| - 1];
    }

    /** The maxima of regions `start` up to `end`. */
    method HashedMaxima(start: nat, end: nat) returns (hashed: bytes)
      requires Valid() && |seen| == totalLen && start <= end <= |regions|
      requires forall i | 0 <= i < |regionEnds| :: PartOrdered(regionEnds, i)
      ensures hashed == MaximaBytes(seen, regionEnds, window, start, end)
    {
      hide Le;
      hashed := [];
      for i := start to end
        invariant hashed == MaximaBytes(seen, regionEnds, window, start, i)
      {
        RegionIsDone(i);
        hashed := hashed + Le(regions[i].maximum, 8);
      }
    }

    /** The superfeatures of everything taken, once it is the announced length. */
    method Finish(xxh3: bytes -> u64, groups: nat) returns (r: Result<seq<u64>, PithosError>)
      requires Valid() && 0 < groups <= |regions| && regionEnds == Shares(totalLen, |regions|)
      ensures r.Success? <==> |seen| == totalLen
      ensures r.Success? ==> AreSuperfeatures(xxh3, seen, |regions|, groups, window, r.value)
    {
      if position != totalLen {
        return Failure(InvalidMetadata("superfeature byte count"));
      }
      var output: seq<u64> := [];
      if totalLen == 0 {
        return Success(output);
      }
      SharesTile(|regions|, groups);
      TilingIsOrdered(regionEnds, totalLen);
      ghost var groupEnds := Shares(|regions|, groups);
      TilingIsOrdered(groupEnds, |regions|);
      for g := 0 to groups
        invariant |output| == g
        invariant forall k | 0 <= k < g ::
          groupEnds[k] <= |regions| && output[k] == GroupHash(xxh3, seen, regionEnds, groupEnds, window, k)
      {
        assert PartOrdered(groupEnds, g);
        var start, end := Share(|regions|, groups, g), Share(|regions|, groups, g + 1);
        var hashed := HashedMaxima(start, end);
        output := output + [xxh3(hashed)];
      }
      return Success(output);
    }
  }

  function Joined(blocks: seq<bytes>): bytes {
    if blocks == [] then [] else Joined(blocks[..|blocks| - 1]) + blocks[|blocks| - 1]
  }

  /** A stream of exactly the announced length never fails, and how it was cut into blocks does not matter. */
  method SuperfeaturesOfStream(xxh3: bytes -> u64, blocks: seq<bytes>, totalLen: nat, count: nat, groups: nat,
                               window: nat)
    returns (r: Result<seq<u64>, PithosError>)
    requires 0 < groups <= count && window > 0
    ensures r.Success? <==> |Joined(blocks)| == totalLen
    ensures r.Success? ==> AreSuperfeatures(xxh3, Joined(blocks), count, groups, window, r.value)
  {
    var accumulator := new SuperfeatureAccumulator(totalLen, count, window);
    for i := 0 to |blocks|
      invariant accumulator.Valid() && fresh(accumulator) && fresh(accumulator.regions)
      invariant accumulator.totalLen == totalLen && accumulator.regionEnds == Shares(totalLen, count)
      invariant accumulator.window == window
      invariant accumulator.seen == Joined(blocks[..i])
    {
      assert blocks[..i + 1][..i] == blocks[..i];
      var taken := accumulator.Update(blocks[i]);
      if taken.Failure? {
        JoinedGrows(blocks, i + 1);
        return Failure(taken.error);
      }
    }
    assert blocks[..|blocks|] == blocks;
    r := accumulator.Finish(xxh3, groups);
  }

  lemma {:induction false} JoinedGrows(blocks: seq<bytes>, n: nat)
    requires n <= |blocks|
    ensures |Joined(blocks[..n])| <= |Joined(blocks)|
  {
    if n < |blocks| {
      var front := blocks[..|blocks| - 1];
      assert front[..n] == blocks[..n];
      JoinedGrows(front, n);
    } else {
      assert blocks[..n] == blocks;
    }
  }
}
