/** Decoding and validating packs: which metadata is accepted, and that what `BuildPack` makes always is. */
module MicroMetadata {
  import opened Base
  import opened MergeSort
  import opened Orderings
  import opened ChunkingPolicy
  import opened MicroPack

  // ----- Distinctness by sorting -----

  predicate Differs<T(==)>(s: seq<T>, k: nat)
    requires k + 1 < |s|
  {
    s[k] != s[k + 1]
  }

  lemma {:induction false} NeighboursDecide<T(!new)>(cmp: (T, T) -> Ordering, items: seq<T>, sorted: seq<T>)
    requires TotalPreorder(cmp) && Antisymmetric(cmp) && sorted == Sort(cmp, items)
    ensures NoDuplicates(items) <==> forall k | 0 <= k < |sorted| - 1 :: Differs(sorted, k)
  {
    SortIsStableSort(cmp, items);
    if k :| 0 <= k < |sorted| - 1 && !Differs(sorted, k) {
      TwoCopies(sorted, sorted[k]);
      TwoCopies(items, sorted[k]);
      var i, j :| 0 <= i < j < |items| && items[i] == sorted[k] && items[j] == sorted[k];
    }
    if i, j :| 0 <= i < j < |items| && items[i] == items[j] {
      TwoCopies(items, items[i]);
      TwoCopies(sorted, items[i]);
      var k, l :| 0 <= k < l < |sorted| && sorted[k] == items[i] && sorted[l] == items[i];
      EqualBetween(cmp, sorted, k, l);
      assert !Differs(sorted, k);
    }
  }

  lemma {:induction false} EqualBetween<T(!new)>(cmp: (T, T) -> Ordering, s: seq<T>, k: nat, l: nat)
    requires TotalPreorder(cmp) && Antisymmetric(cmp) && Sorted(cmp, s) && k < l < |s| && s[k] == s[l]
    ensures s[k] == s[k + 1]
  {
    assert Leq(cmp, s[k], s[k + 1]);
    assert l == k + 1 || Leq(cmp, s[k + 1], s[l]);
    EqualIsMutual(cmp, s[k], s[k + 1]);
    assert Equiv(cmp, s[k], s[k + 1]);
  }

  /** Sorts a copy and compares neighbours. */
  method AllDistinct<T(==, !new)>(items: seq<T>, cmp: (T, T) -> Ordering) returns (distinct: bool)
    requires TotalPreorder(cmp) && Antisymmetric(cmp)
    ensures distinct <==> NoDuplicates(items)
  {
    var sorted := SortList(items, cmp);
    NeighboursDecide(cmp, items, sorted);
    var k := 0;
    while k + 1 < |sorted|
      invariant 0 <= k && forall i | 0 <= i < k && i + 1 < |sorted| :: Differs(sorted, i)
    {
      if sorted[k] == sorted[k + 1] {
        assert !Differs(sorted, k);
        return false;
      }
      k := k + 1;
    }
    return true;
  }

  // ----- What metadata must satisfy -----

  function SuffixLength(paths: seq<FrontCodedPath>, n: nat): nat
    requires n <= |paths|
  {
    if n == 0 then 0 else SuffixLength(paths, n - 1) + |paths[n - 1].suffix|
  }

  function DecodedLength(paths: seq<FrontCodedPath>, i: nat): nat
    requires i < |paths|
  {
    match Decoded(paths, i) case Some(p) => |p| case None => 0
  }

  function ExpandedLength(paths: seq<FrontCodedPath>, n: nat): nat
    requires n <= |paths|
  {
    if n == 0 then 0 else ExpandedLength(paths, n - 1) + DecodedLength(paths, n - 1)
  }

  /** The size the decoder charges a pack with: its columns, the coded suffixes and the expanded paths. */
  function MetadataSize(m: PackMetadata): nat {
    72 * |m.records| + 4 * |m.modeDictionary| + SuffixLength(m.paths, |m.paths|) + ExpandedLength(m.paths, |m.paths|)
  }

  function LengthsBefore(records: seq<MetadataRecord>, n: nat): nat
    requires n <= |records|
  {
    if n == 0 then 0 else LengthsBefore(records, n - 1) + records[n - 1].length
  }

  predicate ColumnsMatch(m: PackMetadata) {
    |m.paths| == |m.modifiedNsDeltas| == |m.records|
  }

  predicate PathShape(m: PackMetadata, i: nat)
    requires i < |m.paths|
  {
    Decoded(m.paths, i).Some? && Decoded(m.paths, i).value != []
  }

  predicate RecordShape(m: PackMetadata, i: nat)
    requires i < |m.records|
  {
    m.records[i].modeIndex < |m.modeDictionary| && m.records[i].contentOffset == LengthsBefore(m.records, i)
  }

  ghost predicate DistinctIds(records: seq<MetadataRecord>) {
    forall i, j | 0 <= i < j < |records| :: records[i].entryId != records[j].entryId
  }

  ghost predicate DistinctDecoded(paths: seq<FrontCodedPath>) {
    forall i, j | 0 <= i < j < |paths| :: Decoded(paths, i) != Decoded(paths, j)
  }

  ghost predicate DictionaryShape(m: PackMetadata) {
    (m.records != [] ==> m.modeDictionary != []) && |m.modeDictionary| <= |m.records|
    && StrictlyIncreasing(m.modeDictionary)
  }

  /** Everything whose violation is reported as invalid metadata. */
  ghost predicate MetadataShape(m: PackMetadata) {
    && ColumnsMatch(m)
    && DictionaryShape(m)
    && (forall i | 0 <= i < |m.paths| :: PathShape(m, i))
    && (forall i | 0 <= i < |m.records| :: RecordShape(m, i))
    && DistinctIds(m.records)
    && DistinctDecoded(m.paths)
  }

  predicate TimeFits(m: PackMetadata, i: nat)
    requires i < |m.modifiedNsDeltas|
  {
    m.baseModifiedNs + m.modifiedNsDeltas[i] < 0x8000_0000_0000_0000
  }

  predicate PathFits(config: ChunkingConfig, m: PackMetadata, i: nat)
    requires i < |m.paths|
  {
    DecodedLength(m.paths, i) <= config.maxPathBytes
  }

  /** Everything whose violation is reported as a resource limit or an overflow. */
  ghost predicate MetadataFits(config: ChunkingConfig, m: PackMetadata) {
    && |m.records| <= config.maxChunks
    && MetadataSize(m) <= config.maxMetadataBytes
    && (forall i | 0 <= i < |m.paths| :: PathFits(config, m, i))
    && (forall i | 0 <= i < |m.modifiedNsDeltas| :: TimeFits(m, i))
    && LengthsBefore(m.records, |m.records|) <= U64_MAX
  }

  lemma {:induction false} LengthsGrow(m: PackMetadata, i: nat, n: nat)
    requires i <= n <= |m.paths|
    ensures SuffixLength(m.paths, i) <= SuffixLength(m.paths, n)
    ensures ExpandedLength(m.paths, i) <= ExpandedLength(m.paths, n)
  {
    if i < n {
      LengthsGrow(m, i, n - 1);
    }
  }

  lemma {:induction false} OffsetsGrow(records: seq<MetadataRecord>, i: nat, n: nat)
    requires i <= n <= |records|
    ensures LengthsBefore(records, i) <= LengthsBefore(records, n)
  {
    if i < n {
      OffsetsGrow(records, i, n - 1);
    }
  }

  // ----- expanded_paths -----

  method CheckDictionary(config: ChunkingConfig, m: PackMetadata) returns (r: Result<(), PithosError>)
    ensures r.Success? <==> ColumnsMatch(m) && DictionaryShape(m)
    ensures r.Failure? ==> r.error.InvalidMetadata?
  {
    if !ColumnsMatch(m) {
      return Failure(InvalidMetadata("microfile metadata columns"));
    }
    if |m.records| > 0 && |m.modeDictionary| == 0 {
      return Failure(InvalidMetadata("microfile mode dictionary"));
    }
    if |m.modeDictionary| > |m.records| {
      return Failure(InvalidMetadata("microfile mode dictionary"));
    }
    var k := 0;
    while k + 1 < |m.modeDictionary|
      invariant 0 <= k
      invariant forall i, j | 0 <= i < j <= k && j < |m.modeDictionary| :: m.modeDictionary[i] < m.modeDictionary[j]
    {
      if m.modeDictionary[k] >= m.modeDictionary[k + 1] {
        return Failure(InvalidMetadata("microfile mode dictionary"));
      }
      k := k + 1;
    }
    return Success(());
  }

  method SumSuffixes(config: ChunkingConfig, m: PackMetadata) returns (r: Result<nat, PithosError>)
    ensures r.Success? ==>
              r.value == 72 * |m.records| + 4 * |m.modeDictionary| + SuffixLength(m.paths, |m.paths|)
                <= config.maxMetadataBytes
    ensures r.Failure? ==> MetadataSize(m) > config.maxMetadataBytes && !r.error.InvalidMetadata?
  {
    var base := 72 * |m.records| + 4 * |m.modeDictionary|;
    if base > config.maxMetadataBytes {
      return Failure(ResourceLimit("metadata bytes"));
    }
    var suffix := 0;
    for i := 0 to |m.paths|
      invariant suffix == SuffixLength(m.paths, i) && base + suffix <= config.maxMetadataBytes
    {
      suffix := suffix + |m.paths[i].suffix|;
      if base + suffix > config.maxMetadataBytes {
        LengthsGrow(m, i + 1, |m.paths|);
        return Failure(if base + suffix > U64_MAX then IntegerOverflow else ResourceLimit("metadata bytes"));
      }
    }
    return Success(base + suffix);
  }

  /** The paths, and what is charged for them, of the first `n` rows. */
  datatype Expansion = Expansion(paths: seq<bytes>, offset: nat, charged: nat)

  ghost predicate ExpandedUpTo(config: ChunkingConfig, m: PackMetadata, n: nat, now: Expansion)
    requires n <= |m.paths| && ColumnsMatch(m)
  {
    && |now.paths| == n && (forall i | 0 <= i < n :: Decoded(m.paths, i) == Some(now.paths[i]))
    && now.offset == LengthsBefore(m.records, n) <= U64_MAX
    && now.charged == ExpandedLength(m.paths, n)
    && forall i | 0 <= i < n :: RowFits(config, m, i)
  }

  predicate RowFits(config: ChunkingConfig, m: PackMetadata, i: nat)
    requires i < |m.paths| && ColumnsMatch(m)
  {
    PathShape(m, i) && RecordShape(m, i) && PathFits(config, m, i) && TimeFits(m, i)
  }

  lemma {:induction false} ExpandedOne(config: ChunkingConfig, m: PackMetadata, n: nat, now: Expansion, path: bytes)
    requires n < |m.paths| && ColumnsMatch(m) && ExpandedUpTo(config, m, n, now) && Decoded(m.paths, n) == Some(path)
    requires RowFits(config, m, n) && now.offset + m.records[n].length <= U64_MAX
    ensures ExpandedUpTo(config, m, n + 1,
                         Expansion(now.paths + [path], now.offset + m.records[n].length, now.charged + |path|))
  {
  }

  method ExpandRow(config: ChunkingConfig, m: PackMetadata, n: nat, now: Expansion, columnBytes: nat)
    returns (r: Result<Expansion, PithosError>)
    requires n < |m.paths| && ColumnsMatch(m) && ExpandedUpTo(config, m, n, now)
    requires columnBytes == 72 * |m.records| + 4 * |m.modeDictionary| + SuffixLength(m.paths, |m.paths|)
    ensures r.Success? ==>
              ExpandedUpTo(config, m, n + 1, r.value) && columnBytes + r.value.charged <= config.maxMetadataBytes
    ensures r.Failure? ==> !MetadataShape(m) || !MetadataFits(config, m)
    ensures r.Failure? && r.error.InvalidMetadata? ==> !MetadataShape(m)
  {
    var previous := if n == 0 then [] else now.paths[n - 1];
    var prefix := m.paths[n].sharedPrefixLen;
    if prefix > |previous| {
      assert !PathShape(m, n);
      return Failure(InvalidMetadata("front-coded microfile path"));
    }
    var expanded := previous[..prefix] + m.paths[n].suffix;
    assert Decoded(m.paths, n) == Some(expanded);
    if |expanded| > config.maxPathBytes {
      assert !PathFits(config, m, n);
      return Failure(ResourceLimit("path bytes"));
    }
    if columnBytes + now.charged + |expanded| > config.maxMetadataBytes {
      LengthsGrow(m, n + 1, |m.paths|);
      return Failure(ResourceLimit("metadata bytes"));
    }
    if expanded == [] {
      assert !PathShape(m, n);
      return Failure(InvalidMetadata("empty microfile path"));
    }
    if !TimeFits(m, n) {
      return Failure(IntegerOverflow);
    }
    if !RecordShape(m, n) {
      return Failure(InvalidMetadata("microfile metadata record"));
    }
    if now.offset + m.records[n].length > U64_MAX {
      OffsetsGrow(m.records, n + 1, |m.records|);
      return Failure(IntegerOverflow);
    }
    ExpandedOne(config, m, n, now, expanded);
    return Success(Expansion(now.paths + [expanded], now.offset + m.records[n].length, now.charged + |expanded|));
  }

  function EntryIds(records: seq<MetadataRecord>): (s: seq<u64>)
    ensures |s| == |records| && forall i | 0 <= i < |s| :: s[i] == records[i].entryId
  {
    seq(|records|, i requires 0 <= i < |records| => records[i].entryId)
  }

  function CompareU64(a: u64, b: u64): Ordering {
    CompareNat(a, b)
  }

  lemma {:induction false} U64IsTotal()
    ensures TotalPreorder(CompareU64) && Antisymmetric(CompareU64)
  {
  }

  method CheckDistinctIds(records: seq<MetadataRecord>) returns (distinct: bool)
    ensures distinct <==> DistinctIds(records)
  {
    U64IsTotal();
    var ids := EntryIds(records);
    IdsAgree(records, ids);
    distinct := AllDistinct(ids, CompareU64);
  }

  method CheckDistinctPaths(coded: seq<FrontCodedPath>, paths: seq<bytes>) returns (distinct: bool)
    requires |paths| == |coded| && forall i | 0 <= i < |paths| :: Decoded(coded, i) == Some(paths[i])
    ensures distinct <==> DistinctDecoded(coded)
  {
    PathsAgree(coded, paths);
    distinct := AllDistinctPaths(paths);
  }

  method AllDistinctPaths(paths: seq<bytes>) returns (distinct: bool)
    ensures distinct <==> NoDuplicates(paths)
  {
    BytesIsTotal();
    distinct := AllDistinct<bytes>(paths, CompareBytes);
  }

  lemma {:induction false} IdsAgree(records: seq<MetadataRecord>, ids: seq<u64>)
    requires ids == EntryIds(records)
    ensures NoDuplicates(ids) <==> DistinctIds(records)
  {
    if NoDuplicates(ids) {
      forall i, j | 0 <= i < j < |records| ensures records[i].entryId != records[j].entryId {
        assert ids[i] != ids[j];
      }
    }
    if DistinctIds(records) {
      forall i, j | 0 <= i < j < |ids| ensures ids[i] != ids[j] {
        assert records[i].entryId != records[j].entryId;
      }
    }
  }

  lemma {:induction false} PathsAgree(coded: seq<FrontCodedPath>, paths: seq<bytes>)
    requires |paths| == |coded| && forall i | 0 <= i < |paths| :: Decoded(coded, i) == Some(paths[i])
    ensures NoDuplicates(paths) <==> DistinctDecoded(coded)
  {
    if NoDuplicates(paths) {
      forall i, j | 0 <= i < j < |coded| ensures Decoded(coded, i) != Decoded(coded, j) {
        assert paths[i] != paths[j];
      }
    }
    if DistinctDecoded(coded) {
      forall i, j | 0 <= i < j < |paths| ensures paths[i] != paths[j] {
        assert Decoded(coded, i) != Decoded(coded, j);
      }
    }
  }

  lemma {:induction false} RowsTogether(config: ChunkingConfig, m: PackMetadata, now: Expansion)
    requires ColumnsMatch(m) && ExpandedUpTo(config, m, |m.paths|, now)
    ensures forall i | 0 <= i < |m.paths| :: PathShape(m, i)
    ensures forall i | 0 <= i < |m.records| :: RecordShape(m, i)
    ensures forall i | 0 <= i < |m.paths| :: PathFits(config, m, i)
    ensures forall i | 0 <= i < |m.modifiedNsDeltas| :: TimeFits(m, i)
  {
    forall i | 0 <= i < |m.paths|
      ensures PathShape(m, i) && RecordShape(m, i) && PathFits(config, m, i) && TimeFits(m, i) {
      assert RowFits(config, m, i);
    }
  }

  /** The expanded paths of acceptable metadata; invalid metadata is reported only for metadata that is. */
  method ExpandedPaths(config: ChunkingConfig, m: PackMetadata) returns (r: Result<seq<bytes>, PithosError>)
    ensures r.Success? <==> ConfigOk(config) && MetadataShape(m) && MetadataFits(config, m)
    ensures r.Success? ==>
              |r.value| == |m.paths| && forall i | 0 <= i < |r.value| :: Decoded(m.paths, i) == Some(r.value[i])
    ensures r.Failure? && r.error.InvalidMetadata? ==> !ConfigOk(config) || !MetadataShape(m)
  {
    if !ConfigOk(config) {
      return Failure(InvalidMetadata("chunking configuration"));
    }
    if |m.records| > config.maxChunks {
      return Failure(ResourceLimit("chunk count"));
    }
    var dictionary := CheckDictionary(config, m);
    if dictionary.Failure? {
      return Failure(dictionary.error);
    }
    var columns := SumSuffixes(config, m);
    if columns.Failure? {
      return Failure(columns.error);
    }
    var now := Expansion([], 0, 0);
    for n := 0 to |m.paths|
      invariant ExpandedUpTo(config, m, n, now) && columns.value + now.charged <= config.maxMetadataBytes
    {
      var row := ExpandRow(config, m, n, now, columns.value);
      if row.Failure? {
        return Failure(row.error);
      }
      now := row.value;
    }
    RowsTogether(config, m, now);
    var distinctIds := CheckDistinctIds(m.records);
    if !distinctIds {
      return Failure(InvalidMetadata("duplicate microfile entry id"));
    }
    var distinctPaths := CheckDistinctPaths(m.paths, now.paths);
    if !distinctPaths {
      return Failure(InvalidMetadata("duplicate microfile path"));
    }
    return Success(now.paths);
  }
}
