/** The reader's table checks: loops over the tables, each deciding one of the catalog rules. */
module CatalogReader {
  import opened Base
  import opened PathKeys
  import opened ArchiveFormat
  import opened CatalogRules

  lemma {:induction false} OriginalSizeGrows(entries: seq<EntryRecord>, m: nat, n: nat)
    requires m <= n <= |entries|
    ensures OriginalSize(entries, m) <= OriginalSize(entries, n)
  {
    if m < n {
      OriginalSizeGrows(entries, m, n - 1);
    }
  }

  /** One entry on its own; the sizes and the repeated paths are the loop's business. */
  method CheckEntry(p: Primitives, limits: DecodeLimits, t: Tables, i: nat) returns (r: Result<(), PithosError>)
    requires i < |t.entries| == |t.index| == |t.integrity|
    ensures r.Success? <==> EntryOk(p, limits, t, i) && IndexOk(t, i)
  {
    var e := t.entries[i];
    if e.entryId != i {
      return Failure(InvalidMetadata("entry id"));
    }
    if !PathOk(p, limits, e.path) {
      return Failure(ResourceLimit("path"));
    }
    match e.kind {
      case File(groupId) =>
        if groupId >= |t.groups| {
          return Failure(InvalidMetadata("entry group"));
        }
        if t.groups[groupId].groupId != groupId {
          return Failure(InvalidMetadata("entry group ID"));
        }
      case Directory =>
        if e.size != 0 {
          return Failure(InvalidMetadata("directory size"));
        }
      case Hardlink(target) =>
        if target >= e.entryId {
          return Failure(InvalidMetadata("hardlink ordering"));
        }
        var file := t.entries[target];
        if !file.kind.File? || file.size != e.size || file.blake3 != e.blake3 {
          return Failure(InvalidMetadata("hardlink target"));
        }
      case Symlink(target, _) =>
        var inside := CheckResolvesWithin(target, e.path);
        if !inside {
          return Failure(UnsafeSymlink);
        }
        if !TargetOk(p, target) {
          return Failure(UnsafePath);
        }
    }
    if t.index[i] != CentralIndexRecord(e.path, e.entryId, EntryGroup(e))
        || t.integrity[i] != IntegrityRecord(e.entryId, e.blake3) {
      return Failure(InvalidMetadata("index/integrity"));
    }
    return Success(());
  }

  /** `keys` holds the sort keys of the first `n` paths, and these are all different. */
  ghost predicate KeysOf(keys: set<bytes>, entries: seq<EntryRecord>, n: nat)
    requires n <= |entries|
  {
    && (forall k | 0 <= k < n :: SortKey(entries[k].path) in keys)
    && (forall key | key in keys :: exists k :: 0 <= k < n && SortKey(entries[k].path) == key)
    && (forall i, j | 0 <= i < j < n :: entries[i].path != entries[j].path)
  }

  lemma {:induction false} NewKeyIsNewPath(keys: set<bytes>, entries: seq<EntryRecord>, n: nat, key: bytes)
    requires n < |entries| && KeysOf(keys, entries, n) && key == SortKey(entries[n].path)
    ensures key in keys ==> !DistinctPaths(entries)
    ensures key !in keys ==> KeysOf(keys + {key}, entries, n + 1)
  {
    forall k | 0 <= k < n ensures SortKey(entries[k].path) == key <==> entries[k].path == entries[n].path {
      SortKeyIsInjective(entries[k].path, entries[n].path);
    }
  }

  ghost predicate EntriesUpTo(p: Primitives, limits: DecodeLimits, t: Tables, n: nat)
    requires n <= |t.entries| == |t.index| == |t.integrity|
  {
    forall i | 0 <= i < n :: EntryOk(p, limits, t, i) && IndexOk(t, i)
  }

  /** The new total, or an error once it leaves the limit; the source stops there, since totals only grow. */
  method CheckedTotal(limits: DecodeLimits, t: Tables, n: nat, current: nat) returns (r: Result<nat, PithosError>)
    requires n < |t.entries| && current == OriginalSize(t.entries, n) <= limits.maxOriginalBytes
    ensures r.Success? ==> r.value == OriginalSize(t.entries, n + 1) <= limits.maxOriginalBytes
    ensures r.Failure? ==> OriginalSize(t.entries, |t.entries|) > limits.maxOriginalBytes
  {
    var e := t.entries[n];
    if !e.kind.File? && !e.kind.Hardlink? {
      return Success(current);
    }
    if current + e.size > limits.maxOriginalBytes {
      OriginalSizeGrows(t.entries, n + 1, |t.entries|);
      return Failure(if current + e.size > U64_MAX then IntegerOverflow else ResourceLimit("original bytes"));
    }
    return Success(current + e.size);
  }

  /** The running variables of the entry loop. */
  datatype EntryTotals = EntryTotals(pathKeys: set<bytes>, originalSize: nat, fileCount: nat)

  ghost predicate Progress(p: Primitives, limits: DecodeLimits, t: Tables, n: nat, now: EntryTotals)
    requires n <= |t.entries| == |t.index| == |t.integrity|
  {
    && KeysOf(now.pathKeys, t.entries, n)
    && now.originalSize == OriginalSize(t.entries, n) <= limits.maxOriginalBytes
    && now.fileCount == FileCount(t.entries, n)
    && EntriesUpTo(p, limits, t, n)
  }

  lemma {:induction false} ProgressAtStart(p: Primitives, limits: DecodeLimits, t: Tables, now: EntryTotals)
    requires |t.entries| == |t.index| == |t.integrity| && now == EntryTotals({}, 0, 0)
    ensures Progress(p, limits, t, 0, now)
  {
  }

  lemma {:induction false} ProgressAtEnd(p: Primitives, limits: DecodeLimits, t: Tables, now: EntryTotals)
    requires |t.entries| == |t.index| == |t.integrity| && Progress(p, limits, t, |t.entries|, now)
    ensures EntriesOk(p, limits, t)
  {
  }

  lemma {:induction false} EntryRefused(p: Primitives, limits: DecodeLimits, t: Tables, n: nat)
    requires n < |t.entries| == |t.index| == |t.integrity| && !(EntryOk(p, limits, t, n) && IndexOk(t, n))
    ensures !EntriesOk(p, limits, t)
  {
  }

  method CheckNextEntry(p: Primitives, limits: DecodeLimits, t: Tables, position: nat, now: EntryTotals)
    returns (r: Result<EntryTotals, PithosError>)
    requires position < |t.entries| == |t.index| == |t.integrity| && Progress(p, limits, t, position, now)
    ensures r.Success? ==> Progress(p, limits, t, position + 1, r.value)
    ensures r.Failure? ==> !EntriesOk(p, limits, t)
  {
    var key := BuildSortKey(t.entries[position].path);
    NewKeyIsNewPath(now.pathKeys, t.entries, position, key);
    if key in now.pathKeys {
      return Failure(InvalidMetadata("duplicate path"));
    }
    var checked := CheckEntry(p, limits, t, position);
    if checked.Failure? {
      EntryRefused(p, limits, t, position);
      return Failure(checked.error);
    }
    var total := CheckedTotal(limits, t, position, now.originalSize);
    if total.Failure? {
      return Failure(total.error);
    }
    var files := if t.entries[position].kind.File? then now.fileCount + 1 else now.fileCount;
    return Success(EntryTotals(now.pathKeys + {key}, total.value, files));
  }

  method CheckEntries(p: Primitives, limits: DecodeLimits, t: Tables) returns (r: Result<EntryTotals, PithosError>)
    requires |t.entries| == |t.index| == |t.integrity|
    ensures r.Success? <==> EntriesOk(p, limits, t)
    ensures r.Success? ==> r.value.originalSize == OriginalSize(t.entries, |t.entries|)
    ensures r.Success? ==> r.value.fileCount == FileCount(t.entries, |t.entries|)
  {
    hide EntryOk, OriginalSize, FileCount;
    var now := EntryTotals({}, 0, 0);
    ProgressAtStart(p, limits, t, now);
    for position := 0 to |t.entries|
      invariant Progress(p, limits, t, position, now)
    {
      var next := CheckNextEntry(p, limits, t, position, now);
      if next.Failure? {
        return next;
      }
      now := next.value;
    }
    ProgressAtEnd(p, limits, t, now);
    return Success(now);
  }

  lemma {:induction false} SetGrows(ids: seq<nat>, n: nat)
    requires n < |ids|
    ensures SetOf(ids[..n + 1]) == SetOf(ids[..n]) + {ids[n]}
  {
    assert ids[..n + 1] == ids[..n] + [ids[n]];
  }

  lemma {:induction false} RestoresDecided(t: Tables, ids: seq<nat>)
    requires ids == RestoredIds(t.restores) && forall k | 0 <= k < |t.restores| :: RestoreOk(t, k)
    ensures RestoresOk(t) <==> NoDuplicates(ids) && |ids| == FileCount(t.entries, |t.entries|)
  {
    if NoDuplicates(ids) {
      forall i, k | 0 <= i < k < |t.restores| ensures t.restores[i].entryId != t.restores[k].entryId {
        assert ids[i] != ids[k];
      }
    }
  }

  lemma {:induction false} RepeatedId(t: Tables, ids: seq<nat>, n: nat)
    requires ids == RestoredIds(t.restores) && n < |ids| && ids[n] in SetOf(ids[..n])
    ensures !RestoresOk(t)
  {
    var k :| 0 <= k < n && ids[..n][k] == ids[n];
    assert t.restores[k].entryId == t.restores[n].entryId;
  }

  ghost predicate RestoredSoFar(t: Tables, ids: seq<nat>, j: nat, seen: set<nat>) {
    && j <= |t.restores| == |ids| && (forall k | 0 <= k < j :: RestoreOk(t, k))
    && seen == SetOf(ids[..j]) && |seen| == j
  }

  lemma {:induction false} OneMoreRestored(t: Tables, ids: seq<nat>, j: nat, seen: set<nat>)
    requires ids == RestoredIds(t.restores) && j < |t.restores| && RestoredSoFar(t, ids, j, seen) && RestoreOk(t, j)
    requires t.restores[j].entryId !in seen
    ensures RestoredSoFar(t, ids, j + 1, seen + {t.restores[j].entryId})
  {
    SetGrows(ids, j);
  }

  lemma {:induction false} AllRestored(t: Tables, ids: seq<nat>, seen: set<nat>)
    requires ids == RestoredIds(t.restores) && RestoredSoFar(t, ids, |t.restores|, seen)
    ensures RestoresOk(t) <==> |seen| == FileCount(t.entries, |t.entries|)
  {
    assert ids[..|ids|] == ids;
    SetOfSize(ids);
    RestoresDecided(t, ids);
  }

  /** The source's map from entry id to record is only asked which ids it has. */
  method CheckRestores(t: Tables, fileCount: nat) returns (r: Result<(), PithosError>)
    requires fileCount == FileCount(t.entries, |t.entries|)
    ensures r.Success? <==> RestoresOk(t)
  {
    var restoreByEntry: set<nat> := {};
    ghost var ids := RestoredIds(t.restores);
    for j := 0 to |t.restores|
      invariant RestoredSoFar(t, ids, j, restoreByEntry)
    {
      var restore := t.restores[j];
      if !RestoreOk(t, j) {
        return Failure(InvalidMetadata("restore map entry"));
      }
      if restore.entryId in restoreByEntry {
        RepeatedId(t, ids, j);
        return Failure(InvalidMetadata("restore map entry"));
      }
      OneMoreRestored(t, ids, j, restoreByEntry);
      restoreByEntry := restoreByEntry + {restore.entryId};
    }
    AllRestored(t, ids, restoreByEntry);
    if |restoreByEntry| != fileCount {
      return Failure(InvalidMetadata("restore map file count"));
    }
    return Success(());
  }

  /** The records of one group in order: their count, and that each starts where the one before ends. */
  method CheckMappings(t: Tables, g: nat) returns (r: Result<(), PithosError>)
    requires g < |t.groups| && t.groups[g].uncompressedLen <= U64_MAX
    ensures r.Success? <==> SlicesTile(t, g)
  {
    var mappings, expectedOffset := 0, 0;
    for j := 0 to |t.restores|
      invariant mappings == MappedCount(t.restores, g, j)
    {
      if t.restores[j].groupId == g {
        mappings := mappings + 1;
      }
    }
    if mappings != t.groups[g].chunkCount || mappings == 0 {
      return Failure(InvalidMetadata("group chunk count"));
    }
    for j := 0 to |t.restores|
      invariant expectedOffset == MappedLength(t.restores, g, j)
      invariant forall k | 0 <= k < j :: SliceAt(t.restores, g, k)
    {
      if t.restores[j].groupId == g {
        if t.restores[j].groupOffset != expectedOffset {
          assert !SliceAt(t.restores, g, j);
          return Failure(InvalidMetadata("restore group order"));
        }
        if expectedOffset + t.restores[j].length > U64_MAX {
          MappedLengthGrows(t.restores, g, j + 1, |t.restores|);
          return Failure(IntegerOverflow);
        }
        expectedOffset := expectedOffset + t.restores[j].length;
      }
    }
    if expectedOffset != t.groups[g].uncompressedLen {
      return Failure(InvalidMetadata("restore group length"));
    }
    return Success(());
  }

  method CheckGroup(limits: DecodeLimits, t: Tables, payload: SectionRecord, g: nat, previousGroupEnd: nat)
    returns (r: Result<nat, PithosError>)
    requires g < |t.groups| && previousGroupEnd == PayloadStart(t.groups, payload.offset, g)
    ensures r.Success? <==> GroupOk(limits, t, payload, g) && SlicesTile(t, g)
    ensures r.Success? ==> r.value == PayloadStart(t.groups, payload.offset, g + 1)
  {
    var group := t.groups[g];
    if group.groupId != g || group.version != 1 || group.flags != 0 || group.descriptorLen != 0 {
      return Failure(InvalidMetadata("group header"));
    }
    if group.uncompressedLen > limits.maxGroupOutput {
      return Failure(ResourceLimit("group output"));
    }
    if limits.maxGroupOutput + MIB > U64_MAX {
      return Failure(IntegerOverflow);
    }
    if group.compressedLen > limits.maxGroupOutput + MIB {
      return Failure(ResourceLimit("group output"));
    }
    if !RatioOk(limits, group) {
      return Failure(ResourceLimit("group expansion ratio"));
    }
    if !CodecOk(t.registry, group) {
      return Failure(UnsupportedCodec);
    }
    if group.payloadOffset != previousGroupEnd
        || group.payloadOffset + group.compressedLen > payload.offset + payload.length {
      return Failure(InvalidRange);
    }
    var mapped := CheckMappings(t, g);
    if mapped.Failure? {
      return Failure(mapped.error);
    }
    return Success(group.payloadOffset + group.compressedLen);
  }

  method CheckGroups(limits: DecodeLimits, t: Tables, payload: SectionRecord) returns (r: Result<(), PithosError>)
    ensures r.Success? <==> GroupsOk(limits, t, payload)
  {
    if payload.offset + payload.length > U64_MAX {
      return Failure(IntegerOverflow);
    }
    var previousGroupEnd := payload.offset;
    for g := 0 to |t.groups|
      invariant previousGroupEnd == PayloadStart(t.groups, payload.offset, g)
      invariant forall k | 0 <= k < g :: GroupOk(limits, t, payload, k) && SlicesTile(t, k)
    {
      var end := CheckGroup(limits, t, payload, g, previousGroupEnd);
      if end.Failure? {
        return Failure(end.error);
      }
      previousGroupEnd := end.value;
    }
    if previousGroupEnd != payload.offset + payload.length {
      return Failure(InvalidMetadata("unreferenced payload bytes"));
    }
    return Success(());
  }
}
