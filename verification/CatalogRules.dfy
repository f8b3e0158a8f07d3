/** What makes a set of archive tables acceptable, stated without the order in which the reader looks at them. */
module CatalogRules {
  import opened Base
  import opened PathKeys
  import opened ArchiveFormat
  import opened CodecRegistry

  datatype Tables = Tables(entries: seq<EntryRecord>, groups: seq<GroupRecord>, restores: seq<RestoreMapRecord>,
                           index: seq<CentralIndexRecord>, integrity: seq<IntegrityRecord>,
                           registry: Option<seq<RegistryRecord>>)

  // ----- Entries -----

  function EntryGroup(e: EntryRecord): Option<nat> {
    match e.kind
    case File(groupId) => Some(groupId)
    case _ => None
  }

  predicate EntryOk(p: Primitives, limits: DecodeLimits, t: Tables, i: nat)
    requires i < |t.entries|
  {
    var e := t.entries[i];
    && e.entryId == i
    && PathOk(p, limits, e.path)
    && match e.kind {
         case File(groupId) => groupId < |t.groups| && t.groups[groupId].groupId == groupId
         case Directory => e.size == 0
         case Hardlink(target) =>
           target < i && t.entries[target].kind.File? && t.entries[target].size == e.size
           && t.entries[target].blake3 == e.blake3
         case Symlink(target, _) => ResolvesWithin(target, e.path) && TargetOk(p, target)
       }
  }

  predicate IndexOk(t: Tables, i: nat)
    requires i < |t.entries| == |t.index| == |t.integrity|
  {
    var e := t.entries[i];
    && t.index[i] == CentralIndexRecord(e.path, e.entryId, EntryGroup(e))
    && t.integrity[i] == IntegrityRecord(e.entryId, e.blake3)
  }

  ghost predicate DistinctPaths(entries: seq<EntryRecord>) {
    forall i, j | 0 <= i < j < |entries| :: entries[i].path != entries[j].path
  }

  /** Bytes of the first `n` entries once unpacked: files, and hardlinks counted again. */
  function OriginalSize(entries: seq<EntryRecord>, n: nat): nat
    requires n <= |entries|
  {
    if n == 0 then 0
    else OriginalSize(entries, n - 1)
         + if entries[n - 1].kind.File? || entries[n - 1].kind.Hardlink? then entries[n - 1].size else 0
  }

  function FileCount(entries: seq<EntryRecord>, n: nat): nat
    requires n <= |entries|
  {
    if n == 0 then 0 else FileCount(entries, n - 1) + if entries[n - 1].kind.File? then 1 else 0
  }

  ghost predicate EntriesOk(p: Primitives, limits: DecodeLimits, t: Tables) {
    && |t.index| == |t.entries| && |t.integrity| == |t.entries|
    && DistinctPaths(t.entries)
    && OriginalSize(t.entries, |t.entries|) <= limits.maxOriginalBytes
    && (forall i | 0 <= i < |t.entries| :: EntryOk(p, limits, t, i))
    && (forall i | 0 <= i < |t.entries| :: IndexOk(t, i))
  }

  // ----- Restore map -----

  predicate RestoreOk(t: Tables, j: nat)
    requires j < |t.restores|
  {
    var r := t.restores[j];
    && r.entryId < |t.entries|
    && r.entryId == t.entries[r.entryId].entryId
    && t.entries[r.entryId].kind == File(r.groupId)
    && r.originalOffset == 0
    && r.length == t.entries[r.entryId].size
  }

  ghost predicate RestoresOk(t: Tables) {
    && (forall j | 0 <= j < |t.restores| :: RestoreOk(t, j))
    && (forall i, j | 0 <= i < j < |t.restores| :: t.restores[i].entryId != t.restores[j].entryId)
    && |t.restores| == FileCount(t.entries, |t.entries|)
  }

  // ----- Groups -----

  /** Bytes that the first `n` restore records take out of group `g`. */
  function MappedLength(restores: seq<RestoreMapRecord>, g: nat, n: nat): nat
    requires n <= |restores|
  {
    if n == 0 then 0 else MappedLength(restores, g, n - 1) + if restores[n - 1].groupId == g then restores[n - 1].length
      else 0
  }

  function MappedCount(restores: seq<RestoreMapRecord>, g: nat, n: nat): nat
    requires n <= |restores|
  {
    if n == 0 then 0 else MappedCount(restores, g, n - 1) + if restores[n - 1].groupId == g then 1 else 0
  }

  predicate SliceAt(restores: seq<RestoreMapRecord>, g: nat, j: nat)
    requires j < |restores|
  {
    restores[j].groupId == g ==> restores[j].groupOffset == MappedLength(restores, g, j)
  }

  /** The slices of group `g` follow one another from offset 0 to the group's length. */
  ghost predicate SlicesTile(t: Tables, g: nat)
    requires g < |t.groups|
  {
    && MappedCount(t.restores, g, |t.restores|) == t.groups[g].chunkCount > 0
    && MappedLength(t.restores, g, |t.restores|) == t.groups[g].uncompressedLen
    && forall j | 0 <= j < |t.restores| :: SliceAt(t.restores, g, j)
  }

  /** Where the payload of group `g` must start when the payload area starts at `start`. */
  function PayloadStart(groups: seq<GroupRecord>, start: nat, g: nat): nat
    requires g <= |groups|
  {
    if g == 0 then start else PayloadStart(groups, start, g - 1) + groups[g - 1].compressedLen
  }

  predicate RatioOk(limits: DecodeLimits, g: GroupRecord) {
    g.compressedLen == 0
    || g.compressedLen * limits.maxExpansionRatio > U64_MAX
    || g.uncompressedLen <= g.compressedLen * limits.maxExpansionRatio
  }

  predicate SizesOk(limits: DecodeLimits, g: GroupRecord) {
    && limits.maxGroupOutput + MIB <= U64_MAX
    && g.uncompressedLen <= limits.maxGroupOutput
    && g.compressedLen <= limits.maxGroupOutput + MIB
    && RatioOk(limits, g)
  }

  predicate CodecOk(registry: Option<seq<RegistryRecord>>, g: GroupRecord) {
    match registry
    case None => g.codecChainId == 0 && g.chunkCount == 1 && g.uncompressedLen == g.compressedLen
    case Some(records) =>
      g.codecChainId != 0 &&
      match Chain(records, g.codecChainId) {
        case None => false
        case Some(r) =>
          match CodecFromNumber(r.codecId)
          case None => false
          case Some(c) => MemoryBound(c, r.level, g.uncompressedLen).Success?
      }
  }

  predicate GroupOk(limits: DecodeLimits, t: Tables, payload: SectionRecord, g: nat)
    requires g < |t.groups|
  {
    var group := t.groups[g];
    && group.groupId == g && group.version == 1 && group.flags == 0 && group.descriptorLen == 0
    && SizesOk(limits, group)
    && CodecOk(t.registry, group)
    && group.payloadOffset == PayloadStart(t.groups, payload.offset, g)
    && group.payloadOffset + group.compressedLen <= payload.offset + payload.length
  }

  ghost predicate GroupsOk(limits: DecodeLimits, t: Tables, payload: SectionRecord) {
    && payload.offset + payload.length <= U64_MAX
    && (forall g | 0 <= g < |t.groups| :: GroupOk(limits, t, payload, g))
    && (forall g | 0 <= g < |t.groups| :: SlicesTile(t, g))
    && PayloadStart(t.groups, payload.offset, |t.groups|) == payload.offset + payload.length
  }

  /** All table rules. */
  ghost predicate TablesOk(p: Primitives, limits: DecodeLimits, t: Tables, payload: SectionRecord) {
    EntriesOk(p, limits, t) && RestoresOk(t) && GroupsOk(limits, t, payload)
  }

  // ----- What the rules imply -----

  ghost function FileEntries(entries: seq<EntryRecord>, n: nat): set<nat>
    requires n <= |entries|
  {
    set i | 0 <= i < n && entries[i].kind.File?
  }

  lemma {:induction false} FileEntriesCount(entries: seq<EntryRecord>, n: nat)
    requires n <= |entries|
    ensures |FileEntries(entries, n)| == FileCount(entries, n)
  {
    if n > 0 {
      FileEntriesCount(entries, n - 1);
      if entries[n - 1].kind.File? {
        assert FileEntries(entries, n) == FileEntries(entries, n - 1) + {n - 1};
      } else {
        assert FileEntries(entries, n) == FileEntries(entries, n - 1);
      }
    }
  }

  function RestoredIds(restores: seq<RestoreMapRecord>): (ids: seq<nat>)
    ensures |ids| == |restores| && forall j | 0 <= j < |ids| :: ids[j] == restores[j].entryId
  {
    seq(|restores|, j requires 0 <= j < |restores| => restores[j].entryId)
  }

  /** Every file has a restore record; `RestoresOk` already says it has no second one. */
  lemma {:induction false} EveryFileIsRestored(t: Tables, i: nat) returns (j: nat)
    requires RestoresOk(t) && i < |t.entries| && t.entries[i].kind.File?
    ensures j < |t.restores| && t.restores[j].entryId == i
  {
    var ids := RestoredIds(t.restores);
    SetOfSize(ids);
    FileEntriesCount(t.entries, |t.entries|);
    var files := FileEntries(t.entries, |t.entries|);
    forall x | x in SetOf(ids) ensures x in files {
      var k :| 0 <= k < |ids| && ids[k] == x;
      assert RestoreOk(t, k);
    }
    SubsetOfSameSize(SetOf(ids), files);
    assert i in SetOf(ids);
    j :| 0 <= j < |ids| && ids[j] == i;
  }

  lemma {:induction false} MappedLengthGrows(restores: seq<RestoreMapRecord>, g: nat, m: nat, n: nat)
    requires m <= n <= |restores|
    ensures MappedLength(restores, g, m) <= MappedLength(restores, g, n)
  {
    if m < n {
      MappedLengthGrows(restores, g, m, n - 1);
    }
  }

  /** The slice of a restore record lies inside its group. */
  lemma {:induction false} SliceFits(p: Primitives, limits: DecodeLimits, t: Tables, payload: SectionRecord, j: nat)
    requires TablesOk(p, limits, t, payload) && j < |t.restores|
    ensures var r := t.restores[j];
      r.groupId < |t.groups| && r.groupOffset + r.length <= t.groups[r.groupId].uncompressedLen
  {
    var r := t.restores[j];
    assert RestoreOk(t, j);
    assert EntryOk(p, limits, t, r.entryId);
    var g := r.groupId;
    assert SlicesTile(t, g) && SliceAt(t.restores, g, j);
    assert MappedLength(t.restores, g, j + 1) == r.groupOffset + r.length;
    MappedLengthGrows(t.restores, g, j + 1, |t.restores|);
  }

  /** Slices of one group never overlap. */
  lemma {:induction false} SlicesAreDisjoint(t: Tables, g: nat, i: nat, j: nat)
    requires g < |t.groups| && SlicesTile(t, g) && i < j < |t.restores|
    requires t.restores[i].groupId == g && t.restores[j].groupId == g
    ensures t.restores[i].groupOffset + t.restores[i].length <= t.restores[j].groupOffset
  {
    assert SliceAt(t.restores, g, i) && SliceAt(t.restores, g, j);
    MappedLengthGrows(t.restores, g, i + 1, j);
  }

  lemma {:induction false} FirstSliceCovering(restores: seq<RestoreMapRecord>, g: nat, n: nat, x: nat) returns (j: nat)
    requires n <= |restores| && x < MappedLength(restores, g, n)
    ensures j < n && restores[j].groupId == g
    ensures MappedLength(restores, g, j) <= x < MappedLength(restores, g, j) + restores[j].length
  {
    if x < MappedLength(restores, g, n - 1) {
      j := FirstSliceCovering(restores, g, n - 1, x);
    } else {
      j := n - 1;
    }
  }

  /** Every byte of a decoded group belongs to the slice of some restore record. */
  lemma {:induction false} EveryByteIsRestored(t: Tables, g: nat, x: nat) returns (j: nat)
    requires g < |t.groups| && SlicesTile(t, g) && x < t.groups[g].uncompressedLen
    ensures j < |t.restores| && t.restores[j].groupId == g
    ensures t.restores[j].groupOffset <= x < t.restores[j].groupOffset + t.restores[j].length
  {
    j := FirstSliceCovering(t.restores, g, |t.restores|, x);
    assert SliceAt(t.restores, g, j);
  }

  lemma {:induction false} PayloadStartGrows(groups: seq<GroupRecord>, start: nat, m: nat, n: nat)
    requires m <= n <= |groups|
    ensures PayloadStart(groups, start, m) <= PayloadStart(groups, start, n)
  {
    if m < n {
      PayloadStartGrows(groups, start, m, n - 1);
    }
  }

  /** Payloads of different groups never overlap. */
  lemma {:induction false} PayloadsAreDisjoint(limits: DecodeLimits, t: Tables, payload: SectionRecord, g: nat, h: nat)
    requires GroupsOk(limits, t, payload) && g < h < |t.groups|
    ensures payload.offset <= t.groups[g].payloadOffset
    ensures t.groups[g].payloadOffset + t.groups[g].compressedLen <= t.groups[h].payloadOffset
    ensures t.groups[h].payloadOffset + t.groups[h].compressedLen <= payload.offset + payload.length
  {
    assert GroupOk(limits, t, payload, g) && GroupOk(limits, t, payload, h);
    PayloadStartGrows(t.groups, payload.offset, 0, g);
    PayloadStartGrows(t.groups, payload.offset, g + 1, h);
  }
}
