/**
 What packing builds is accepted by the reader and yields the same files, with the exact limits under which this holds.
 */
module ArchiveRoundTrip {
  import opened Base
  import opened GreedyPartition
  import opened ArchiveFormat
  import opened CodecRegistry
  import opened CatalogRules
  import opened ArchiveReader
  import opened ArchiveContents
  import opened ArchiveLayout
  import opened PackedTables

  // ----- Entries -----

  ghost predicate TargetsOk(p: Primitives, scanned: seq<ScannedEntry>) {
    forall i | 0 <= i < |scanned| :: LinkUsable(p, scanned[i])
  }

  predicate LinkUsable(p: Primitives, e: ScannedEntry) {
    e.kind.ScannedSymlink? ==> TargetOk(p, e.kind.target)
  }

  lemma {:induction false} SameContentAsLeader(p: Primitives, limits: DecodeLimits, scanned: seq<ScannedEntry>, i: nat)
    requires ScanOk(p, limits, scanned) && i < |scanned| && scanned[i].kind.ScannedFile?
    ensures scanned[Leader(scanned, i)].kind.ScannedFile? && Content(scanned, Leader(scanned, i)) == Content(scanned, i)
  {
    LeaderIsSource(scanned, i);
    var leader := Leader(scanned, i);
    assert leader < i ==> SameFile(scanned, leader, i);
  }

  /** The group of a source exists. */
  lemma {:induction false} SourceHasGroup(scanned: seq<ScannedEntry>, layout: Layout, i: nat)
    requires LayoutOk(scanned, layout) && i < |scanned| && IsSource(scanned, i)
    ensures var k := PartOf(layout.ends, SourceIndex(scanned, i));
      k < |layout.ends| && Start(layout.ends, k) <= SourceIndex(scanned, i) < layout.ends[k]
  {
    SourceIndexAt(scanned, i, |scanned|);
    PartFromHolds(layout.ends, |AllSources(scanned)|, SourceIndex(scanned, i), 0);
  }

  lemma {:induction false} PackedEntryOk(p: Primitives, limits: DecodeLimits, scanned: seq<ScannedEntry>,
                                         layout: Layout, i: nat)
    requires ScanOk(p, limits, scanned) && LayoutOk(scanned, layout) && i < |scanned|
    ensures EntryOk(p, limits, TablesFor(p, scanned, layout), i) <==> LinkUsable(p, scanned[i])
  {
    assert ScannedOk(p, limits, scanned[i]);
    if scanned[i].kind.ScannedFile? {
      LeaderIsSource(scanned, i);
      if IsSource(scanned, i) {
        SourceHasGroup(scanned, layout, i);
      }
    }
  }

  lemma {:induction false} PackedSize(p: Primitives, limits: DecodeLimits, scanned: seq<ScannedEntry>, ends: seq<nat>,
                                      i: nat)
    requires ScanOk(p, limits, scanned) && i < |scanned|
    ensures var e := EntryFor(p, scanned, ends, i);
      && (e.kind.File? <==> IsSource(scanned, i))
      && (HasBytes(e) <==> scanned[i].kind.ScannedFile?)
      && (HasBytes(e) ==> e.size == |Content(scanned, i)|)
  {
    if scanned[i].kind.ScannedFile? {
      SameContentAsLeader(p, limits, scanned, i);
    }
  }

  lemma {:induction false} PackedTotal(p: Primitives, limits: DecodeLimits, scanned: seq<ScannedEntry>, ends: seq<nat>,
                                       entries: seq<EntryRecord>, n: nat)
    requires ScanOk(p, limits, scanned) && n <= |scanned| && entries == EntriesFor(p, scanned, ends)
    ensures OriginalSize(entries, n) == OriginalTotal(scanned, n)
    ensures FileCount(entries, n) == |Sources(scanned, n)|
  {
    if n > 0 {
      PackedTotal(p, limits, scanned, ends, entries, n - 1);
      PackedSize(p, limits, scanned, ends, n - 1);
    }
  }

  lemma {:induction false} PackedPathsDistinct(p: Primitives, limits: DecodeLimits, scanned: seq<ScannedEntry>,
                                               ends: seq<nat>, entries: seq<EntryRecord>)
    requires ScanOk(p, limits, scanned) && entries == EntriesFor(p, scanned, ends)
    ensures DistinctPaths(entries)
  {
  }

  lemma {:induction false} PackedIndexOk(p: Primitives, scanned: seq<ScannedEntry>, layout: Layout, i: nat)
    requires LayoutOk(scanned, layout) && i < |scanned|
    ensures IndexOk(TablesFor(p, scanned, layout), i)
  {
  }

  lemma {:induction false} PackedEachEntryOk(p: Primitives, limits: DecodeLimits, scanned: seq<ScannedEntry>,
                                             layout: Layout, t: Tables)
    requires ScanOk(p, limits, scanned) && LayoutOk(scanned, layout) && t == TablesFor(p, scanned, layout)
    ensures (forall i | 0 <= i < |t.entries| :: EntryOk(p, limits, t, i)) <==> TargetsOk(p, scanned)
  {
    if TargetsOk(p, scanned) {
      forall i | 0 <= i < |t.entries| ensures EntryOk(p, limits, t, i) {
        PackedEntryOk(p, limits, scanned, layout, i);
        assert LinkUsable(p, scanned[i]);
      }
    }
    if forall i | 0 <= i < |t.entries| :: EntryOk(p, limits, t, i) {
      forall i | 0 <= i < |scanned| ensures LinkUsable(p, scanned[i]) {
        PackedEntryOk(p, limits, scanned, layout, i);
        assert EntryOk(p, limits, t, i);
      }
    }
  }

  lemma {:induction false} PackedEntriesOk(p: Primitives, limits: DecodeLimits, scanned: seq<ScannedEntry>,
                                           layout: Layout)
    requires ScanOk(p, limits, scanned) && LayoutOk(scanned, layout)
    ensures EntriesOk(p, limits, TablesFor(p, scanned, layout))
            <==> TargetsOk(p, scanned) && OriginalTotal(scanned, |scanned|) <= limits.maxOriginalBytes
  {
    var t := TablesFor(p, scanned, layout);
    PackedTotal(p, limits, scanned, layout.ends, t.entries, |scanned|);
    PackedPathsDistinct(p, limits, scanned, layout.ends, t.entries);
    PackedEachEntryOk(p, limits, scanned, layout, t);
    forall i | 0 <= i < |scanned| ensures IndexOk(t, i) {
      PackedIndexOk(p, scanned, layout, i);
    }
  }

  // ----- Restore map -----

  lemma {:induction false} PackedRestoreOk(p: Primitives, limits: DecodeLimits, scanned: seq<ScannedEntry>,
                                           layout: Layout, s: nat)
    requires ScanOk(p, limits, scanned) && LayoutOk(scanned, layout) && s < |AllSources(scanned)|
    ensures RestoreOk(TablesFor(p, scanned, layout), s)
  {
    IndexOfSource(scanned, |scanned|, s);
  }

  lemma {:induction false} PackedRestoresOk(p: Primitives, limits: DecodeLimits, scanned: seq<ScannedEntry>,
                                            layout: Layout)
    requires ScanOk(p, limits, scanned) && LayoutOk(scanned, layout)
    ensures RestoresOk(TablesFor(p, scanned, layout))
  {
    var t := TablesFor(p, scanned, layout);
    PackedTotal(p, limits, scanned, layout.ends, t.entries, |scanned|);
    forall j | 0 <= j < |t.restores| ensures RestoreOk(t, j) {
      PackedRestoreOk(p, limits, scanned, layout, j);
    }
    forall i, j | 0 <= i < j < |t.restores| ensures t.restores[i].entryId != t.restores[j].entryId {
      SourcesIncrease(scanned, |scanned|, i, j);
    }
  }

  // ----- Groups -----

  lemma {:induction false} NothingMapped(r: seq<RestoreMapRecord>, sizes: seq<nat>, k: nat, from: nat, until: nat)
    requires |r| == |sizes| && from < until
    ensures MappedTo(r, sizes, k, 0, from, until)
  {
  }

  /** Counting one more record, on plain lists. */
  lemma {:induction false} MappedOneMore(r: seq<RestoreMapRecord>, sizes: seq<nat>, k: nat, s: nat, from: nat,
                                         until: nat)
    requires |r| == |sizes| && s < |r| && from < until && r[s].length == sizes[s]
    requires (r[s].groupId == k <==> from <= s < until)
    requires MappedTo(r, sizes, k, s, from, until)
    ensures MappedTo(r, sizes, k, s + 1, from, until)
  {
  }

  /** The records of group `k` among the first `n` are those from `from` to `n` or `until`. */
  predicate MappedTo(r: seq<RestoreMapRecord>, sizes: seq<nat>, k: nat, n: nat, from: nat, until: nat)
    requires n <= |r| == |sizes|
  {
    var last := if n < until then n else until;
    && MappedCount(r, k, n) == (if last < from then 0 else last - from)
    && last <= |sizes| && MappedLength(r, k, n) == SumRange(sizes, from, last)
  }

  lemma {:induction false} RecordOfPart(scanned: seq<ScannedEntry>, ends: seq<nat>, k: nat, s: nat)
    requires Partition(ends, |AllSources(scanned)|) && k < |ends| && s < |AllSources(scanned)|
    ensures var r := RestoreFor(scanned, ends, s);
      r.length == Lengths(scanned)[s] && (r.groupId == k <==> Start(ends, k) <= s < ends[k])
  {
    PartFromHolds(ends, |AllSources(scanned)|, s, 0);
    if Start(ends, k) <= s < ends[k] {
      PartIsUnique(ends, |AllSources(scanned)|, s, k);
    }
  }

  /** The records of part `k` among the first `n`: those of sources from the part's start to `n` or its end. */
  lemma {:induction false} PackedMapping(scanned: seq<ScannedEntry>, ends: seq<nat>, k: nat, n: nat)
    requires Partition(ends, |AllSources(scanned)|) && k < |ends| && n <= |AllSources(scanned)|
    ensures PartAt(ends, |AllSources(scanned)|, k)
    ensures MappedTo(RestoresFor(scanned, ends), Lengths(scanned), k, n, Start(ends, k), ends[k])
  {
    hide AllSources, Lengths, RestoresFor, RestoreFor, MappedTo;
    assert PartAt(ends, |AllSources(scanned)|, k);
    if n == 0 {
      NothingMapped(RestoresFor(scanned, ends), Lengths(scanned), k, Start(ends, k), ends[k]);
    } else {
      PackedMapping(scanned, ends, k, n - 1);
      RecordOfPart(scanned, ends, k, n - 1);
      MappedOneMore(RestoresFor(scanned, ends), Lengths(scanned), k, n - 1, Start(ends, k), ends[k]);
    }
  }

  lemma {:induction false} PackedSlicesTile(p: Primitives, scanned: seq<ScannedEntry>, layout: Layout, k: nat)
    requires LayoutOk(scanned, layout) && k < |layout.ends|
    ensures SlicesTile(TablesFor(p, scanned, layout), k)
  {
    var t, ends, n := TablesFor(p, scanned, layout), layout.ends, |AllSources(scanned)|;
    PackedMapping(scanned, ends, k, n);
    forall j | 0 <= j < n ensures SliceAt(t.restores, k, j) {
      PackedMapping(scanned, ends, k, j);
      PartFromHolds(ends, n, j, 0);
    }
  }

  lemma {:induction false} JoinedLength(scanned: seq<ScannedEntry>, i: nat, j: nat)
    requires j <= |AllSources(scanned)|
    ensures |Joined(Contents(scanned), i, j)| == SumRange(Lengths(scanned), i, j)
  {
    if i < j {
      JoinedLength(scanned, i, j - 1);
    }
  }

  lemma {:induction false} StartsFollowPayloads(groups: seq<GroupRecord>, payloads: seq<bytes>, start: nat, k: nat)
    requires |groups| == |payloads| && k <= |groups|
    requires forall i | 0 <= i < |groups| :: groups[i].compressedLen == |payloads[i]|
    ensures PayloadStart(groups, start, k) == start + BlockStart(payloads, k)
  {
    if k > 0 {
      StartsFollowPayloads(groups, payloads, start, k - 1);
    }
  }

  lemma {:induction false} PackedPayloadStart(p: Primitives, scanned: seq<ScannedEntry>, layout: Layout,
                                              groups: seq<GroupRecord>, k: nat)
    requires LayoutOk(scanned, layout) && k <= |layout.ends|
    requires groups == GroupsFor(p, scanned, layout, StartFor(layout))
    ensures PayloadStart(groups, StartFor(layout), k) == StartFor(layout) + BlockStart(Payloads(p, scanned, layout), k)
  {
    StartsFollowPayloads(groups, Payloads(p, scanned, layout), StartFor(layout), k);
  }

  /** The record of a chain is found past the records of other chains. */
  lemma {:induction false} ChainOf(codecs: seq<CodecId>, c: CodecId)
    requires c in codecs
    ensures Chain(RegistryFor(codecs), CodecNumber(c) + 1) == Some(CodecRecord(c))
  {
    PackedRegistryOk(codecs);
    var records := RegistryFor(codecs);
    assert CodecRecord(c) in records;
    var i :| 0 <= i < |records| && records[i] == CodecRecord(c);
    ChainAt(records, i);
  }

  lemma {:induction false} ChainAt(records: seq<RegistryRecord>, i: nat)
    requires DistinctChains(records) && i < |records|
    ensures Chain(records, records[i].chainId) == Some(records[i])
  {
    if i > 0 {
      assert records[1..][i - 1] == records[i];
      ChainAt(records[1..], i - 1);
    }
  }

  lemma {:induction false} PackedRegistryOk(codecs: seq<CodecId>)
    ensures RegistryOk(RegistryFor(codecs))
  {
  }

  /** With as many parts as items, every part is one item. */
  lemma {:induction false} SinglePart(ends: seq<nat>, n: nat, k: nat)
    requires Partition(ends, n) && |ends| == n && k < n
    ensures ends[k] == k + 1
  {
    EndsAtLeast(ends, n, k);
    EndsRoom(ends, n, k);
  }

  lemma {:induction false} EndsAtLeast(ends: seq<nat>, n: nat, k: nat)
    requires Partition(ends, n) && k < |ends|
    ensures ends[k] >= k + 1
  {
    assert PartAt(ends, n, k);
    if k > 0 {
      EndsAtLeast(ends, n, k - 1);
    }
  }

  lemma {:induction false} EndsRoom(ends: seq<nat>, n: nat, k: nat)
    requires Partition(ends, n) && k < |ends|
    ensures ends[k] + (|ends| - 1 - k) <= n
    decreases |ends| - k
  {
    assert PartAt(ends, n, k);
    if k < |ends| - 1 {
      assert PartAt(ends, n, k + 1);
      EndsRoom(ends, n, k + 1);
    }
  }

  /** The size rules for group `k`; nothing else about a packed group can be refused. */
  predicate GroupFits(p: Primitives, limits: DecodeLimits, scanned: seq<ScannedEntry>, layout: Layout, k: nat)
    requires LayoutOk(scanned, layout) && k < |layout.ends|
  {
    var g := GroupFor(p, scanned, layout, StartFor(layout), k);
    && SizesOk(limits, g)
    && (layout.codecs.Some? ==>
        MemoryBound(layout.codecs.value[k], DefaultLevel(layout.codecs.value[k]), g.uncompressedLen).Success?)
  }

  lemma {:induction false} SingleParts(ends: seq<nat>, n: nat, k: nat)
    requires Partition(ends, n) && |ends| == n && k < n
    ensures Start(ends, k) == k && ends[k] == k + 1
  {
    SinglePart(ends, n, k);
    if k > 0 {
      SinglePart(ends, n, k - 1);
    }
  }

  lemma {:induction false} RawPayloadLength(p: Primitives, scanned: seq<ScannedEntry>, layout: Layout,
                                            payloads: seq<bytes>, k: nat)
    requires LayoutOk(scanned, layout) && k < |layout.ends| && layout.codecs.None?
    requires payloads == Payloads(p, scanned, layout)
    ensures PartAt(layout.ends, |AllSources(scanned)|, k)
    ensures |payloads[k]| == SumRange(Lengths(scanned), Start(layout.ends, k), layout.ends[k])
  {
    assert PartAt(layout.ends, |AllSources(scanned)|, k);
    JoinedLength(scanned, Start(layout.ends, k), layout.ends[k]);
  }

  lemma {:induction false} RawGroupIsOneFile(p: Primitives, scanned: seq<ScannedEntry>, layout: Layout, k: nat)
    requires LayoutOk(scanned, layout) && k < |layout.ends| && layout.codecs.None?
    ensures var g := GroupFor(p, scanned, layout, StartFor(layout), k);
      g.chunkCount == 1 && g.uncompressedLen == g.compressedLen
  {
    SingleParts(layout.ends, |AllSources(scanned)|, k);
    RawPayloadLength(p, scanned, layout, Payloads(p, scanned, layout), k);
  }

  lemma {:induction false} CodecIsRegistered(codecs: seq<CodecId>, k: nat, g: GroupRecord)
    requires k < |codecs| && g.codecChainId == CodecNumber(codecs[k]) + 1
    ensures CodecOk(Some(RegistryFor(codecs)), g)
            <==> MemoryBound(codecs[k], DefaultLevel(codecs[k]), g.uncompressedLen).Success?
  {
    ChainOf(codecs, codecs[k]);
  }

  lemma {:induction false} PackedCodecOk(p: Primitives, scanned: seq<ScannedEntry>, layout: Layout, k: nat)
    requires LayoutOk(scanned, layout) && k < |layout.ends|
    ensures var g := GroupFor(p, scanned, layout, StartFor(layout), k);
      CodecOk(TablesFor(p, scanned, layout).registry, g)
      <==> (layout.codecs.Some? ==>
            MemoryBound(layout.codecs.value[k], DefaultLevel(layout.codecs.value[k]), g.uncompressedLen).Success?)
  {
    match layout.codecs
    case None => RawGroupIsOneFile(p, scanned, layout, k);
    case Some(codecs) => CodecIsRegistered(codecs, k, GroupFor(p, scanned, layout, StartFor(layout), k));
  }

  ghost predicate PayloadIs(p: Primitives, scanned: seq<ScannedEntry>, layout: Layout, payload: SectionRecord)
    requires LayoutOk(scanned, layout)
  {
    payload.offset == StartFor(layout) && payload.length == |Concat(Payloads(p, scanned, layout))|
  }

  lemma {:induction false} PackedGroupOk(p: Primitives, limits: DecodeLimits, scanned: seq<ScannedEntry>,
                                         layout: Layout, payload: SectionRecord, k: nat)
    requires LayoutOk(scanned, layout) && k < |layout.ends| && PayloadIs(p, scanned, layout, payload)
    ensures GroupOk(limits, TablesFor(p, scanned, layout), payload, k) <==> GroupFits(p, limits, scanned, layout, k)
  {
    PackedCodecOk(p, scanned, layout, k);
    PackedPayloadStart(p, scanned, layout, TablesFor(p, scanned, layout).groups, k);
    BlockAt(Payloads(p, scanned, layout), k);
  }

  ghost predicate AllGroupsFit(p: Primitives, limits: DecodeLimits, scanned: seq<ScannedEntry>, layout: Layout)
    requires LayoutOk(scanned, layout)
  {
    forall k | 0 <= k < |layout.ends| :: GroupFits(p, limits, scanned, layout, k)
  }

  lemma {:induction false} PackedPayloadEnd(p: Primitives, scanned: seq<ScannedEntry>, layout: Layout,
                                            payload: SectionRecord)
    requires LayoutOk(scanned, layout) && PayloadIs(p, scanned, layout, payload)
    ensures var groups := TablesFor(p, scanned, layout).groups;
      PayloadStart(groups, payload.offset, |groups|) == payload.offset + payload.length
  {
    PackedPayloadStart(p, scanned, layout, TablesFor(p, scanned, layout).groups, |layout.ends|);
    ConcatLength(Payloads(p, scanned, layout));
  }

  lemma {:induction false} PackedEachGroupOk(p: Primitives, limits: DecodeLimits, scanned: seq<ScannedEntry>,
                                             layout: Layout, payload: SectionRecord, t: Tables)
    requires LayoutOk(scanned, layout) && PayloadIs(p, scanned, layout, payload) && t == TablesFor(p, scanned, layout)
    ensures (forall k | 0 <= k < |t.groups| :: GroupOk(limits, t, payload, k))
            <==> AllGroupsFit(p, limits, scanned, layout)
  {
    if AllGroupsFit(p, limits, scanned, layout) {
      forall k | 0 <= k < |t.groups| ensures GroupOk(limits, t, payload, k) {
        PackedGroupOk(p, limits, scanned, layout, payload, k);
      }
    }
    if forall k | 0 <= k < |t.groups| :: GroupOk(limits, t, payload, k) {
      forall k | 0 <= k < |layout.ends| ensures GroupFits(p, limits, scanned, layout, k) {
        PackedGroupOk(p, limits, scanned, layout, payload, k);
        assert GroupOk(limits, t, payload, k);
      }
    }
  }

  lemma {:induction false} PackedAllSlicesTile(p: Primitives, scanned: seq<ScannedEntry>, layout: Layout, t: Tables)
    requires LayoutOk(scanned, layout) && t == TablesFor(p, scanned, layout)
    ensures forall k | 0 <= k < |t.groups| :: SlicesTile(t, k)
  {
    forall k | 0 <= k < |t.groups| ensures SlicesTile(t, k) {
      PackedSlicesTile(p, scanned, layout, k);
    }
  }

  lemma {:induction false} PackedGroupsOk(p: Primitives, limits: DecodeLimits, scanned: seq<ScannedEntry>,
                                          layout: Layout, payload: SectionRecord, t: Tables)
    requires LayoutOk(scanned, layout) && PayloadIs(p, scanned, layout, payload)
    requires payload.offset + payload.length <= U64_MAX
    requires t == TablesFor(p, scanned, layout)
    ensures GroupsOk(limits, t, payload) <==> AllGroupsFit(p, limits, scanned, layout)
  {
    PackedPayloadEnd(p, scanned, layout, payload);
    PackedEachGroupOk(p, limits, scanned, layout, payload, t);
    PackedAllSlicesTile(p, scanned, layout, t);
  }

  // ----- Acceptance -----

  /** The limits of a reader that decide whether it takes the archive; all are known before the file is written. */
  ghost predicate PackFits(p: Primitives, limits: DecodeLimits, scanned: seq<ScannedEntry>, layout: Layout)
    requires LayoutOk(scanned, layout)
  {
    var t := TablesFor(p, scanned, layout);
    var payload := Concat(Payloads(p, scanned, layout));
    && |PackedFile(p, scanned, layout)| <= U64_MAX
    && SectionCount(t) <= limits.maxSections
    && |layout.ends| <= limits.maxGroups
    && |AllSources(scanned)| <= limits.maxChunks
    && OriginalTotal(scanned, |scanned|) <= limits.maxOriginalBytes
    && MetadataLength(Sections(p, t, payload), HeaderFor(p, t, payload, OriginalTotal(scanned, |scanned|)))
         <= limits.maxMetadataBytes
    && AllGroupsFit(p, limits, scanned, layout)
    && TargetsOk(p, scanned)
  }

  function PackedCatalog(p: Primitives, scanned: seq<ScannedEntry>, layout: Layout): Catalog
    requires LayoutOk(scanned, layout)
  {
    CatalogFor(p, TablesFor(p, scanned, layout), Concat(Payloads(p, scanned, layout)),
               OriginalTotal(scanned, |scanned|))
  }

  lemma {:induction false} PackedPayloadIs(p: Primitives, scanned: seq<ScannedEntry>, layout: Layout)
    requires LayoutOk(scanned, layout)
    ensures PayloadIs(p, scanned, layout, PayloadSection(PackedCatalog(p, scanned, layout).sections))
  {
    PayloadPlace(p, TablesFor(p, scanned, layout), Concat(Payloads(p, scanned, layout)));
  }

  /** The table rules come down to the entry and group limits. */
  lemma {:induction false} PackedTablesOk(p: Primitives, limits: DecodeLimits, scanned: seq<ScannedEntry>,
                                          layout: Layout, payload: SectionRecord)
    requires ScanOk(p, limits, scanned) && LayoutOk(scanned, layout)
    requires PayloadIs(p, scanned, layout, payload) && payload.offset + payload.length <= U64_MAX
    ensures TablesOk(p, limits, TablesFor(p, scanned, layout), payload)
            <==> TargetsOk(p, scanned) && OriginalTotal(scanned, |scanned|) <= limits.maxOriginalBytes
                 && AllGroupsFit(p, limits, scanned, layout)
  {
    PackedEntriesOk(p, limits, scanned, layout);
    PackedRestoresOk(p, limits, scanned, layout);
    PackedGroupsOk(p, limits, scanned, layout, payload, TablesFor(p, scanned, layout));
  }

  lemma {:induction false} PackedPayloadLength(p: Primitives, scanned: seq<ScannedEntry>, layout: Layout)
    requires SoundRecords(p) && LayoutOk(scanned, layout)
    ensures var payload := PayloadSection(PackedCatalog(p, scanned, layout).sections);
      payload.offset + payload.length <= |PackedFile(p, scanned, layout)|
  {
    var t, payload := TablesFor(p, scanned, layout), Concat(Payloads(p, scanned, layout));
    PackedPayloadIs(p, scanned, layout);
    BodyBlockAt(p, t, payload, OriginalTotal(scanned, |scanned|), 0);
  }

  lemma {:induction false} PackedHeaderOk(p: Primitives, limits: DecodeLimits, scanned: seq<ScannedEntry>,
                                          layout: Layout)
    requires SoundRecords(p) && ScanOk(p, limits, scanned) && LayoutOk(scanned, layout)
    ensures var t, c := TablesFor(p, scanned, layout), PackedCatalog(p, scanned, layout);
      && CountsOk(c.header, t)
      && (HeaderOk(limits, c.header, |PackedFile(p, scanned, layout)|)
          <==> SectionCount(t) <= limits.maxSections && |layout.ends| <= limits.maxGroups
               && |AllSources(scanned)| <= limits.maxChunks
               && OriginalTotal(scanned, |scanned|) <= limits.maxOriginalBytes)
  {
    PartLengths(p, TablesFor(p, scanned, layout), Concat(Payloads(p, scanned, layout)),
                OriginalTotal(scanned, |scanned|));
  }

  lemma {:induction false} PackedAssemblyFits(p: Primitives, limits: DecodeLimits, scanned: seq<ScannedEntry>,
                                              layout: Layout)
    requires SoundRecords(p) && ScanOk(p, limits, scanned) && LayoutOk(scanned, layout)
    ensures AssemblyFits(p, limits, TablesFor(p, scanned, layout), Concat(Payloads(p, scanned, layout)),
                         OriginalTotal(scanned, |scanned|))
            <==> PackFits(p, limits, scanned, layout)
  {
    var c := PackedCatalog(p, scanned, layout);
    PackedHeaderOk(p, limits, scanned, layout);
    PackedPayloadIs(p, scanned, layout);
    PackedPayloadLength(p, scanned, layout);
    PackedTotal(p, limits, scanned, layout.ends, c.tables.entries, |scanned|);
    if |PackedFile(p, scanned, layout)| <= U64_MAX {
      PackedTablesOk(p, limits, scanned, layout, PayloadSection(c.sections));
    }
  }

  /**
   The reader accepts a packed archive exactly when the limits fit, and then reads back the tables that were written.
   */
  lemma {:induction false} PackedIsAccepted(p: Primitives, limits: DecodeLimits, scanned: seq<ScannedEntry>,
                                            layout: Layout)
    requires SoundRecords(p) && SoundTables(p) && ScanOk(p, limits, scanned) && LayoutOk(scanned, layout)
    ensures Accepts(p, PackedFile(p, scanned, layout), limits, PackedCatalog(p, scanned, layout))
            <==> PackFits(p, limits, scanned, layout)
  {
    if layout.codecs.Some? {
      PackedRegistryOk(layout.codecs.value);
    }
    PackedAssemblyFits(p, limits, scanned, layout);
    AssembledIsAccepted(p, limits, TablesFor(p, scanned, layout), Concat(Payloads(p, scanned, layout)),
                        OriginalTotal(scanned, |scanned|));
  }
}
