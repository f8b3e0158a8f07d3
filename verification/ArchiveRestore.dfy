/** Verifying and unpacking a packed archive: every byte comes back. */
module ArchiveRestore {
  import opened Base
  import opened GreedyPartition
  import opened ArchiveFormat
  import opened CodecRegistry
  import opened CatalogRules
  import opened ArchiveReader
  import opened ArchiveContents
  import opened ArchiveLayout
  import opened PackedTables
  import opened ArchiveRoundTrip

  // ----- Group payloads -----

  lemma {:induction false} NestedBlock(file: bytes, start: nat, blocks: seq<bytes>, k: nat)
    requires start + |Concat(blocks)| <= |file| && Slice(file, start, |Concat(blocks)|) == Concat(blocks)
    requires k < |blocks|
    ensures start + BlockStart(blocks, k) + |blocks[k]| <= |file|
    ensures Slice(file, start + BlockStart(blocks, k), |blocks[k]|) == blocks[k]
  {
    BlockAt(blocks, k);
    SliceOfSlice(file, start, |Concat(blocks)|, BlockStart(blocks, k), |blocks[k]|);
  }

  lemma {:induction false} PackedStart(p: Primitives, scanned: seq<ScannedEntry>, layout: Layout)
    requires LayoutOk(scanned, layout)
    ensures PayloadOffset(TablesFor(p, scanned, layout)) == StartFor(layout)
  {
  }

  lemma {:induction false} HeldAt(p: Primitives, t: Tables, payload: bytes, total: nat, file: bytes, start: nat)
    requires SoundRecords(p) && file == Assemble(p, t, payload, total) && start == PayloadOffset(t)
    ensures start + |payload| <= |file| && Slice(file, start, |payload|) == payload
  {
    PayloadHeld(p, t, payload, total, file);
  }

  lemma {:induction false} PackedPayloadHeld(p: Primitives, scanned: seq<ScannedEntry>, layout: Layout, file: bytes,
                                             payload: bytes)
    requires SoundRecords(p) && LayoutOk(scanned, layout)
    requires file == PackedFile(p, scanned, layout) && payload == Concat(Payloads(p, scanned, layout))
    ensures StartFor(layout) + |payload| <= |file| && Slice(file, StartFor(layout), |payload|) == payload
  {
    PackedStart(p, scanned, layout);
    HeldAt(p, TablesFor(p, scanned, layout), payload, OriginalTotal(scanned, |scanned|), file, StartFor(layout));
  }

  lemma {:induction false} GroupFields(p: Primitives, scanned: seq<ScannedEntry>, layout: Layout, k: nat,
                                       g: GroupRecord, payloads: seq<bytes>)
    requires LayoutOk(scanned, layout) && k < |layout.ends|
    requires g == GroupFor(p, scanned, layout, StartFor(layout), k) && payloads == Payloads(p, scanned, layout)
    ensures g.payloadOffset == StartFor(layout) + BlockStart(payloads, k)
    ensures g.compressedLen == |payloads[k]| && g.payloadCrc32c == p.crc32c(payloads[k])
  {
  }

  /** A group whose payload sits among consecutive blocks decodes to what its codec makes of that block. */
  lemma {:induction false} DecodeOfBlock(p: Primitives, file: bytes, limits: DecodeLimits,
                                         registry: Option<seq<RegistryRecord>>, g: GroupRecord, start: nat,
                                         blocks: seq<bytes>, k: nat, codec: CodecId)
    requires start + |Concat(blocks)| <= |file| && Slice(file, start, |Concat(blocks)|) == Concat(blocks)
    requires k < |blocks|
    requires g.payloadOffset == start + BlockStart(blocks, k) && g.compressedLen == |blocks[k]|
    requires g.payloadCrc32c == p.crc32c(blocks[k])
    requires SizesOk(limits, g) && GroupCodec(registry, g) == Success(codec)
    ensures DecodeGroup(p, file, limits, registry, g) == p.decode(codec, blocks[k], g.uncompressedLen)
  {
    NestedBlock(file, start, blocks, k);
  }

  lemma {:induction false} PackedCodec(p: Primitives, scanned: seq<ScannedEntry>, layout: Layout, k: nat)
    requires LayoutOk(scanned, layout) && k < |layout.ends|
    ensures GroupCodec(TablesFor(p, scanned, layout).registry, GroupFor(p, scanned, layout, StartFor(layout), k))
            == Success(match layout.codecs { case None => Store case Some(codecs) => codecs[k] })
  {
    hide Payloads, EntriesFor, GroupsFor, RestoresFor, IndexFor, IntegrityFor, BlockStart, SumRange, Lengths;
    if layout.codecs.Some? {
      ChainOf(layout.codecs.value, layout.codecs.value[k]);
    }
  }

  lemma {:induction false} PayloadDecodes(p: Primitives, scanned: seq<ScannedEntry>, layout: Layout, k: nat)
    requires SoundCodecs(p) && LayoutOk(scanned, layout) && k < |layout.ends|
    ensures var codec := match layout.codecs { case None => Store case Some(codecs) => codecs[k] };
      PartAt(layout.ends, |AllSources(scanned)|, k) &&
      p.decode(codec, Payloads(p, scanned, layout)[k],
               GroupFor(p, scanned, layout, StartFor(layout), k).uncompressedLen)
      == Success(GroupInput(scanned, layout, k))
  {
    assert PartAt(layout.ends, |AllSources(scanned)|, k);
    var input := GroupInput(scanned, layout, k);
    JoinedLength(scanned, Start(layout.ends, k), layout.ends[k]);
    assert p.encode(Store, input) == input;
  }

  /** Decoding group `k` of the packed file yields the contents of its files, joined. */
  lemma {:induction false} PackedGroupDecodes(p: Primitives, limits: DecodeLimits, scanned: seq<ScannedEntry>,
                                              layout: Layout, k: nat)
    requires SoundCodecs(p) && SoundRecords(p) && LayoutOk(scanned, layout) && k < |layout.ends|
    requires GroupFits(p, limits, scanned, layout, k)
    ensures PartAt(layout.ends, |AllSources(scanned)|, k)
    ensures DecodeGroup(p, PackedFile(p, scanned, layout), limits, TablesFor(p, scanned, layout).registry,
                        GroupFor(p, scanned, layout, StartFor(layout), k)) == Success(GroupInput(scanned, layout, k))
  {
    var payloads, g := Payloads(p, scanned, layout), GroupFor(p, scanned, layout, StartFor(layout), k);
    var codec := match layout.codecs { case None => Store case Some(codecs) => codecs[k] };
    GroupFields(p, scanned, layout, k, g, payloads);
    PackedPayloadHeld(p, scanned, layout, PackedFile(p, scanned, layout), Concat(payloads));
    PackedCodec(p, scanned, layout, k);
    PayloadDecodes(p, scanned, layout, k);
    DecodeOfBlock(p, PackedFile(p, scanned, layout), limits, TablesFor(p, scanned, layout).registry, g,
                  StartFor(layout), payloads, k, codec);
  }

  /** The slice of source `s` in a joined range is its content. */
  lemma {:induction false} JoinedSlice(scanned: seq<ScannedEntry>, i: nat, s: nat, j: nat)
    requires i <= s < j <= |AllSources(scanned)|
    ensures var joined, offset := Joined(Contents(scanned), i, j), SumRange(Lengths(scanned), i, s);
      offset + Lengths(scanned)[s] <= |joined| && Slice(joined, offset, Lengths(scanned)[s]) == Contents(scanned)[s]
  {
    JoinedLength(scanned, i, j - 1);
    if s < j - 1 {
      JoinedSlice(scanned, i, s, j - 1);
      PrefixSlice(Joined(Contents(scanned), i, j - 1), Contents(scanned)[j - 1], SumRange(Lengths(scanned), i, s),
                  Lengths(scanned)[s]);
    }
  }

  lemma {:induction false} SliceRestores(decoded: bytes, r: RestoreMapRecord, content: bytes)
    requires r.groupOffset + r.length <= |decoded| <= U64_MAX && Slice(decoded, r.groupOffset, r.length) == content
    ensures RestoredSlice(decoded, r, 0, r.length) == Success(content)
  {
    assert r.groupOffset + 0 == r.groupOffset;
  }

  lemma {:induction false} PartOfSource(scanned: seq<ScannedEntry>, layout: Layout, s: nat) returns (k: nat)
    requires LayoutOk(scanned, layout) && s < |AllSources(scanned)|
    ensures k == PartOf(layout.ends, s) && k < |layout.ends| && PartAt(layout.ends, |AllSources(scanned)|, k)
    ensures Start(layout.ends, k) <= s < layout.ends[k]
  {
    k := PartOf(layout.ends, s);
    PartFromHolds(layout.ends, |AllSources(scanned)|, s, 0);
    assert PartAt(layout.ends, |AllSources(scanned)|, k);
  }

  lemma {:induction false} InputLength(p: Primitives, limits: DecodeLimits, scanned: seq<ScannedEntry>, layout: Layout,
                                       k: nat)
    requires LayoutOk(scanned, layout) && AllGroupsFit(p, limits, scanned, layout) && k < |layout.ends|
    ensures PartAt(layout.ends, |AllSources(scanned)|, k) && |GroupInput(scanned, layout, k)| <= U64_MAX
  {
    assert PartAt(layout.ends, |AllSources(scanned)|, k);
    assert GroupFits(p, limits, scanned, layout, k);
    JoinedLength(scanned, Start(layout.ends, k), layout.ends[k]);
  }

  /** Restoring source `s` from its decoded group yields its content. */
  lemma {:induction false} PackedSliceIsContent(p: Primitives, limits: DecodeLimits, scanned: seq<ScannedEntry>,
                                                layout: Layout, s: nat) returns (k: nat)
    requires LayoutOk(scanned, layout) && s < |AllSources(scanned)| && AllGroupsFit(p, limits, scanned, layout)
    ensures k == PartOf(layout.ends, s) && k < |layout.ends| && PartAt(layout.ends, |AllSources(scanned)|, k)
    ensures var r := RestoreFor(scanned, layout.ends, s);
      RestoredSlice(GroupInput(scanned, layout, k), r, 0, r.length) == Success(Contents(scanned)[s])
  {
    k := PartOfSource(scanned, layout, s);
    InputLength(p, limits, scanned, layout, k);
    JoinedSlice(scanned, Start(layout.ends, k), s, layout.ends[k]);
    SliceRestores(GroupInput(scanned, layout, k), RestoreFor(scanned, layout.ends, s), Contents(scanned)[s]);
  }

  // ----- Verification -----

  lemma {:induction false} PackedGroupVerified(p: Primitives, limits: DecodeLimits, scanned: seq<ScannedEntry>,
                                               layout: Layout, t: Tables, k: nat)
    requires SoundCodecs(p) && SoundRecords(p) && ScanOk(p, limits, scanned) && LayoutOk(scanned, layout)
    requires k < |layout.ends|
    requires AllGroupsFit(p, limits, scanned, layout) && t == TablesFor(p, scanned, layout)
    ensures GroupVerified(p, PackedFile(p, scanned, layout), limits, t, k)
  {
    assert GroupFits(p, limits, scanned, layout, k);
    PackedGroupDecodes(p, limits, scanned, layout, k);
    var decoded := GroupInput(scanned, layout, k);
    forall j | 0 <= j < |t.restores| ensures SliceVerified(p, t, decoded, k, j) {
      PackedSliceVerified(p, limits, scanned, layout, t, k, j);
    }
  }

  lemma {:induction false} PackedSliceVerified(p: Primitives, limits: DecodeLimits, scanned: seq<ScannedEntry>,
                                               layout: Layout, t: Tables, k: nat, j: nat)
    requires ScanOk(p, limits, scanned) && LayoutOk(scanned, layout) && k < |layout.ends|
    requires PartAt(layout.ends, |AllSources(scanned)|, k)
    requires AllGroupsFit(p, limits, scanned, layout) && t == TablesFor(p, scanned, layout) && j < |t.restores|
    ensures SliceVerified(p, t, GroupInput(scanned, layout, k), k, j)
  {
    if PartOf(layout.ends, j) == k {
      var part := PackedSliceIsContent(p, limits, scanned, layout, j);
    }
  }

  lemma {:induction false} PackedRoot(p: Primitives, scanned: seq<ScannedEntry>, layout: Layout, c: Catalog)
    requires SoundRecords(p) && LayoutOk(scanned, layout) && c == PackedCatalog(p, scanned, layout)
    ensures c.header.footerOffset <= |PackedFile(p, scanned, layout)|
    ensures p.blake3(PackedFile(p, scanned, layout)[..c.header.footerOffset]) == c.footer.blake3Root
  {
    var t, payload, total := TablesFor(p, scanned, layout), Concat(Payloads(p, scanned, layout)),
        OriginalTotal(scanned, |scanned|);
    PartLengths(p, t, payload, total);
    assert PackedFile(p, scanned, layout)[..FooterOffset(p, t, payload)] == HashedPart(p, t, payload, total);
  }

  lemma {:induction false} PayloadRecord(p: Primitives, t: Tables, payload: bytes)
    ensures SectionFor(p, t, payload, PAYLOAD_AREA, 0)
            == SectionRecord(PAYLOAD_AREA, 1, 0, PayloadOffset(t), |payload|, p.crc32c(payload), 0)
  {
  }

  lemma {:induction false} PackedPayloadCrc(p: Primitives, scanned: seq<ScannedEntry>, layout: Layout, s: SectionRecord)
    requires SoundRecords(p) && LayoutOk(scanned, layout)
    requires s == PayloadSection(PackedCatalog(p, scanned, layout).sections)
    ensures s.offset + s.length <= |PackedFile(p, scanned, layout)|
    ensures p.crc32c(Slice(PackedFile(p, scanned, layout), s.offset, s.length)) == s.crc32c
  {
    hide TablesFor, Payloads, Assemble, Concat, SectionFor;
    var t, payload := TablesFor(p, scanned, layout), Concat(Payloads(p, scanned, layout));
    PayloadPlace(p, t, payload);
    PayloadRecord(p, t, payload);
    PackedStart(p, scanned, layout);
    PackedPayloadHeld(p, scanned, layout, PackedFile(p, scanned, layout), payload);
  }

  lemma {:induction false} PackedDigestsOk(p: Primitives, scanned: seq<ScannedEntry>, layout: Layout)
    requires SoundRecords(p) && LayoutOk(scanned, layout)
    ensures PackedCatalog(p, scanned, layout).header.footerOffset <= |PackedFile(p, scanned, layout)|
    ensures DigestsOk(p, PackedFile(p, scanned, layout), PackedCatalog(p, scanned, layout))
  {
    var c := PackedCatalog(p, scanned, layout);
    PackedRoot(p, scanned, layout, c);
    PackedPayloadCrc(p, scanned, layout, PayloadSection(c.sections));
  }

  lemma {:induction false} PackedCountsFit(p: Primitives, limits: DecodeLimits, scanned: seq<ScannedEntry>,
                                           layout: Layout)
    requires ScanOk(p, limits, scanned) && LayoutOk(scanned, layout) && OriginalTotal(scanned, |scanned|) <= U64_MAX
    ensures CountsFit(TablesFor(p, scanned, layout), OriginalTotal(scanned, |scanned|))
  {
    NoMorePartsThanItems(layout.ends, |AllSources(scanned)|);
  }

  /**
   Full verification of a packed archive succeeds exactly when the limits fit; only its own catalog can be read from it.
   */
  lemma {:induction false} PackedVerifies(p: Primitives, limits: DecodeLimits, scanned: seq<ScannedEntry>,
                                          layout: Layout)
    requires SoundCodecs(p) && SoundRecords(p) && SoundTables(p) && ScanOk(p, limits, scanned)
    requires LayoutOk(scanned, layout)
    requires OriginalTotal(scanned, |scanned|) <= U64_MAX
    ensures Verified(p, PackedFile(p, scanned, layout), limits, PackedCatalog(p, scanned, layout))
            <==> PackFits(p, limits, scanned, layout)
    ensures forall c | Verified(p, PackedFile(p, scanned, layout), limits, c) :: c == PackedCatalog(p, scanned, layout)
  {
    PackedIsAccepted(p, limits, scanned, layout);
    var file, t := PackedFile(p, scanned, layout), TablesFor(p, scanned, layout);
    if PackFits(p, limits, scanned, layout) {
      PackedDigestsOk(p, scanned, layout);
      forall g | 0 <= g < |t.groups| ensures GroupVerified(p, file, limits, t, g) {
        PackedGroupVerified(p, limits, scanned, layout, t, g);
      }
    }
    forall c | Verified(p, file, limits, c) ensures c == PackedCatalog(p, scanned, layout) {
      PackedOnlyCatalog(p, limits, scanned, layout, c);
    }
  }

  lemma {:induction false} PackedOnlyCatalog(p: Primitives, limits: DecodeLimits, scanned: seq<ScannedEntry>,
                                             layout: Layout, c: Catalog)
    requires SoundRecords(p) && SoundTables(p) && ScanOk(p, limits, scanned) && LayoutOk(scanned, layout)
    requires OriginalTotal(scanned, |scanned|) <= U64_MAX && Accepts(p, PackedFile(p, scanned, layout), limits, c)
    ensures c == PackedCatalog(p, scanned, layout)
  {
    PackedCountsFit(p, limits, scanned, layout);
    if layout.codecs.Some? {
      PackedRegistryOk(layout.codecs.value);
    }
    AssembledCatalogIsOnly(p, limits, TablesFor(p, scanned, layout), Concat(Payloads(p, scanned, layout)),
                           OriginalTotal(scanned, |scanned|), c);
  }

  /** Reading entry `i` once its group, its restore record, the decoded group and the content are known. */
  lemma {:induction false} EntryBytesAre(p: Primitives, file: bytes, limits: DecodeLimits, t: Tables, i: nat,
                                         g: GroupRecord, r: RestoreMapRecord, decoded: bytes, content: bytes)
    requires i < |t.entries| && Located(t, i) == Success((g, r)) && t.entries[i].blake3 == p.blake3(content)
    requires DecodeGroup(p, file, limits, t.registry, g) == Success(decoded)
    requires RestoredSlice(decoded, r, 0, r.length) == Success(content)
    ensures EntryBytes(p, file, limits, t, i) == Success(content)
  {
  }

  lemma {:induction false} LocatedFrom(t: Tables, i: nat, source: nat, j: nat)
    requires i < |t.entries| && source < |t.entries| && FileSourceEntry(t.entries, i) == Success(source)
    requires t.entries[source].kind.File? && t.entries[source].entryId == source
    requires t.entries[source].kind.groupId < |t.groups|
    requires j < |t.restores| && RestoreForEntry(t.restores, source) == Some(j)
    ensures Located(t, i) == Success((t.groups[t.entries[source].kind.groupId], t.restores[j]))
  {
  }

  lemma {:induction false} PackedSource(p: Primitives, scanned: seq<ScannedEntry>, ends: seq<nat>,
                                        entries: seq<EntryRecord>, i: nat)
    requires i < |scanned| && scanned[i].kind.ScannedFile? && entries == EntriesFor(p, scanned, ends)
    ensures var leader := Leader(scanned, i);
      && IsSource(scanned, leader) && FileSourceEntry(entries, i) == Success(leader)
      && entries[leader].kind == File(PartOf(ends, SourceIndex(scanned, leader))) && entries[leader].entryId == leader
  {
    LeaderIsSource(scanned, i);
  }

  lemma {:induction false} PackedLocated(p: Primitives, limits: DecodeLimits, scanned: seq<ScannedEntry>,
                                         layout: Layout, t: Tables, i: nat) returns (s: nat)
    requires ScanOk(p, limits, scanned) && LayoutOk(scanned, layout) && t == TablesFor(p, scanned, layout)
    requires i < |scanned| && scanned[i].kind.ScannedFile?
    ensures s < |AllSources(scanned)| && PartOf(layout.ends, s) < |layout.ends|
    ensures AllSources(scanned)[s] == Leader(scanned, i)
    ensures Located(t, i) == Success((GroupFor(p, scanned, layout, StartFor(layout), PartOf(layout.ends, s)),
                                      RestoreFor(scanned, layout.ends, s)))
  {
    var leader := Leader(scanned, i);
    PackedSource(p, scanned, layout.ends, t.entries, i);
    SourceHasGroup(scanned, layout, leader);
    PackedRestoresOk(p, limits, scanned, layout);
    s := RestoreOf(t, leader);
    IndexOfSource(scanned, |scanned|, s);
    LocatedFrom(t, i, leader, s);
  }

  lemma {:induction false} EntryHash(p: Primitives, limits: DecodeLimits, scanned: seq<ScannedEntry>, layout: Layout,
                                     i: nat)
    requires ScanOk(p, limits, scanned) && LayoutOk(scanned, layout) && i < |scanned| && scanned[i].kind.ScannedFile?
    ensures i < |TablesFor(p, scanned, layout).entries|
    ensures TablesFor(p, scanned, layout).entries[i].blake3 == p.blake3(Content(scanned, i))
  {
    SameContentAsLeader(p, limits, scanned, i);
  }

  lemma {:induction false} ThisGroupFits(p: Primitives, limits: DecodeLimits, scanned: seq<ScannedEntry>,
                                         layout: Layout, k: nat)
    requires LayoutOk(scanned, layout) && AllGroupsFit(p, limits, scanned, layout) && k < |layout.ends|
    ensures GroupFits(p, limits, scanned, layout, k)
  {
  }

  /** Reading a file or hardlink of a packed archive yields the scanned content. */
  lemma {:induction false} PackedEntryBytes(p: Primitives, limits: DecodeLimits, scanned: seq<ScannedEntry>,
                                            layout: Layout, i: nat)
    requires SoundCodecs(p) && SoundRecords(p) && ScanOk(p, limits, scanned) && LayoutOk(scanned, layout)
    requires AllGroupsFit(p, limits, scanned, layout) && i < |scanned| && scanned[i].kind.ScannedFile?
    ensures EntryBytes(p, PackedFile(p, scanned, layout), limits, TablesFor(p, scanned, layout), i)
            == Success(Content(scanned, i))
  {
    var t, file := TablesFor(p, scanned, layout), PackedFile(p, scanned, layout);
    hide *;
    EntryHash(p, limits, scanned, layout, i);
    SameContentAsLeader(p, limits, scanned, i);
    var s := PackedLocated(p, limits, scanned, layout, t, i);
    var k := PackedSliceIsContent(p, limits, scanned, layout, s);
    ThisGroupFits(p, limits, scanned, layout, k);
    PackedGroupDecodes(p, limits, scanned, layout, k);
    EntryBytesAre(p, file, limits, t, i, GroupFor(p, scanned, layout, StartFor(layout), k),
                  RestoreFor(scanned, layout.ends, s),
                  GroupInput(scanned, layout, k), Content(scanned, i));
  }
}
