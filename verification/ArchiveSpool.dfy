/** Writing tables and payload to the spool file, and the size checks before it. */
module ArchiveSpool {
  import opened Base
  import opened MergeSort
  import opened ArchiveFormat
  import opened CatalogRules
  import opened SectionRanges
  import opened ArchiveReader
  import opened ArchiveLayout

  /** Length of the first `n` metadata sections. */
  function MetadataSum(metadata: seq<(nat, bytes)>, n: nat): nat
    requires n <= |metadata|
  {
    if n == 0 then 0 else MetadataSum(metadata, n - 1) + |metadata[n - 1].1|
  }

  lemma {:induction false} MetadataSumGrows(metadata: seq<(nat, bytes)>, m: nat, n: nat)
    requires m <= n <= |metadata|
    ensures MetadataSum(metadata, m) <= MetadataSum(metadata, n)
  {
    if m < n {
      MetadataSumGrows(metadata, m, n - 1);
    }
  }

  function LengthOf(s: seq<SectionRecord>, sectionType: nat): nat {
    match SectionOf(s, sectionType)
    case Some(r) => r.length
    case None => 0
  }

  lemma {:induction false} LengthOfMetadata(p: Primitives, t: Tables, payload: bytes, m: nat)
    requires m < |Metadata(p, t)|
    ensures LengthOf(Sections(p, t, payload), Metadata(p, t)[m].0) == |Metadata(p, t)[m].1|
  {
    var i := MetadataOrder(p, t, m);
    SectionsByType(p, t, payload, i);
  }

  /** The lengths the reader adds up: the directory's on top of those the writer adds up. */
  lemma {:induction false} ReaderAddsDirectory(p: Primitives, t: Tables, payload: bytes, h: Header)
    requires h.sectionCount == SectionCount(t)
    ensures MetadataLength(Sections(p, t, payload), h)
            == SectionCount(t) * SECTION_ENTRY_LEN + MetadataSum(Metadata(p, t), |Metadata(p, t)|)
  {
    hide Sections, SectionOf;
    var metadata, s := Metadata(p, t), Sections(p, t, payload);
    forall m | 0 <= m < |metadata| ensures LengthOf(s, metadata[m].0) == |metadata[m].1| {
      LengthOfMetadata(p, t, payload, m);
    }
    if t.registry.None? {
      NoRegistrySection(p, t, payload);
    }
    SumOfLengths(s, h, metadata, t.registry.Some?);
  }

  lemma {:induction false} SumOfLengths(s: seq<SectionRecord>, h: Header, metadata: seq<(nat, bytes)>, compressed: bool)
    requires |metadata| == if compressed then 6 else 5
    requires forall m | 0 <= m < |metadata| :: LengthOf(s, metadata[m].0) == |metadata[m].1|
    requires var n := if compressed then 1 else 0;
      && metadata[n].0 == ENTRY_TABLE && metadata[n + 1].0 == GROUP_TABLE && metadata[n + 2].0 == RESTORE_MAP
      && metadata[n + 3].0 == CENTRAL_INDEX && metadata[n + 4].0 == INTEGRITY_TREE
    requires if compressed then metadata[0].0 == CODEC_REGISTRY else LengthOf(s, CODEC_REGISTRY) == 0
    ensures MetadataLength(s, h) == DirectoryLength(h) + MetadataSum(metadata, |metadata|)
  {
    var n := if compressed then 1 else 0;
    assert MetadataSum(metadata, n + 2) == MetadataSum(metadata, n) + |metadata[n].1| + |metadata[n + 1].1|;
    assert MetadataSum(metadata, n + 4) == MetadataSum(metadata, n + 2) + |metadata[n + 2].1| + |metadata[n + 3].1|;
    assert MetadataSum(metadata, n) == LengthOf(s, CODEC_REGISTRY);
  }

  /** The writer's own metadata check; it leaves the directory out, so it is weaker than the reader's. */
  method CheckMetadata(metadata: seq<(nat, bytes)>, limits: DecodeLimits) returns (r: Result<nat, PithosError>)
    ensures r.Success? <==> MetadataSum(metadata, |metadata|) <= limits.maxMetadataBytes
    ensures r.Success? ==> r.value == MetadataSum(metadata, |metadata|)
  {
    var total := 0;
    for m := 0 to |metadata|
      invariant total == MetadataSum(metadata, m)
    {
      MetadataSumGrows(metadata, m + 1, |metadata|);
      if |metadata[m].1| > limits.maxMetadataBytes {
        return Failure(ResourceLimit("seção de metadados"));
      }
      if total + |metadata[m].1| > U64_MAX {
        return Failure(IntegerOverflow);
      }
      total := total + |metadata[m].1|;
    }
    if total > limits.maxMetadataBytes {
      return Failure(ResourceLimit("aggregate metadata"));
    }
    return Success(total);
  }

  /** How many directory records stand after `m` metadata sections; the payload's comes after the group table's. */
  function RecordsAfter(first: nat, m: nat): nat {
    if m < first + 2 then m else m + 1
  }

  /** The body and the directory records after `m` metadata sections. */
  ghost predicate WrittenUpTo(all: seq<SectionRecord>, blocks: seq<bytes>, first: nat, m: nat, body: bytes,
                              sections: seq<SectionRecord>)
    requires m < |blocks| == |all|
  {
    && body == Concat(blocks[..m + 1])
    && (m == |blocks| - 1 || RecordsAfter(first, m) < |all|)
    && RecordsAfter(first, m) <= |all|
    && sections == all[..RecordsAfter(first, m)]
  }

  lemma {:induction false} WriteOne(all: seq<SectionRecord>, blocks: seq<bytes>, first: nat, m: nat, body: bytes,
                                    sections: seq<SectionRecord>)
    requires m + 1 < |blocks| == |all| && WrittenUpTo(all, blocks, first, m, body, sections) && first + 2 < |all|
    ensures |body| == BlockStart(blocks, m + 1)
    ensures WrittenUpTo(all, blocks, first, m + 1, body + blocks[m + 1],
                        if m == first + 1 then sections + [all[m], all[m + 1]]
                        else sections + [all[RecordsAfter(first, m)]])
  {
    ConcatNext(blocks, m + 1);
    var k := RecordsAfter(first, m);
    if m == first + 1 {
      assert all[..m + 2] == all[..m] + [all[m], all[m + 1]];
    } else {
      assert all[..k + 1] == all[..k] + [all[k]];
    }
  }

  lemma {:induction false} OrderAt(p: Primitives, t: Tables, m: nat, first: nat, order: seq<(nat, nat)>)
    requires m < |Metadata(p, t)| && first == (if t.registry.Some? then 1 else 0) && order == DirectoryOrder(t)
    ensures RecordsAfter(first, m) < |order| == |Metadata(p, t)| + 1
    ensures order[RecordsAfter(first, m)] == (Metadata(p, t)[m].0, m + 1) && order[first + 2] == (PAYLOAD_AREA, 0)
    ensures Metadata(p, t)[m].0 == GROUP_TABLE <==> m == first + 1
  {
  }

  /** The record of metadata section `m` when it is written right after the blocks before it. */
  lemma {:induction false} RecordWritten(p: Primitives, t: Tables, payload: bytes, m: nat, all: seq<SectionRecord>,
                                         blocks: seq<bytes>, first: nat)
    requires m < |Metadata(p, t)| && all == Sections(p, t, payload) && blocks == Body(p, t, payload)
    requires first == if t.registry.Some? then 1 else 0
    ensures RecordsAfter(first, m) < |all| && |all| == |blocks| == |Metadata(p, t)| + 1
    ensures blocks[m + 1] == Metadata(p, t)[m].1
    ensures all[RecordsAfter(first, m)] == SectionFor(p, t, payload, Metadata(p, t)[m].0, m + 1)
    ensures Metadata(p, t)[m].0 == GROUP_TABLE <==> m == first + 1
    ensures all[first + 2] == SectionFor(p, t, payload, PAYLOAD_AREA, 0)
  {
    var order := DirectoryOrder(t);
    OrderAt(p, t, m, first, order);
    assert all[RecordsAfter(first, m)]
           == SectionFor(p, t, payload, order[RecordsAfter(first, m)].0, order[RecordsAfter(first, m)].1);
    assert all[first + 2] == SectionFor(p, t, payload, order[first + 2].0, order[first + 2].1);
  }

  /** The directory record of a section written at the end of `body`. */
  function SectionRecordFor(p: Primitives, t: Tables, sectionType: nat, body: bytes, content: bytes): SectionRecord {
    SectionRecord(sectionType, 1, 0, PayloadOffset(t) + |body|, |content|, p.crc32c(content), 0)
  }

  /** Appends metadata section `m`, and after the group table also pushes the payload's record. */
  method WriteSection(p: Primitives, t: Tables, payload: bytes, m: nat, body: bytes, sections: seq<SectionRecord>,
                      ghost all: seq<SectionRecord>, ghost blocks: seq<bytes>, ghost first: nat)
    returns (body': bytes, sections': seq<SectionRecord>)
    requires m < |Metadata(p, t)| && all == Sections(p, t, payload) && blocks == Body(p, t, payload)
    requires first == (if t.registry.Some? then 1 else 0) && |all| == |blocks| && m < |blocks|
    requires WrittenUpTo(all, blocks, first, m, body, sections)
    ensures m + 1 < |blocks| && WrittenUpTo(all, blocks, first, m + 1, body', sections')
  {
    RecordWritten(p, t, payload, m, all, blocks, first);
    WriteOne(all, blocks, first, m, body, sections);
    var (sectionType, content) := Metadata(p, t)[m];
    RecordFits(p, t, payload, sectionType, m + 1, body, content, blocks);
    RecordFits(p, t, payload, PAYLOAD_AREA, 0, [], payload, blocks);
    sections' := sections + [SectionRecordFor(p, t, sectionType, body, content)];
    if sectionType == GROUP_TABLE {
      TwoPushes(sections, all[m], all[m + 1]);
      sections' := sections' + [SectionRecordFor(p, t, PAYLOAD_AREA, [], payload)];
    }
    body' := body + content;
  }

  lemma {:induction false} TwoPushes(s: seq<SectionRecord>, a: SectionRecord, b: SectionRecord)
    ensures s + [a] + [b] == s + [a, b]
  {
  }

  lemma {:induction false} RecordFits(p: Primitives, t: Tables, payload: bytes, sectionType: nat, k: nat, body: bytes,
                                      content: bytes, blocks: seq<bytes>)
    requires blocks == Body(p, t, payload) && k < SectionCount(t) && |body| == BlockStart(blocks, k)
    requires content == blocks[k]
    ensures SectionRecordFor(p, t, sectionType, body, content) == SectionFor(p, t, payload, sectionType, k)
  {
  }

  /** Payload first, then the metadata sections one after the other, with a directory record for each. */
  method WriteSections(p: Primitives, t: Tables, payload: bytes) returns (body: bytes, sections: seq<SectionRecord>)
    ensures body == Concat(Body(p, t, payload)) && sections == Sections(p, t, payload)
  {
    body, sections := payload, [];
    ghost var all, blocks, first := Sections(p, t, payload), Body(p, t, payload), if t.registry.Some? then 1 else 0;
    FirstBlock(blocks, payload);
    var count := |Metadata(p, t)|;
    assert |blocks| == count + 1;
    for m := 0 to count
      invariant WrittenUpTo(all, blocks, first, m, body, sections)
    {
      body, sections := WriteSection(p, t, payload, m, body, sections, all, blocks, first);
    }
    assert blocks[..count + 1] == blocks && all[..count + 1] == all;
  }

  lemma {:induction false} FirstBlock(blocks: seq<bytes>, payload: bytes)
    requires blocks != [] && blocks[0] == payload
    ensures Concat(blocks[..1]) == payload
  {
    ConcatNext(blocks, 0);
    assert Concat(blocks[..0]) == [];
  }

  // ----- The directory in order of type -----

  function CompareType(a: SectionRecord, b: SectionRecord): Ordering {
    if a.sectionType < b.sectionType then Less else if a.sectionType > b.sectionType then Greater else Equal
  }

  /** The records are pushed in order of type, so sorting them by type leaves them as they are. */
  lemma {:induction false} PushedInOrder(p: Primitives, t: Tables, payload: bytes)
    ensures Sort(CompareType, Sections(p, t, payload)) == Sections(p, t, payload)
  {
    var s, order := Sections(p, t, payload), DirectoryOrder(t);
    OrderIsSorted(order, t);
    AscendingIsSorted(s, order);
    hide Sort;
    SortIsStableSort(CompareType, s);
    SortedIsUnique(CompareType, s, Sort(CompareType, s));
  }

  lemma {:induction false} AscendingIsSorted(s: seq<SectionRecord>, order: seq<(nat, nat)>)
    requires |s| == |order| && forall i | 0 <= i < |s| :: s[i].sectionType == order[i].0
    requires forall i, j | 0 <= i < j < |order| :: order[i].0 < order[j].0
    ensures TotalPreorder(CompareType) && Sorted(CompareType, s)
    ensures forall x, y | x in s && y in s && Equiv(CompareType, x, y) :: x == y
  {
  }

  // ----- Header and footer around them -----

  /** The metadata sections are what follows the payload. */
  lemma {:induction false} AfterPayload(blocks: seq<bytes>)
    requires blocks != []
    ensures blocks[0] <= Concat(blocks) && Concat(blocks)[|blocks[0]|..] == Concat(blocks[1..])
  {
    if |blocks| == 1 {
      assert Concat(blocks[..0]) == [] && Concat(blocks[1..]) == [];
    } else {
      var n := |blocks| - 1;
      AfterPayload(blocks[..n]);
      assert blocks[..n][1..] == blocks[1..][..n - 1] && blocks[1..][n - 1] == blocks[n];
    }
  }

  lemma {:induction false} SpoolIsAssembled(p: Primitives, t: Tables, payload: bytes, originalTotal: nat, hashed: bytes,
                                            footer: Footer)
    requires hashed == HashedPart(p, t, payload, originalTotal) && footer == FooterFor(p, t, payload, originalTotal)
    ensures hashed + p.footerBytes(footer) == Assemble(p, t, payload, originalTotal)
  {
  }

  /**
   The spool file: payload and metadata sections from the place after the directory on, then header and directory before
   them and the footer behind them. Where the footer starts is the position the writing got to.
   */
  method WriteArchive(p: Primitives, t: Tables, payload: bytes, originalTotal: nat) returns (file: bytes)
    ensures file == Assemble(p, t, payload, originalTotal)
  {
    var body, pushed := WriteSections(p, t, payload);
    var sections := SortList(pushed, CompareType);
    PushedInOrder(p, t, payload);
    var footerOffset := PayloadOffset(t) + |body|;
    var directory := DirectoryOf(p, sections);
    var header := MakeHeader(p, t, payload, originalTotal, body, footerOffset);
    var hashed := p.headerBytes(header) + directory + body;
    var footer := Footer(footerOffset + FOOTER_LEN, p.blake3(hashed), p.crc32c(directory), 1);
    SpoolIsAssembled(p, t, payload, originalTotal, hashed, footer);
    file := hashed + p.footerBytes(footer);
  }

  /** The archive's identity is a hash of the metadata sections, which stand behind the payload. */
  method MakeHeader(p: Primitives, t: Tables, payload: bytes, originalTotal: nat, body: bytes, footerOffset: nat)
    returns (header: Header)
    requires body == Concat(Body(p, t, payload)) && footerOffset == PayloadOffset(t) + |body|
    ensures header == HeaderFor(p, t, payload, originalTotal)
  {
    AfterPayload(Body(p, t, payload));
    var digest := p.blake3(body[|payload|..]);
    var archiveId := if |digest| >= 16 then digest[..16] else digest;
    header := Header(0, archiveId, originalTotal, |t.entries|, |t.restores|, |t.groups|, HEADER_LEN, footerOffset,
                     SectionCount(t));
  }

  method DirectoryOf(p: Primitives, sections: seq<SectionRecord>) returns (directory: bytes)
    ensures directory == Concat(RecordBlocks(p, sections))
  {
    directory := [];
    ghost var blocks := RecordBlocks(p, sections);
    for i := 0 to |sections|
      invariant directory == Concat(blocks[..i])
    {
      assert blocks[..i + 1][..i] == blocks[..i];
      directory := directory + p.sectionBytes(sections[i]);
    }
    assert blocks[..|blocks|] == blocks;
  }
}
