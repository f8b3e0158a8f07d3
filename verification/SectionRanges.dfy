/** The section directory of an archive: which sections there are, and that they do not overlap. */
module SectionRanges {
  import opened Base
  import opened MergeSort
  import opened ArchiveFormat

  // ----- Pairwise facts and reordering -----

  /** A half-open byte range. */
  datatype Range = Range(start: nat, end: nat)

  predicate Disjoint(a: Range, b: Range) {
    a.end <= b.start || b.end <= a.start
  }

  ghost predicate PairwiseDisjoint(s: seq<Range>) {
    forall i, j | 0 <= i < j < |s| :: Disjoint(s[i], s[j])
  }

  lemma {:induction false} DisjointnessIsOrderFree(s: seq<Range>, t: seq<Range>)
    requires multiset(s) == multiset(t) && PairwiseDisjoint(s)
    ensures PairwiseDisjoint(t)
  {
    forall i, j | 0 <= i < j < |t| ensures Disjoint(t[i], t[j]) {
      var x, y := t[i], t[j];
      assert x in multiset(t) && y in multiset(t);
      TwoCopies(s, x);
      if x == y {
        TwoCopies(t, x);
        var k, l :| 0 <= k < l < |s| && s[k] == x && s[l] == x;
      } else {
        assert x in s && y in s;
      }
    }
  }

  function CompareRange(a: Range, b: Range): Ordering {
    if a.start < b.start then Less else if a.start > b.start then Greater
    else if a.end < b.end then Less else if a.end > b.end then Greater else Equal
  }

  lemma {:induction false} CompareRangeIsTotal()
    ensures TotalPreorder(CompareRange)
  {
  }

  predicate NextClear(s: seq<Range>, k: nat)
    requires k + 1 < |s|
  {
    s[k].end <= s[k + 1].start
  }

  lemma {:induction false} ClearFrom(s: seq<Range>, i: nat, j: nat)
    requires i < j < |s| && Sorted(CompareRange, s) && (forall k | 0 <= k < |s| :: s[k].start <= s[k].end)
    requires forall k | 0 <= k < |s| - 1 :: NextClear(s, k)
    ensures s[i].end <= s[j].start
  {
    assert NextClear(s, j - 1);
    if i < j - 1 {
      ClearFrom(s, i, j - 1);
    }
  }

  /** In a sorted list it is enough to compare neighbours. */
  lemma {:induction false} NeighboursSuffice(s: seq<Range>)
    requires Sorted(CompareRange, s) && (forall k | 0 <= k < |s| :: s[k].start <= s[k].end)
    ensures PairwiseDisjoint(s) <==> forall k | 0 <= k < |s| - 1 :: NextClear(s, k)
  {
    if forall k | 0 <= k < |s| - 1 :: NextClear(s, k) {
      forall i, j | 0 <= i < j < |s| ensures Disjoint(s[i], s[j]) {
        ClearFrom(s, i, j);
      }
    }
    if PairwiseDisjoint(s) {
      forall k | 0 <= k < |s| - 1 ensures NextClear(s, k) {
        assert Disjoint(s[k], s[k + 1]) && Leq(CompareRange, s[k], s[k + 1]);
      }
    }
  }

  // ----- validate_section_ranges -----

  function RangeOf(r: SectionRecord): Range {
    Range(r.offset, r.offset + r.length)
  }

  function RangesOf(records: seq<SectionRecord>): (s: seq<Range>)
    ensures |s| == |records| && forall i | 0 <= i < |s| :: s[i] == RangeOf(records[i])
  {
    seq(|records|, i requires 0 <= i < |records| => RangeOf(records[i]))
  }

  predicate Inside(r: SectionRecord, directoryEnd: nat, footerOffset: nat) {
    directoryEnd <= r.offset && r.offset + r.length <= footerOffset
  }

  /** Every section lies between the directory and the footer, and no two overlap. */
  ghost predicate RangesOk(records: seq<SectionRecord>, directoryEnd: nat, footerOffset: nat) {
    && (forall i | 0 <= i < |records| :: Inside(records[i], directoryEnd, footerOffset))
    && PairwiseDisjoint(RangesOf(records))
  }

  method ValidateSectionRanges(records: seq<SectionRecord>, directoryEnd: nat, footerOffset: nat)
    returns (r: Result<(), PithosError>)
    requires footerOffset <= U64_MAX
    ensures r.Success? <==> RangesOk(records, directoryEnd, footerOffset)
  {
    var ranges: seq<Range> := [];
    for i := 0 to |records|
      invariant |ranges| == i
      invariant forall k | 0 <= k < i ::
                  ranges[k] == RangeOf(records[k]) && Inside(records[k], directoryEnd, footerOffset)
    {
      if records[i].offset + records[i].length > U64_MAX {
        assert !Inside(records[i], directoryEnd, footerOffset);
        return Failure(IntegerOverflow);
      }
      if records[i].offset < directoryEnd || records[i].offset + records[i].length > footerOffset {
        assert !Inside(records[i], directoryEnd, footerOffset);
        return Failure(InvalidRange);
      }
      ranges := ranges + [RangeOf(records[i])];
    }
    assert ranges == RangesOf(records);
    var sorted := SortList(ranges, CompareRange);
    SortedRanges(ranges, sorted);
    var k := 0;
    while k + 1 < |sorted|
      invariant 0 <= k
      invariant forall i | 0 <= i < k && i + 1 < |sorted| :: NextClear(sorted, i)
    {
      if sorted[k + 1].start < sorted[k].end {
        assert !NextClear(sorted, k);
        return Failure(OverlappingSections);
      }
      k := k + 1;
    }
    return Success(());
  }

  lemma {:induction false} SortedRanges(ranges: seq<Range>, sorted: seq<Range>)
    requires sorted == Sort(CompareRange, ranges) && forall k | 0 <= k < |ranges| :: ranges[k].start <= ranges[k].end
    ensures PairwiseDisjoint(ranges) <==> forall k | 0 <= k < |sorted| - 1 :: NextClear(sorted, k)
  {
    CompareRangeIsTotal();
    SortIsStableSort(CompareRange, ranges);
    forall k | 0 <= k < |sorted| ensures sorted[k].start <= sorted[k].end {
      assert sorted[k] in multiset(sorted);
      assert sorted[k] in ranges;
    }
    NeighboursSuffice(sorted);
    if PairwiseDisjoint(ranges) {
      DisjointnessIsOrderFree(ranges, sorted);
    }
    if PairwiseDisjoint(sorted) {
      DisjointnessIsOrderFree(sorted, ranges);
    }
  }

  // ----- The directory -----

  /** Record `i` of the directory bytes. */
  function DirectoryRecord(p: Primitives, directory: bytes, i: nat): SectionRecord
    requires (i + 1) * SECTION_ENTRY_LEN <= |directory|
  {
    p.readSection(directory[i * SECTION_ENTRY_LEN..(i + 1) * SECTION_ENTRY_LEN])
  }

  function DirectoryRecords(p: Primitives, directory: bytes, count: nat): (records: seq<SectionRecord>)
    requires |directory| == count * SECTION_ENTRY_LEN
    ensures |records| == count
  {
    seq(count, i requires 0 <= i < count => DirectoryRecord(p, directory, i))
  }

  predicate KnownSection(sectionType: nat) {
    sectionType in [CODEC_REGISTRY, ENTRY_TABLE, GROUP_TABLE, PAYLOAD_AREA, RESTORE_MAP, CENTRAL_INDEX, INTEGRITY_TREE]
  }

  predicate SectionOk(r: SectionRecord) {
    r.sectionVersion == 1 && r.flags == 0 && r.reserved == 0 && KnownSection(r.sectionType)
  }

  /** The section of a type: the first with that type. */
  function SectionOf(records: seq<SectionRecord>, sectionType: nat): Option<SectionRecord> {
    if records == [] then None
    else if records[0].sectionType == sectionType then Some(records[0])
    else SectionOf(records[1..], sectionType)
  }

  const RAW_SECTION_TYPES: seq<nat> :=
    [ENTRY_TABLE, GROUP_TABLE, PAYLOAD_AREA, RESTORE_MAP, CENTRAL_INDEX, INTEGRITY_TREE]

  ghost predicate DistinctTypes(records: seq<SectionRecord>) {
    forall i, j | 0 <= i < j < |records| :: records[i].sectionType != records[j].sectionType
  }

  ghost predicate DirectoryOk(records: seq<SectionRecord>) {
    && (forall i | 0 <= i < |records| :: SectionOk(records[i]))
    && DistinctTypes(records)
    && forall k | 0 <= k < |RAW_SECTION_TYPES| :: SectionOf(records, RAW_SECTION_TYPES[k]).Some?
  }

  lemma {:induction false} SectionOfMember(records: seq<SectionRecord>, sectionType: nat)
    ensures SectionOf(records, sectionType).None?
            <==> forall i | 0 <= i < |records| :: records[i].sectionType != sectionType
    ensures SectionOf(records, sectionType).Some? ==> SectionOf(records, sectionType).value in records
                                                      && SectionOf(records, sectionType).value.sectionType
                                                           == sectionType
  {
    if records != [] && records[0].sectionType != sectionType {
      SectionOfMember(records[1..], sectionType);
      forall i | 0 <= i < |records| && SectionOf(records, sectionType).None?
        ensures records[i].sectionType != sectionType {
        if i > 0 {
          assert records[i] == records[1..][i - 1];
        }
      }
    }
  }

  /** The directory a file may have: its records, kept in a map by type to refuse a repeated section. */
  method ReadDirectory(p: Primitives, directory: bytes, count: nat) returns (r: Result<seq<SectionRecord>, PithosError>)
    requires |directory| == count * SECTION_ENTRY_LEN
    ensures r.Success? <==> DirectoryOk(DirectoryRecords(p, directory, count))
    ensures r.Success? ==> r.value == DirectoryRecords(p, directory, count)
  {
    hide DirectoryRecord, SectionOf, KnownSection;
    ghost var all := DirectoryRecords(p, directory, count);
    var records: seq<SectionRecord> := [];
    var sections: map<nat, SectionRecord> := map[];
    for i := 0 to count
      invariant records == all[..i]
      invariant forall k | 0 <= k < i :: SectionOk(all[k]) && all[k].sectionType in sections
      invariant forall s | s in sections :: exists k :: 0 <= k < i && all[k].sectionType == s
      invariant DistinctTypes(all[..i])
    {
      var record := DirectoryRecord(p, directory, i);
      assert record == all[i];
      if record.sectionVersion != 1 || record.flags != 0 || record.reserved != 0 {
        assert !SectionOk(all[i]);
        return Failure(InvalidMetadata("section flags/version"));
      }
      if !KnownSection(record.sectionType) {
        assert !SectionOk(all[i]);
        return Failure(UnsupportedContainerVersion);
      }
      if record.sectionType in sections {
        return Failure(DuplicateSection);
      }
      sections := sections[record.sectionType := record];
      records := records + [record];
    }
    assert all[..count] == all;
    for k := 0 to |RAW_SECTION_TYPES|
      invariant forall m | 0 <= m < k :: SectionOf(all, RAW_SECTION_TYPES[m]).Some?
    {
      SectionOfMember(all, RAW_SECTION_TYPES[k]);
      if RAW_SECTION_TYPES[k] !in sections {
        return Failure(MissingSection(RAW_SECTION_TYPES[k]));
      }
    }
    return Success(records);
  }
}
