/** One pack of small files: front-coded paths, timestamp deltas, the mode dictionary, and how they are decoded. */
module MicroPack {
  import opened Base
  import opened MergeSort
  import opened Orderings
  import opened GreedyPartition

  type i64 = x: int | -0x8000_0000_0000_0000 <= x < 0x8000_0000_0000_0000

  datatype MicroFileInput = MicroFileInput(entryId: u64, path: bytes, size: u64, modifiedNs: i64, mode: u32,
                                           fileHash: bytes, familyKey: u64, pathPrefixKey: bytes, extensionKey: bytes,
                                           similarityKey: u64, requiresIsolatedAccess: bool)

  datatype FrontCodedPath = FrontCodedPath(sharedPrefixLen: u32, suffix: bytes)

  datatype MetadataRecord = MetadataRecord(entryId: u64, modeIndex: u32, contentOffset: u64, length: u32,
                                           fileHash: bytes)

  datatype PackMetadata = PackMetadata(paths: seq<FrontCodedPath>, baseModifiedNs: i64, modifiedNsDeltas: seq<u64>,
                                       modeDictionary: seq<u32>, records: seq<MetadataRecord>)

  datatype PackMember = PackMember(entryId: u64, contentOffset: u64, length: u32)

  datatype MicroFilePack = MicroFilePack(packId: u64, members: seq<PackMember>, uncompressedLen: u64,
                                         metadata: PackMetadata)

  // ----- Front coding -----

  function CommonPrefix(a: bytes, b: bytes): (n: nat)
    ensures n <= |a| && n <= |b| && a[..n] == b[..n]
    ensures n < |a| && n < |b| ==> a[n] != b[n]
  {
    if a == [] || b == [] || a[0] != b[0] then 0
    else
      var n := 1 + CommonPrefix(a[1..], b[1..]);
      assert a[..n] == [a[0]] + a[1..][..n - 1] && b[..n] == [b[0]] + b[1..][..n - 1];
      n
  }

  method CommonPrefixLen(left: bytes, right: bytes) returns (length: nat)
    ensures length == CommonPrefix(left, right)
  {
    length := 0;
    while length < |left| && length < |right|
      invariant length <= |left| && length <= |right|
      invariant length + CommonPrefix(left[length..], right[length..]) == CommonPrefix(left, right)
    {
      if left[length] != right[length] {
        return;
      }
      assert left[length..][1..] == left[length + 1..] && right[length..][1..] == right[length + 1..];
      length := length + 1;
    }
  }

  /** Path `i` of a front-coded list, decoded from the start of the list. */
  function Decoded(paths: seq<FrontCodedPath>, i: nat): Option<bytes>
    requires i < |paths|
  {
    var previous := if i == 0 then Some([]) else Decoded(paths, i - 1);
    match previous
    case None => None
    case Some(p) => if paths[i].sharedPrefixLen <= |p| then Some(p[..paths[i].sharedPrefixLen] + paths[i].suffix)
      else None
  }

  /** The path before `path[i]`, empty at the start. */
  function PathBefore(paths: seq<bytes>, i: nat): bytes
    requires i <= |paths|
  {
    if i == 0 then [] else paths[i - 1]
  }

  /** The coded form of path `i` shares the longest prefix with the path before. */
  predicate CodedAt(paths: seq<bytes>, coded: seq<FrontCodedPath>, i: nat)
    requires i < |paths| && i < |coded|
  {
    var n := CommonPrefix(PathBefore(paths, i), paths[i]);
    n <= U32_MAX && coded[i] == FrontCodedPath(n, paths[i][n..])
  }

  lemma {:induction false} DecodeUndoesCode(paths: seq<bytes>, coded: seq<FrontCodedPath>, i: nat)
    requires i < |paths| == |coded| && forall k | 0 <= k <= i :: CodedAt(paths, coded, k)
    ensures Decoded(coded, i) == Some(paths[i])
  {
    if i > 0 {
      DecodeUndoesCode(paths, coded, i - 1);
    }
    assert CodedAt(paths, coded, i);
    var before, n := PathBefore(paths, i), CommonPrefix(PathBefore(paths, i), paths[i]);
    assert before[..n] + paths[i][n..] == paths[i];
  }

  // ----- The mode dictionary -----

  ghost predicate StrictlyIncreasing(s: seq<u32>) {
    forall i, j | 0 <= i < j < |s| :: s[i] < s[j]
  }

  ghost predicate SortedNumbers(s: seq<u32>) {
    forall i, j | 0 <= i < j < |s| :: s[i] <= s[j]
  }

  /** The distinct values of a sorted list, in order. */
  function Distinct(s: seq<u32>): seq<u32> {
    if s == [] then []
    else if |s| > 1 && s[|s| - 1] == s[|s| - 2] then Distinct(s[..|s| - 1])
    else Distinct(s[..|s| - 1]) + [s[|s| - 1]]
  }

  lemma {:induction false} DistinctIsSet(s: seq<u32>)
    requires SortedNumbers(s)
    ensures StrictlyIncreasing(Distinct(s)) && |Distinct(s)| <= |s|
    ensures forall x :: x in Distinct(s) <==> x in s
    ensures s != [] ==> Distinct(s) != [] && Distinct(s)[|Distinct(s)| - 1] == s[|s| - 1]
  {
    if s != [] {
      var n := |s| - 1;
      var front, last := s[..n], s[n];
      DistinctIsSet(front);
      assert forall x :: x in s <==> x in front || x == last;
      if n > 0 && last == s[n - 1] {
        assert front[n - 1] == last;
      } else {
        Extends(Distinct(front), last);
      }
    }
  }

  lemma {:induction false} Extends(s: seq<u32>, last: u32)
    requires StrictlyIncreasing(s) && (s == [] || s[|s| - 1] < last)
    ensures StrictlyIncreasing(s + [last]) && forall x :: x in s + [last] <==> x in s || x == last
  {
  }

  /** In-place removal of repeated neighbours, with a write index behind the read index. */
  method DedupSorted(items: array<u32>) returns (kept: nat)
    requires SortedNumbers(items[..])
    modifies items
    ensures kept <= items.Length && items[..kept] == Distinct(old(items[..]))
  {
    if items.Length < 2 {
      ghost var s := items[..];
      assert |s| == 1 ==> s[..0] == [] && s == [s[0]];
      return items.Length;
    }
    ghost var all := items[..];
    FirstDistinct(all);
    var write := 1;
    for read := 1 to items.Length
      invariant 0 < write <= read
      invariant items[..write] == Distinct(all[..read]) && items[read..] == all[read..]
      invariant items[write - 1] == all[read - 1]
    {
      NextDistinct(all, read);
      ghost var rest, front := items[read..], items[..write];
      var value := items[read];
      assert value == rest[0] == all[read] && items[read + 1..] == rest[1..];
      if value != items[write - 1] {
        items[write] := value;
        assert items[..write + 1] == front + [value];
        write := write + 1;
      }
    }
    assert all[..items.Length] == all;
    return write;
  }

  lemma {:induction false} FirstDistinct(s: seq<u32>)
    requires s != []
    ensures Distinct(s[..1]) == [s[0]]
  {
    assert s[..1] == [s[0]] && s[..1][..0] == [];
  }

  lemma {:induction false} NextDistinct(s: seq<u32>, n: nat)
    requires 0 < n < |s|
    ensures Distinct(s[..n + 1]) == if s[n] == s[n - 1] then Distinct(s[..n]) else Distinct(s[..n]) + [s[n]]
  {
    assert s[..n + 1][..n] == s[..n];
  }

  function CompareU32(a: u32, b: u32): Ordering {
    CompareNat(a, b)
  }

  lemma {:induction false} U32IsTotal()
    ensures TotalPreorder(CompareU32)
  {
  }

  lemma {:induction false} SortedByNumber(s: seq<u32>)
    ensures SortedNumbers(Sort(CompareU32, s)) && forall x :: x in Sort(CompareU32, s) <==> x in s
  {
    U32IsTotal();
    SortIsStableSort(CompareU32, s);
    var sorted := Sort(CompareU32, s);
    forall i, j | 0 <= i < j < |sorted| ensures sorted[i] <= sorted[j] {
      assert Leq(CompareU32, sorted[i], sorted[j]);
    }
    forall x ensures x in sorted <==> x in s {
      assert x in sorted <==> x in multiset(sorted);
    }
  }

  function Modes(inputs: seq<MicroFileInput>): (s: seq<u32>)
    ensures |s| == |inputs| && forall i | 0 <= i < |s| :: s[i] == inputs[i].mode
  {
    seq(|inputs|, i requires 0 <= i < |inputs| => inputs[i].mode)
  }

  /** The sorted distinct modes of the inputs. */
  function Dictionary(inputs: seq<MicroFileInput>): seq<u32> {
    Distinct(Sort(CompareU32, Modes(inputs)))
  }

  lemma {:induction false} DictionaryHolds(inputs: seq<MicroFileInput>)
    ensures StrictlyIncreasing(Dictionary(inputs)) && |Dictionary(inputs)| <= |inputs|
    ensures forall i | 0 <= i < |inputs| :: inputs[i].mode in Dictionary(inputs)
  {
    var modes := Modes(inputs);
    SortedByNumber(modes);
    DistinctIsSet(Sort(CompareU32, modes));
    forall i | 0 <= i < |inputs| ensures inputs[i].mode in Dictionary(inputs) {
      assert modes[i] in modes;
    }
  }

  method BuildDictionary(inputs: seq<MicroFileInput>) returns (dictionary: seq<u32>)
    ensures dictionary == Dictionary(inputs)
  {
    var modes := Modes(inputs);
    SortedByNumber(modes);
    var sorted := SortList(modes, CompareU32);
    var items := new u32[|sorted|](i requires 0 <= i < |sorted| => sorted[i]);
    assert items[..] == sorted;
    var kept := DedupSorted(items);
    dictionary := items[..kept];
  }

  /** An index into a dictionary of 32-bit values is itself such a value. */
  lemma {:induction false} IndexFits(dictionary: seq<u32>, i: nat)
    requires StrictlyIncreasing(dictionary) && i < |dictionary|
    ensures i <= dictionary[i]
  {
    if i > 0 {
      IndexFits(dictionary, i - 1);
    }
  }

  /** Binary search in a strictly increasing dictionary. */
  method BinarySearch(dictionary: seq<u32>, mode: u32) returns (r: Option<nat>)
    requires StrictlyIncreasing(dictionary)
    ensures r.Some? ==> r.value < |dictionary| && dictionary[r.value] == mode
    ensures r.None? ==> mode !in dictionary
  {
    var low, high := 0, |dictionary|;
    while low < high
      invariant 0 <= low <= high <= |dictionary|
      invariant forall i | 0 <= i < low :: dictionary[i] < mode
      invariant forall i | high <= i < |dictionary| :: mode < dictionary[i]
    {
      var middle := low + (high - low) / 2;
      if dictionary[middle] == mode {
        return Some(middle);
      } else if dictionary[middle] < mode {
        low := middle + 1;
      } else {
        high := middle;
      }
    }
    return None;
  }

  // ----- Building a pack -----

  function Sizes(inputs: seq<MicroFileInput>): (s: seq<nat>)
    ensures |s| == |inputs| && forall i | 0 <= i < |s| :: s[i] == inputs[i].size
  {
    seq(|inputs|, i requires 0 <= i < |inputs| => inputs[i].size)
  }

  function Paths(inputs: seq<MicroFileInput>): (s: seq<bytes>)
    ensures |s| == |inputs| && forall i | 0 <= i < |s| :: s[i] == inputs[i].path
  {
    seq(|inputs|, i requires 0 <= i < |inputs| => inputs[i].path)
  }

  /** The earliest of the first `n` timestamps. */
  function Earliest(inputs: seq<MicroFileInput>, n: nat): (m: i64)
    requires 0 < n <= |inputs|
    ensures forall i | 0 <= i < n :: m <= inputs[i].modifiedNs
    ensures exists i | 0 <= i < n :: m == inputs[i].modifiedNs
  {
    if n == 1 then inputs[0].modifiedNs
    else
      var m := Earliest(inputs, n - 1);
      if inputs[n - 1].modifiedNs < m then inputs[n - 1].modifiedNs else m
  }

  predicate PrefixFits(inputs: seq<MicroFileInput>, i: nat)
    requires i < |inputs|
  {
    CommonPrefix(PathBefore(Paths(inputs), i), inputs[i].path) <= U32_MAX
  }

  predicate SizeFits(inputs: seq<MicroFileInput>, i: nat)
    requires i < |inputs|
  {
    inputs[i].size <= U32_MAX
  }

  /** The inputs a pack can be built from. */
  ghost predicate Packable(inputs: seq<MicroFileInput>) {
    && inputs != []
    && (forall i | 0 <= i < |inputs| :: SizeFits(inputs, i) && PrefixFits(inputs, i))
    && SumRange(Sizes(inputs), 0, |inputs|) <= U64_MAX
  }

  predicate SameColumns(pack: MicroFilePack, n: nat) {
    |pack.members| == |pack.metadata.paths| == |pack.metadata.modifiedNsDeltas| == |pack.metadata.records| == n
  }

  /** Row `i` of the pack describes input `i`. */
  predicate RowHolds(inputs: seq<MicroFileInput>, pack: MicroFilePack, i: nat)
    requires i < |inputs| && SameColumns(pack, |inputs|)
  {
    var input, m, r, offset := inputs[i], pack.members[i], pack.metadata.records[i], SumRange(Sizes(inputs), 0, i);
    && CodedAt(Paths(inputs), pack.metadata.paths, i)
    && pack.metadata.baseModifiedNs + pack.metadata.modifiedNsDeltas[i] == input.modifiedNs
    && r.modeIndex < |pack.metadata.modeDictionary| && pack.metadata.modeDictionary[r.modeIndex] == input.mode
    && m.entryId == r.entryId == input.entryId
    && m.contentOffset == r.contentOffset == offset
    && m.length == r.length == input.size
    && r.fileHash == input.fileHash
  }

  /** The pack of some inputs: every column, the base timestamp, the dictionary and the length. */
  ghost predicate PackHolds(inputs: seq<MicroFileInput>, packId: nat, pack: MicroFilePack) {
    && inputs != []
    && SameColumns(pack, |inputs|)
    && pack.packId == packId
    && pack.uncompressedLen == SumRange(Sizes(inputs), 0, |inputs|)
    && pack.metadata.baseModifiedNs == Earliest(inputs, |inputs|)
    && pack.metadata.modeDictionary == Dictionary(inputs)
    && forall i | 0 <= i < |inputs| :: RowHolds(inputs, pack, i)
  }

  /** Decoding a pack returns each path, each timestamp over the whole 64-bit range, and each mode. */
  lemma {:induction false} PackDecodes(inputs: seq<MicroFileInput>, packId: nat, pack: MicroFilePack, i: nat)
    requires PackHolds(inputs, packId, pack) && i < |inputs|
    ensures Decoded(pack.metadata.paths, i) == Some(inputs[i].path)
    ensures pack.metadata.baseModifiedNs + pack.metadata.modifiedNsDeltas[i] == inputs[i].modifiedNs
    ensures var r := pack.metadata.records[i];
      r.modeIndex < |pack.metadata.modeDictionary| && pack.metadata.modeDictionary[r.modeIndex] == inputs[i].mode
  {
    forall k | 0 <= k <= i ensures CodedAt(Paths(inputs), pack.metadata.paths, k) {
      assert RowHolds(inputs, pack, k);
    }
    DecodeUndoesCode(Paths(inputs), pack.metadata.paths, i);
    assert RowHolds(inputs, pack, i);
  }

  lemma {:induction false} PackIsUnique(inputs: seq<MicroFileInput>, packId: nat, a: MicroFilePack, b: MicroFilePack)
    requires PackHolds(inputs, packId, a) && PackHolds(inputs, packId, b)
    ensures a == b
  {
    DictionaryHolds(inputs);
    forall i | 0 <= i < |inputs|
      ensures a.members[i] == b.members[i] && a.metadata.records[i] == b.metadata.records[i]
      ensures a.metadata.paths[i] == b.metadata.paths[i]
      ensures a.metadata.modifiedNsDeltas[i] == b.metadata.modifiedNsDeltas[i]
    {
      assert RowHolds(inputs, a, i) && RowHolds(inputs, b, i);
    }
    assert a.members == b.members && a.metadata.records == b.metadata.records;
    assert a.metadata.paths == b.metadata.paths && a.metadata.modifiedNsDeltas == b.metadata.modifiedNsDeltas;
  }

  /** The columns built so far. */
  datatype Columns = Columns(members: seq<PackMember>, paths: seq<FrontCodedPath>, deltas: seq<u64>,
                             records: seq<MetadataRecord>)

  predicate ColumnsAt(inputs: seq<MicroFileInput>, base: i64, dictionary: seq<u32>, c: Columns, i: nat)
    requires i < |inputs| && i < |c.members| == |c.paths| == |c.deltas| == |c.records|
  {
    var input, offset := inputs[i], SumRange(Sizes(inputs), 0, i);
    && CodedAt(Paths(inputs), c.paths, i)
    && base + c.deltas[i] == input.modifiedNs
    && c.records[i].modeIndex < |dictionary| && dictionary[c.records[i].modeIndex] == input.mode
    && c.members[i].entryId == c.records[i].entryId == input.entryId
    && c.members[i].contentOffset == c.records[i].contentOffset == offset
    && c.members[i].length == c.records[i].length == input.size
    && c.records[i].fileHash == input.fileHash
  }

  ghost predicate ColumnsOk(inputs: seq<MicroFileInput>, base: i64, dictionary: seq<u32>, c: Columns, n: nat)
    requires n <= |inputs|
  {
    && |c.members| == |c.paths| == |c.deltas| == |c.records| == n
    && forall i | 0 <= i < n :: ColumnsAt(inputs, base, dictionary, c, i)
  }

  lemma {:induction false} ColumnsGrow(inputs: seq<MicroFileInput>, base: i64, dictionary: seq<u32>, c: Columns, n: nat,
                                       c': Columns)
    requires n < |inputs| && ColumnsOk(inputs, base, dictionary, c, n)
    requires |c'.members| == |c'.paths| == |c'.deltas| == |c'.records| == n + 1
    requires c'.members[..n] == c.members && c'.paths[..n] == c.paths && c'.deltas[..n] == c.deltas
    requires c'.records[..n] == c.records
    requires ColumnsAt(inputs, base, dictionary, c', n)
    ensures ColumnsOk(inputs, base, dictionary, c', n + 1)
  {
    forall i | 0 <= i < n ensures ColumnsAt(inputs, base, dictionary, c', i) {
      assert ColumnsAt(inputs, base, dictionary, c, i);
      assert CodedAt(Paths(inputs), c.paths, i) && c'.paths[i] == c'.paths[..n][i];
      assert c'.members[i] == c'.members[..n][i] && c'.deltas[i] == c'.deltas[..n][i]
             && c'.records[i] == c'.records[..n][i];
    }
  }

  method BuildRow(inputs: seq<MicroFileInput>, base: i64, dictionary: seq<u32>, c: Columns, n: nat, contentOffset: nat)
    returns (r: Result<Columns, PithosError>)
    requires n < |inputs| && ColumnsOk(inputs, base, dictionary, c, n) && base <= inputs[n].modifiedNs
    requires StrictlyIncreasing(dictionary) && inputs[n].mode in dictionary
    requires contentOffset == SumRange(Sizes(inputs), 0, n) <= U64_MAX
    ensures r.Success? <==> SizeFits(inputs, n) && PrefixFits(inputs, n)
    ensures r.Success? ==> ColumnsOk(inputs, base, dictionary, r.value, n + 1)
    ensures r.Failure? ==> r.error == IntegerOverflow
  {
    var input := inputs[n];
    if input.size > U32_MAX {
      return Failure(IntegerOverflow);
    }
    var shared := CommonPrefixLen(if n == 0 then [] else inputs[n - 1].path, input.path);
    if shared > U32_MAX {
      return Failure(IntegerOverflow);
    }
    var found := BinarySearch(dictionary, input.mode);
    IndexFits(dictionary, found.value);
    var next := Columns(c.members + [PackMember(input.entryId, contentOffset, input.size)],
                        c.paths + [FrontCodedPath(shared, input.path[shared..])],
                        c.deltas + [input.modifiedNs - base],
                        c.records + [MetadataRecord(input.entryId, found.value, contentOffset, input.size,
                                                    input.fileHash)]);
    ColumnsGrow(inputs, base, dictionary, c, n, next);
    return Success(next);
  }

  method EarliestModified(inputs: seq<MicroFileInput>) returns (base: i64)
    requires inputs != []
    ensures base == Earliest(inputs, |inputs|)
  {
    base := inputs[0].modifiedNs;
    for i := 1 to |inputs|
      invariant base == Earliest(inputs, i)
    {
      if inputs[i].modifiedNs < base {
        base := inputs[i].modifiedNs;
      }
    }
  }

  method BuildPack(packId: u64, inputs: seq<MicroFileInput>) returns (r: Result<MicroFilePack, PithosError>)
    ensures r.Success? <==> Packable(inputs)
    ensures r.Success? ==> PackHolds(inputs, packId, r.value)
    ensures inputs != [] && r.Failure? ==> r.error == IntegerOverflow
  {
    if inputs == [] {
      return Failure(InvalidMetadata("empty microfile pack"));
    }
    var base := EarliestModified(inputs);
    var dictionary := BuildDictionary(inputs);
    DictionaryHolds(inputs);
    var columns := BuildColumns(inputs, base, dictionary);
    if columns.Failure? {
      return Failure(columns.error);
    }
    var (c, contentOffset) := columns.value;
    var pack := MicroFilePack(packId, c.members, contentOffset,
                              PackMetadata(c.paths, base, c.deltas, dictionary, c.records));
    ColumnsMakePack(inputs, packId, c, pack);
    return Success(pack);
  }

  /** Row `n` and the offset after it. */
  method BuildNext(inputs: seq<MicroFileInput>, base: i64, dictionary: seq<u32>, c: Columns, n: nat, contentOffset: nat)
    returns (r: Result<(Columns, u64), PithosError>)
    requires n < |inputs| && ColumnsOk(inputs, base, dictionary, c, n) && base <= inputs[n].modifiedNs
    requires StrictlyIncreasing(dictionary) && inputs[n].mode in dictionary
    requires contentOffset == SumRange(Sizes(inputs), 0, n) <= U64_MAX
    ensures r.Success? ==>
              ColumnsOk(inputs, base, dictionary, r.value.0, n + 1) && r.value.1 == SumRange(Sizes(inputs), 0, n + 1)
                           && SizeFits(inputs, n) && PrefixFits(inputs, n)
    ensures r.Failure? ==> !Packable(inputs) && r.error == IntegerOverflow
  {
    var row := BuildRow(inputs, base, dictionary, c, n, contentOffset);
    if row.Failure? {
      return Failure(row.error);
    }
    if contentOffset + inputs[n].size > U64_MAX {
      SumWithin(Sizes(inputs), 0, 0, n + 1, |inputs|);
      return Failure(IntegerOverflow);
    }
    return Success((row.value, contentOffset + inputs[n].size));
  }

  method BuildColumns(inputs: seq<MicroFileInput>, base: i64, dictionary: seq<u32>)
    returns (r: Result<(Columns, u64), PithosError>)
    requires inputs != [] && StrictlyIncreasing(dictionary)
    requires forall i | 0 <= i < |inputs| :: base <= inputs[i].modifiedNs && inputs[i].mode in dictionary
    ensures r.Success? <==> Packable(inputs)
    ensures r.Success? ==>
              ColumnsOk(inputs, base, dictionary, r.value.0, |inputs|)
              && r.value.1 == SumRange(Sizes(inputs), 0, |inputs|)
    ensures r.Failure? ==> r.error == IntegerOverflow
  {
    var c, contentOffset := Columns([], [], [], []), 0;
    for n := 0 to |inputs|
      invariant ColumnsOk(inputs, base, dictionary, c, n)
      invariant contentOffset == SumRange(Sizes(inputs), 0, n) <= U64_MAX
      invariant forall i | 0 <= i < n :: SizeFits(inputs, i) && PrefixFits(inputs, i)
    {
      var next := BuildNext(inputs, base, dictionary, c, n, contentOffset);
      if next.Failure? {
        return Failure(next.error);
      }
      c, contentOffset := next.value.0, next.value.1;
    }
    return Success((c, contentOffset));
  }

  lemma {:induction false} ColumnsMakePack(inputs: seq<MicroFileInput>, packId: nat, c: Columns, pack: MicroFilePack)
    requires inputs != [] && ColumnsOk(inputs, pack.metadata.baseModifiedNs, pack.metadata.modeDictionary, c, |inputs|)
    requires pack.packId == packId && pack.uncompressedLen == SumRange(Sizes(inputs), 0, |inputs|)
    requires pack.metadata.baseModifiedNs == Earliest(inputs, |inputs|)
    requires pack.metadata.modeDictionary == Dictionary(inputs)
    requires pack.members == c.members && pack.metadata.paths == c.paths && pack.metadata.modifiedNsDeltas == c.deltas
    requires pack.metadata.records == c.records
    ensures PackHolds(inputs, packId, pack)
  {
    forall i | 0 <= i < |inputs| ensures RowHolds(inputs, pack, i) {
      assert ColumnsAt(inputs, pack.metadata.baseModifiedNs, pack.metadata.modeDictionary, c, i);
    }
  }
}
