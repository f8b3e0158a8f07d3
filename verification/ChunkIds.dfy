/** Final chunk ids: the drafts of all workers sorted by position and numbered from zero. */
module ChunkIds {
  import opened Base
  import opened Chunks
  import opened MergeSort
  import opened Orderings

  datatype LogicalChunk = LogicalChunk(chunkId: nat, draft: LogicalChunkDraft)

  /** The entry, the object in it and the offset in that. */
  function ComparePosition(a: LogicalChunkDraft, b: LogicalChunkDraft): Ordering {
    Then(CompareNat(a.entryId, b.entryId),
         Then(CompareNat(a.objectId, b.objectId), CompareNat(a.logicalOffset, b.logicalOffset)))
  }

  predicate SamePosition(a: LogicalChunkDraft, b: LogicalChunkDraft) {
    a.entryId == b.entryId && a.objectId == b.objectId && a.logicalOffset == b.logicalOffset
  }

  lemma {:induction false} PositionIsTotal()
    ensures TotalPreorder(ComparePosition)
    ensures forall a, b :: Equiv(ComparePosition, a, b) <==> SamePosition(a, b)
  {
  }

  // ----- What is assigned -----

  ghost predicate DistinctPositions(drafts: seq<LogicalChunkDraft>) {
    forall i, j | 0 <= i < j < |drafts| :: !SamePosition(drafts[i], drafts[j])
  }

  /** Only microfiles may be empty, and a chunk ends within 64 bits. */
  predicate Usable(draft: LogicalChunkDraft) {
    (draft.length > 0 || draft.producer == MicroFile) && EndOf(draft) <= U64_MAX
  }

  function Numbered(sorted: seq<LogicalChunkDraft>): (chunks: seq<LogicalChunk>)
    ensures |chunks| == |sorted| && forall i | 0 <= i < |chunks| :: chunks[i] == LogicalChunk(i, sorted[i])
  {
    seq(|sorted|, i requires 0 <= i < |sorted| => LogicalChunk(i, sorted[i]))
  }

  /** The error for the first unusable draft in order of position. */
  function FirstError(sorted: seq<LogicalChunkDraft>): Option<PithosError> {
    if sorted == [] then None
    else if sorted[0].length == 0 && sorted[0].producer != MicroFile then Some(InvalidMetadata("zero-length chunk"))
    else if EndOf(sorted[0]) > U64_MAX then Some(IntegerOverflow)
    else FirstError(sorted[1..])
  }

  lemma {:induction false} NoErrorWhenUsable(sorted: seq<LogicalChunkDraft>)
    ensures FirstError(sorted) == None <==> forall i | 0 <= i < |sorted| :: Usable(sorted[i])
  {
    if sorted != [] {
      NoErrorWhenUsable(sorted[1..]);
      assert sorted == [sorted[0]] + sorted[1..];
    }
  }

  /** The outcome for the sorted drafts: their numbering or the error. */
  ghost function Outcome(sorted: seq<LogicalChunkDraft>, maxChunks: nat): Result<seq<LogicalChunk>, PithosError> {
    if maxChunks == 0 then Failure(InvalidMetadata("chunk count limit"))
    else if |sorted| > maxChunks then Failure(ResourceLimit("chunk count"))
    else if !DistinctPositions(sorted) then Failure(InvalidMetadata("duplicate chunk position"))
    else if FirstError(sorted).Some? then Failure(FirstError(sorted).value)
    else Success(Numbered(sorted))
  }

  // ----- Sorting finds repeated positions -----

  predicate Apart(sorted: seq<LogicalChunkDraft>, k: nat)
    requires 0 < k < |sorted|
  {
    !SamePosition(sorted[k - 1], sorted[k])
  }

  lemma {:induction false} ApartFromAll(sorted: seq<LogicalChunkDraft>, i: nat, j: nat)
    requires Sorted(ComparePosition, sorted) && i < j < |sorted| && Apart(sorted, j)
    ensures !SamePosition(sorted[i], sorted[j])
  {
    assert Leq(ComparePosition, sorted[j - 1], sorted[j]);
    assert i < j - 1 ==> Leq(ComparePosition, sorted[i], sorted[j - 1]);
  }

  method CheckPositions(sorted: seq<LogicalChunkDraft>) returns (distinct: bool)
    requires Sorted(ComparePosition, sorted)
    ensures distinct <==> DistinctPositions(sorted)
  {
    var k := 1;
    while k < |sorted|
      invariant 1 <= k && (|sorted| > 0 ==> k <= |sorted|)
      invariant forall i, j | 0 <= i < j < k && j < |sorted| :: !SamePosition(sorted[i], sorted[j])
    {
      if SamePosition(sorted[k - 1], sorted[k]) {
        return false;
      }
      forall i | 0 <= i < k ensures !SamePosition(sorted[i], sorted[k]) {
        ApartFromAll(sorted, i, k);
      }
      k := k + 1;
    }
    return true;
  }

  method NumberSorted(sorted: seq<LogicalChunkDraft>) returns (r: Result<seq<LogicalChunk>, PithosError>)
    ensures r == if FirstError(sorted).Some? then Failure(FirstError(sorted).value) else Success(Numbered(sorted))
  {
    var chunks: seq<LogicalChunk> := [];
    for i := 0 to |sorted|
      invariant chunks == Numbered(sorted[..i]) && FirstError(sorted) == FirstError(sorted[i..])
    {
      assert sorted[i..][0] == sorted[i] && sorted[i..][1..] == sorted[i + 1..];
      if sorted[i].length == 0 && sorted[i].producer != MicroFile {
        return Failure(InvalidMetadata("zero-length chunk"));
      }
      if EndOf(sorted[i]) > U64_MAX {
        return Failure(IntegerOverflow);
      }
      chunks := chunks + [LogicalChunk(i, sorted[i])];
    }
    assert sorted[..|sorted|] == sorted;
    return Success(chunks);
  }

  method AssignChunkIds(drafts: seq<LogicalChunkDraft>, maxChunks: nat)
    returns (r: Result<seq<LogicalChunk>, PithosError>)
    ensures r == Outcome(Sort(ComparePosition, drafts), maxChunks)
  {
    if maxChunks == 0 {
      return Failure(InvalidMetadata("chunk count limit"));
    }
    if |drafts| > maxChunks {
      return Failure(ResourceLimit("chunk count"));
    }
    PositionIsTotal();
    SortIsStableSort(ComparePosition, drafts);
    var sorted := SortList(drafts, ComparePosition);
    var distinct := CheckPositions(sorted);
    if !distinct {
      return Failure(InvalidMetadata("duplicate chunk position"));
    }
    r := NumberSorted(sorted);
  }

  // ----- What the assignment promises -----

  lemma {:induction false} DistinctIsOrderFree(s: seq<LogicalChunkDraft>, t: seq<LogicalChunkDraft>)
    requires multiset(s) == multiset(t) && DistinctPositions(s)
    ensures DistinctPositions(t)
  {
    forall i, j | 0 <= i < j < |t| ensures !SamePosition(t[i], t[j]) {
      assert t[i] in multiset(t) && t[j] in multiset(t) && t[i] in s && t[j] in s;
      if t[i] == t[j] {
        TwoCopies(t, t[i]);
        TwoCopies(s, t[i]);
      }
    }
  }

  lemma {:induction false} UsableIsOrderFree(s: seq<LogicalChunkDraft>, t: seq<LogicalChunkDraft>)
    requires multiset(s) == multiset(t) && forall i | 0 <= i < |s| :: Usable(s[i])
    ensures forall i | 0 <= i < |t| :: Usable(t[i])
  {
    forall i | 0 <= i < |t| ensures Usable(t[i]) {
      assert t[i] in multiset(t) && t[i] in s;
    }
  }

  ghost predicate Assignable(drafts: seq<LogicalChunkDraft>, maxChunks: nat) {
    && 0 < maxChunks && |drafts| <= maxChunks && DistinctPositions(drafts)
    && forall i | 0 <= i < |drafts| :: Usable(drafts[i])
  }

  /** Ids are assigned exactly when positions are distinct, every draft is usable and the limit is kept. */
  lemma {:induction false} AssignedExactly(drafts: seq<LogicalChunkDraft>, maxChunks: nat)
    ensures Outcome(Sort(ComparePosition, drafts), maxChunks).Success? <==> Assignable(drafts, maxChunks)
  {
    var sorted := Sort(ComparePosition, drafts);
    PositionIsTotal();
    SortIsStableSort(ComparePosition, drafts);
    NoErrorWhenUsable(sorted);
    if DistinctPositions(drafts) {
      DistinctIsOrderFree(drafts, sorted);
    }
    if DistinctPositions(sorted) {
      DistinctIsOrderFree(sorted, drafts);
    }
    if forall i | 0 <= i < |drafts| :: Usable(drafts[i]) {
      UsableIsOrderFree(drafts, sorted);
    }
    if forall i | 0 <= i < |sorted| :: Usable(sorted[i]) {
      UsableIsOrderFree(sorted, drafts);
    }
  }

  /** Whatever order the workers deliver in, the ids are the same, and so is the error. */
  lemma {:induction false} AssignmentIsOrderIndependent(a: seq<LogicalChunkDraft>, b: seq<LogicalChunkDraft>,
                                                        maxChunks: nat)
    requires multiset(a) == multiset(b)
    ensures Outcome(Sort(ComparePosition, a), maxChunks) == Outcome(Sort(ComparePosition, b), maxChunks)
  {
    assert |a| == |multiset(a)| == |multiset(b)| == |b|;
    PositionIsTotal();
    SortIsStableSort(ComparePosition, a);
    SortIsStableSort(ComparePosition, b);
    if DistinctPositions(a) {
      forall p, q | p in a && q in a && Equiv(ComparePosition, p, q) ensures p == q {
        var i :| 0 <= i < |a| && a[i] == p;
        var j :| 0 <= j < |a| && a[j] == q;
        assert i < j ==> !SamePosition(a[i], a[j]);
        assert j < i ==> !SamePosition(a[j], a[i]);
      }
      SortIsOrderIndependent(ComparePosition, a, b);
    } else {
      if DistinctPositions(Sort(ComparePosition, a)) {
        DistinctIsOrderFree(Sort(ComparePosition, a), a);
      }
      if DistinctPositions(Sort(ComparePosition, b)) {
        DistinctIsOrderFree(Sort(ComparePosition, b), a);
      }
    }
  }

  /** Ids count up from zero in strict order of position, and every draft has exactly one. */
  lemma {:induction false} IdsFollowPositions(drafts: seq<LogicalChunkDraft>, maxChunks: nat, i: nat, j: nat)
    requires Outcome(Sort(ComparePosition, drafts), maxChunks).Success?
    requires i < j < |drafts|
    ensures var chunks := Outcome(Sort(ComparePosition, drafts), maxChunks).value;
            |chunks| == |drafts| && chunks[i].chunkId == i && chunks[j].chunkId == j
            && ComparePosition(chunks[i].draft, chunks[j].draft) == Less
            && multiset(Sort(ComparePosition, drafts)) == multiset(drafts)
            && chunks == Numbered(Sort(ComparePosition, drafts))
  {
    var sorted := Sort(ComparePosition, drafts);
    PositionIsTotal();
    SortIsStableSort(ComparePosition, drafts);
    assert Leq(ComparePosition, sorted[i], sorted[j]) && !SamePosition(sorted[i], sorted[j]);
  }

  // ----- Drafts of covered objects -----

  /** The chunks of one object, as some worker produced them. */
  datatype Covered = Covered(origin: ChunkOrigin, size: nat, chunks: seq<LogicalChunkDraft>)

  predicate SoundObject(o: Covered) {
    AcceptedCoverage(o.chunks, o.origin, o.size)
  }

  function AllChunks(objects: seq<Covered>): seq<LogicalChunkDraft> {
    if objects == [] then [] else AllChunks(objects[..|objects| - 1]) + objects[|objects| - 1].chunks
  }

  predicate DifferentObjects(a: Covered, b: Covered) {
    a.origin.entryId != b.origin.entryId || a.origin.objectId != b.origin.objectId
  }

  lemma {:induction false} AcceptedIsAssignable(o: Covered)
    requires SoundObject(o)
    ensures DistinctPositions(o.chunks)
    ensures forall i | 0 <= i < |o.chunks| :: Belongs(o.chunks[i], o.origin) && Usable(o.chunks[i])
  {
    if o.size > 0 {
      var from, to := o.origin.baseOffset, o.origin.baseOffset + o.size;
      forall i | 0 <= i < |o.chunks|
        ensures Belongs(o.chunks[i], o.origin) && Usable(o.chunks[i])
        ensures forall j | i < j < |o.chunks| :: !SamePosition(o.chunks[i], o.chunks[j])
      {
        CoverIsOrdered(o.chunks, o.origin, from, to, i);
      }
    }
  }

  predicate FromSome(objects: seq<Covered>, c: LogicalChunkDraft) {
    exists k :: 0 <= k < |objects| && Belongs(c, objects[k].origin)
  }

  /** The accepted chunks of different objects always get ids, in whatever order they arrive. */
  lemma {:induction false} CoveredObjectsAreAssignable(objects: seq<Covered>)
    requires forall k | 0 <= k < |objects| :: SoundObject(objects[k])
    requires forall k, l | 0 <= k < l < |objects| :: DifferentObjects(objects[k], objects[l])
    ensures DistinctPositions(AllChunks(objects))
    ensures forall i | 0 <= i < |AllChunks(objects)| ::
              Usable(AllChunks(objects)[i]) && FromSome(objects, AllChunks(objects)[i])
  {
    if objects != [] {
      var n := |objects| - 1;
      var front, last := objects[..n], objects[n];
      CoveredObjectsAreAssignable(front);
      AcceptedIsAssignable(last);
      var before := AllChunks(front);
      assert AllChunks(objects) == before + last.chunks;
      forall i | 0 <= i < |before| ensures FromSome(objects, before[i]) && !Belongs(before[i], last.origin) {
        assert FromSome(front, before[i]);
        var k :| 0 <= k < |front| && Belongs(before[i], front[k].origin);
        assert objects[k] == front[k] && DifferentObjects(objects[k], objects[n]);
      }
      forall i | 0 <= i < |last.chunks| ensures FromSome(objects, last.chunks[i]) {
        assert Belongs(last.chunks[i], objects[n].origin);
      }
      DisjointConcat(before, last.chunks, last.origin);
    }
  }

  lemma {:induction false} DisjointConcat(a: seq<LogicalChunkDraft>, b: seq<LogicalChunkDraft>, origin: ChunkOrigin)
    requires DistinctPositions(a) && DistinctPositions(b)
    requires (forall i | 0 <= i < |a| :: !Belongs(a[i], origin)) && (forall i | 0 <= i < |b| :: Belongs(b[i], origin))
    ensures DistinctPositions(a + b)
  {
    forall i, j | 0 <= i < j < |a + b| ensures !SamePosition((a + b)[i], (a + b)[j]) {
      assert i < |a| ==> (a + b)[i] == a[i];
      assert i >= |a| ==> (a + b)[i] == b[i - |a|];
      assert j < |a| ==> (a + b)[j] == a[j];
      assert j >= |a| ==> (a + b)[j] == b[j - |a|];
    }
  }
}
