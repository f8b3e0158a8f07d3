/** Packing with a compressing profile: walk, plan, encode, append, assemble, verify. */
module ArchiveWriter {
  import opened Base
  import opened GreedyPartition
  import opened SolidGroups
  import opened ArchiveFormat
  import opened CatalogRules
  import opened PackedTables
  import opened ArchiveRoundTrip
  import opened ArchiveRestore

  // ----- The walk over the scanned entries -----

  /** Group number of a file entry until groups are planned. */
  const UNPLANNED: nat := 0xFFFF_FFFF_FFFF_FFFF

  function Placeholder(p: Primitives, scanned: seq<ScannedEntry>, i: nat): EntryRecord
    requires i < |scanned|
  {
    var e := EntryFor(p, scanned, [], i);
    if e.kind.File? then e.(kind := File(UNPLANNED)) else e
  }

  /** First entry, size and hash of each file identity seen. */
  type Links = map<nat, (nat, nat, Hash)>

  predicate LinkAt(p: Primitives, scanned: seq<ScannedEntry>, links: Links, j: nat)
    requires j < |scanned|
  {
    scanned[j].kind.ScannedFile? && scanned[j].kind.identity.Some? ==>
      && scanned[j].kind.identity.value in links
      && links[scanned[j].kind.identity.value] == LinkTo(p, scanned, Leader(scanned, j))
  }

  function LinkTo(p: Primitives, scanned: seq<ScannedEntry>, leader: nat): (nat, nat, Hash)
    requires leader < |scanned|
  {
    var content := if scanned[leader].kind.ScannedFile? then Content(scanned, leader) else [];
    (leader, |content|, p.blake3(content))
  }

  ghost predicate LinksOk(p: Primitives, scanned: seq<ScannedEntry>, n: nat, links: Links)
    requires n <= |scanned|
  {
    && (forall j | 0 <= j < n :: LinkAt(p, scanned, links, j))
    && (forall id | id in links ::
        links[id].0 < n && scanned[links[id].0].kind.ScannedFile? && scanned[links[id].0].kind.identity == Some(id))
  }

  lemma {:induction false} KnownIdentity(p: Primitives, scanned: seq<ScannedEntry>, n: nat, links: Links)
    requires n < |scanned| && LinksOk(p, scanned, n, links)
    requires scanned[n].kind.ScannedFile? && scanned[n].kind.identity.Some? && scanned[n].kind.identity.value in links
    ensures Leader(scanned, n) < n && links[scanned[n].kind.identity.value] == LinkTo(p, scanned, Leader(scanned, n))
    ensures LinksOk(p, scanned, n + 1, links)
  {
    var id := scanned[n].kind.identity.value;
    var first := links[id].0;
    assert SameFile(scanned, first, n);
    LeaderIsFirst(scanned, n, 0, first);
    var leader := Leader(scanned, n);
    LeaderIsSource(scanned, n);
    assert LinkAt(p, scanned, links, leader);
  }

  lemma {:induction false} NewIdentity(p: Primitives, scanned: seq<ScannedEntry>, n: nat, links: Links)
    requires n < |scanned| && LinksOk(p, scanned, n, links) && scanned[n].kind.ScannedFile?
    requires scanned[n].kind.identity.Some? ==> scanned[n].kind.identity.value !in links
    ensures Leader(scanned, n) == n
  {
    var leader := Leader(scanned, n);
    assert leader < n ==> SameFile(scanned, leader, n) && LinkAt(p, scanned, links, leader);
  }

  lemma {:induction false} LinksGrow(p: Primitives, scanned: seq<ScannedEntry>, n: nat, links: Links, links': Links)
    requires n < |scanned| && LinksOk(p, scanned, n, links) && scanned[n].kind.ScannedFile? && Leader(scanned, n) == n
    requires match scanned[n].kind.identity {
               case None => links' == links
               case Some(id) => id !in links && links' == links[id := LinkTo(p, scanned, n)]
             }
    ensures LinksOk(p, scanned, n + 1, links')
  {
    forall j | 0 <= j < n + 1 ensures LinkAt(p, scanned, links', j) {
      assert j < n ==> LinkAt(p, scanned, links, j);
    }
  }

  datatype CompressedSource = CompressedSource(entryId: nat, size: nat, content: bytes)

  /** The running variables of the walk. */
  datatype Walk = Walk(entries: seq<EntryRecord>, sources: seq<CompressedSource>, links: Links, total: nat)

  ghost predicate WalkOk(p: Primitives, scanned: seq<ScannedEntry>, n: nat, w: Walk)
    requires n <= |scanned|
  {
    && LinksOk(p, scanned, n, w.links)
    && w.total == OriginalTotal(scanned, n)
    && |w.entries| == n && (forall i | 0 <= i < n :: w.entries[i] == Placeholder(p, scanned, i))
    && SourcesListed(scanned, n, w.sources)
  }

  ghost predicate SourcesListed(scanned: seq<ScannedEntry>, n: nat, sources: seq<CompressedSource>)
    requires n <= |scanned|
  {
    |sources| == |Sources(scanned, n)|
    && forall k | 0 <= k < |sources| :: SourceAt(scanned, n, sources, k)
  }

  predicate SourceAt(scanned: seq<ScannedEntry>, n: nat, sources: seq<CompressedSource>, k: nat)
    requires n <= |scanned| && k < |sources| == |Sources(scanned, n)|
  {
    var id := Sources(scanned, n)[k];
    sources[k] == CompressedSource(id, |Content(scanned, id)|, Content(scanned, id))
  }

  lemma {:induction false} SourcesGrow(scanned: seq<ScannedEntry>, n: nat, sources: seq<CompressedSource>)
    requires n < |scanned| && SourcesListed(scanned, n, sources)
    ensures IsSource(scanned, n) ==>
              SourcesListed(scanned, n + 1, sources + [CompressedSource(n, |Content(scanned, n)|, Content(scanned, n))])
    ensures !IsSource(scanned, n) ==> SourcesListed(scanned, n + 1, sources)
  {
    var next :=
      if IsSource(scanned, n) then sources + [CompressedSource(n, |Content(scanned, n)|, Content(scanned, n))]
      else sources;
    var m := n + 1;
    forall k | 0 <= k < |next| ensures SourceAt(scanned, m, next, k) {
      assert k < |sources| ==> SourceAt(scanned, n, sources, k);
    }
  }

  /** The limits the walk itself checks, up to entry `n`. */
  ghost predicate WalkPasses(limits: DecodeLimits, scanned: seq<ScannedEntry>, n: nat)
    requires n <= |scanned|
  {
    OriginalTotal(scanned, n) <= limits.maxOriginalBytes && forall i | 0 <= i < n :: SourceFits(limits, scanned, i)
  }

  predicate SourceFits(limits: DecodeLimits, scanned: seq<ScannedEntry>, i: nat)
    requires i < |scanned|
  {
    IsSource(scanned, i) ==> |Content(scanned, i)| <= limits.maxGroupOutput
  }

  /** One scanned entry: its record, and for a file not seen before a source to encode. */
  method WalkEntry(p: Primitives, limits: DecodeLimits, scanned: seq<ScannedEntry>, n: nat, w: Walk)
    returns (r: Result<Walk, PithosError>)
    requires n < |scanned| && ScanOk(p, limits, scanned) && WalkOk(p, scanned, n, w)
    requires w.total <= limits.maxOriginalBytes
    ensures r.Success? ==>
              WalkOk(p, scanned, n + 1, r.value) && r.value.total <= limits.maxOriginalBytes
              && SourceFits(limits, scanned, n)
    ensures r.Failure? ==> OriginalTotal(scanned, n + 1) > limits.maxOriginalBytes || !SourceFits(limits, scanned, n)
  {
    SourcesGrow(scanned, n, w.sources);
    var e := scanned[n];
    match e.kind {
      case ScannedDirectory =>
        var record := EntryRecord(n, e.path, 0, e.modifiedNs, e.mode, p.blake3(DIRECTORY_WORD), Directory);
        return Success(w.(entries := w.entries + [record]));
      case ScannedSymlink(target, isDir) =>
        var serialized := p.linkBytes(target);
        var record := EntryRecord(n, e.path, |serialized|, e.modifiedNs, e.mode, p.blake3(serialized),
                                  Symlink(target, isDir));
        return Success(w.(entries := w.entries + [record]));
      case ScannedFile(content, identity) =>
        if w.total + |content| > U64_MAX {
          return Failure(IntegerOverflow);
        }
        var total := w.total + |content|;
        if total > limits.maxOriginalBytes {
          return Failure(ResourceLimit("tamanho original"));
        }
        if identity.Some? && identity.value in w.links {
          KnownIdentity(p, scanned, n, w.links);
          var (target, size, hash) := w.links[identity.value];
          var record := EntryRecord(n, e.path, size, e.modifiedNs, e.mode, hash, Hardlink(target));
          return Success(w.(entries := w.entries + [record], total := total));
        }
        NewIdentity(p, scanned, n, w.links);
        if |content| > limits.maxGroupOutput {
          return Failure(ResourceLimit("tamanho do grupo"));
        }
        var hash := p.blake3(content);
        var links := if identity.Some? then w.links[identity.value := (n, |content|, hash)] else w.links;
        LinksGrow(p, scanned, n, w.links, links);
        var record := EntryRecord(n, e.path, |content|, e.modifiedNs, e.mode, hash, File(UNPLANNED));
        return Success(Walk(w.entries + [record], w.sources + [CompressedSource(n, |content|, content)], links, total));
    }
  }

  lemma {:induction false} TotalGrows(scanned: seq<ScannedEntry>, m: nat, n: nat)
    requires m <= n <= |scanned|
    ensures OriginalTotal(scanned, m) <= OriginalTotal(scanned, n)
  {
    if m < n {
      TotalGrows(scanned, m, n - 1);
    }
  }

  /** No layout makes the archive acceptable: too many bytes in all, or a file larger than a group may be. */
  ghost predicate NeverFits(p: Primitives, limits: DecodeLimits, scanned: seq<ScannedEntry>) {
    forall layout | LayoutOk(scanned, layout) :: !PackFits(p, limits, scanned, layout)
  }

  lemma {:induction false} TooManyBytes(p: Primitives, limits: DecodeLimits, scanned: seq<ScannedEntry>, n: nat)
    requires n <= |scanned| && OriginalTotal(scanned, n) > limits.maxOriginalBytes
    ensures NeverFits(p, limits, scanned)
  {
    TotalGrows(scanned, n, |scanned|);
  }

  lemma {:induction false} TooLargeFile(p: Primitives, limits: DecodeLimits, scanned: seq<ScannedEntry>, i: nat)
    requires i < |scanned| && !SourceFits(limits, scanned, i)
    ensures NeverFits(p, limits, scanned)
  {
    forall layout | LayoutOk(scanned, layout) ensures !AllGroupsFit(p, limits, scanned, layout) {
      var s := SourceIndex(scanned, i);
      SourceIndexAt(scanned, i, |scanned|);
      var k := PartOfSource(scanned, layout, s);
      SumWithin(Lengths(scanned), Start(layout.ends, k), s, s + 1, layout.ends[k]);
      assert SumRange(Lengths(scanned), s, s + 1) == Lengths(scanned)[s];
      assert !GroupFits(p, limits, scanned, layout, k);
    }
  }

  /** The walk step; what it refuses, every reader with these limits would refuse. */
  method NextWalk(p: Primitives, limits: DecodeLimits, scanned: seq<ScannedEntry>, n: nat, w: Walk)
    returns (r: Result<Walk, PithosError>)
    requires n < |scanned| && ScanOk(p, limits, scanned) && WalkOk(p, scanned, n, w)
    requires w.total <= limits.maxOriginalBytes
    ensures r.Success? ==>
              WalkOk(p, scanned, n + 1, r.value) && r.value.total <= limits.maxOriginalBytes
              && SourceFits(limits, scanned, n)
    ensures r.Failure? ==> NeverFits(p, limits, scanned) && !WalkPasses(limits, scanned, |scanned|)
  {
    r := WalkEntry(p, limits, scanned, n, w);
    if r.Failure? {
      TotalGrows(scanned, n + 1, |scanned|);
      if OriginalTotal(scanned, n + 1) > limits.maxOriginalBytes {
        TooManyBytes(p, limits, scanned, n + 1);
      } else {
        TooLargeFile(p, limits, scanned, n);
      }
    }
  }

  method WalkInputs(p: Primitives, limits: DecodeLimits, scanned: seq<ScannedEntry>)
    returns (r: Result<Walk, PithosError>)
    requires ScanOk(p, limits, scanned)
    ensures r.Success? <==> WalkPasses(limits, scanned, |scanned|)
    ensures r.Success? ==> WalkOk(p, scanned, |scanned|, r.value) && r.value.total <= limits.maxOriginalBytes
    ensures r.Failure? ==> NeverFits(p, limits, scanned)
  {
    var w := Walk([], [], map[], 0);
    for n := 0 to |scanned|
      invariant WalkOk(p, scanned, n, w) && WalkPasses(limits, scanned, n)
    {
      var next := NextWalk(p, limits, scanned, n, w);
      if next.Failure? {
        return next;
      }
      w := next.value;
    }
    return Success(w);
  }

  // ----- Choosing a codec -----

  function ProfileCodecs(profile: CompressionProfile): (codecs: seq<CodecId>)
    ensures |codecs| > 0 && codecs[0] == Store
  {
    match profile
    case Raw => [Store]
    case Stream => [Store, Zstd]
    case Random => [Store, Zstd]
    case Balanced => [Store, Zstd, Brotli, Lzma2]
    case ArchiveMax => [Store, Zstd, Brotli, Lzma2]
  }

  /** Codecs write their output into a vector, so it is never longer than one can be. */
  ghost predicate EncodingsAreShort(p: Primitives) {
    forall c, x | |x| <= MAX_VEC_BYTES :: |p.encode(c, x)| <= MAX_VEC_BYTES
  }

  function CostOf(payload: u64): CandidateCost {
    CandidateCost(payload, 16, 48, 0, 4, 0)
  }

  /** `a` is strictly preferred to `b`: cheaper, or as cheap with the smaller codec number. */
  predicate Preferred(p: Primitives, input: bytes, a: CodecId, b: CodecId) {
    |p.encode(a, input)| < |p.encode(b, input)|
    || (|p.encode(a, input)| == |p.encode(b, input)| && CodecNumber(a) < CodecNumber(b))
  }

  /** The candidate that every other candidate loses to. */
  ghost predicate BestCodec(p: Primitives, input: bytes, candidates: seq<CodecId>, best: CodecId) {
    best in candidates && forall c | c in candidates :: c == best || Preferred(p, input, best, c)
  }

  lemma {:induction false} BestCodecIsUnique(p: Primitives, input: bytes, candidates: seq<CodecId>, a: CodecId,
                                             b: CodecId)
    requires BestCodec(p, input, candidates, a) && BestCodec(p, input, candidates, b)
    ensures a == b
  {
  }

  /** With the store codec among the candidates a group never grows. */
  lemma {:induction false} BestNeverGrows(p: Primitives, input: bytes, candidates: seq<CodecId>, best: CodecId)
    requires SoundCodecs(p) && Store in candidates && BestCodec(p, input, candidates, best)
    ensures |p.encode(best, input)| <= |input|
  {
    assert p.encode(Store, input) == input;
  }

  method EncodeSolidGroup(p: Primitives, members: seq<CompressedSource>, candidates: seq<CodecId>, ghost input: bytes)
    returns (codec: CodecId, payload: bytes)
    requires EncodingsAreShort(p) && candidates != []
    requires (forall i, j | 0 <= i < j < |candidates| :: candidates[i] != candidates[j])
    requires input == MemberBytes(members) && |input| <= MAX_VEC_BYTES
    ensures BestCodec(p, input, candidates, codec) && payload == p.encode(codec, input)
  {
    var content: bytes := [];
    for m := 0 to |members|
      invariant content == MemberBytes(members[..m])
    {
      assert members[..m + 1][..m] == members[..m];
      content := content + members[m].content;
    }
    assert members[..|members|] == members;
    codec, payload := candidates[0], p.encode(candidates[0], content);
    for n := 1 to |candidates|
      invariant codec in candidates[..n] && payload == p.encode(codec, content)
      invariant forall k | 0 <= k < n :: candidates[k] == codec || Preferred(p, content, codec, candidates[k])
    {
      var encoded := p.encode(candidates[n], content);
      var total, bestTotal := CostOf(|encoded|).Total(), CostOf(|payload|).Total();
      if total.value < bestTotal.value
          || (total.value == bestTotal.value && CodecNumber(candidates[n]) < CodecNumber(codec)) {
        codec, payload := candidates[n], encoded;
      } else {
        DistinctNumbers(candidates[n], codec);
      }
    }
  }

  function MemberBytes(members: seq<CompressedSource>): bytes {
    if members == [] then [] else MemberBytes(members[..|members| - 1]) + members[|members| - 1].content
  }

  lemma {:induction false} DistinctNumbers(a: CodecId, b: CodecId)
    ensures CodecNumber(a) == CodecNumber(b) <==> a == b
  {
  }

  // ----- Assigning groups -----

  /** The entry table once the sources before `m` have their group. */
  ghost predicate AssignedUpTo(p: Primitives, scanned: seq<ScannedEntry>, ends: seq<nat>, m: nat,
                               entries: seq<EntryRecord>) {
    |entries| == |scanned| && forall i | 0 <= i < |entries| :: AssignedAt(p, scanned, ends, m, entries, i)
  }

  predicate AssignedAt(p: Primitives, scanned: seq<ScannedEntry>, ends: seq<nat>, m: nat, entries: seq<EntryRecord>,
                       i: nat)
    requires i < |scanned| == |entries|
  {
    entries[i] == if IsSource(scanned, i)
    && SourceIndex(scanned, i) >= m then Placeholder(p, scanned, i) else EntryFor(p, scanned, ends, i)
  }

  lemma {:induction false} AssignOne(p: Primitives, scanned: seq<ScannedEntry>, ends: seq<nat>, m: nat,
                                     entries: seq<EntryRecord>, k: nat)
    requires AssignedUpTo(p, scanned, ends, m, entries) && m < |AllSources(scanned)| && PartOf(ends, m) == k
    ensures var id := AllSources(scanned)[m];
      AssignedUpTo(p, scanned, ends, m + 1, entries[id := entries[id].(kind := File(k))])
  {
    var id := AllSources(scanned)[m];
    var entries' := entries[id := entries[id].(kind := File(k))];
    IndexOfSource(scanned, |scanned|, m);
    var m' := m + 1;
    forall i | 0 <= i < |entries'| ensures AssignedAt(p, scanned, ends, m', entries', i) {
      assert AssignedAt(p, scanned, ends, m, entries, i);
      if IsSource(scanned, i) && SourceIndex(scanned, i) == m {
        SourceIndexAt(scanned, i, |scanned|);
      }
    }
  }

  /** The restore records of the sources before `m`. */
  ghost predicate RestoredUpTo(scanned: seq<ScannedEntry>, ends: seq<nat>, m: nat, restores: seq<RestoreMapRecord>)
    requires m <= |AllSources(scanned)|
  {
    |restores| == m && forall s | 0 <= s < m :: restores[s] == RestoreFor(scanned, ends, s)
  }

  /** The entries and restore records once the sources before `m` are assigned. */
  ghost predicate Assigned(p: Primitives, scanned: seq<ScannedEntry>, ends: seq<nat>, m: nat, entries: seq<EntryRecord>,
                           restores: seq<RestoreMapRecord>) {
    m <= |AllSources(scanned)| && AssignedUpTo(p, scanned, ends, m, entries) && RestoredUpTo(scanned, ends, m, restores)
  }

  lemma {:induction false} RestoreOne(scanned: seq<ScannedEntry>, ends: seq<nat>, m: nat,
                                      restores: seq<RestoreMapRecord>, r: RestoreMapRecord)
    requires m < |AllSources(scanned)| && RestoredUpTo(scanned, ends, m, restores) && r == RestoreFor(scanned, ends, m)
    ensures RestoredUpTo(scanned, ends, m + 1, restores + [r])
  {
  }

  method AssignSource(p: Primitives, scanned: seq<ScannedEntry>, ghost ends: seq<nat>, k: nat, s: nat, groupOffset: nat,
                      sources: seq<CompressedSource>, entries: seq<EntryRecord>, restores: seq<RestoreMapRecord>)
    returns (entries': seq<EntryRecord>, restores': seq<RestoreMapRecord>)
    requires SourcesListed(scanned, |scanned|, sources) && s < |sources| && Partition(ends, |sources|) && k < |ends|
    requires Start(ends, k) <= s < ends[k] && groupOffset == SumRange(Lengths(scanned), Start(ends, k), s)
    requires Assigned(p, scanned, ends, s, entries, restores)
    ensures Assigned(p, scanned, ends, s + 1, entries', restores')
  {
    var source := sources[s];
    assert SourceAt(scanned, |scanned|, sources, s);
    PartIsUnique(ends, |sources|, s, k);
    AssignOne(p, scanned, ends, s, entries, k);
    var record := RestoreMapRecord(source.entryId, 0, source.size, k, groupOffset);
    RestoreOne(scanned, ends, s, restores, record);
    entries' := entries[source.entryId := entries[source.entryId].(kind := File(k))];
    restores' := restores + [record];
  }

  /** The members of one group, each at the offset where the one before ends; the plan's length is then met exactly. */
  method AssignGroup(p: Primitives, scanned: seq<ScannedEntry>, ghost ends: seq<nat>, k: nat, plan: SolidGroupPlan,
                     sources: seq<CompressedSource>, entries: seq<EntryRecord>, restores: seq<RestoreMapRecord>)
    returns (r: Result<(seq<EntryRecord>, seq<RestoreMapRecord>), PithosError>)
    requires SourcesListed(scanned, |scanned|, sources) && Partition(ends, |sources|) && k < |ends|
    requires PartAt(ends, |sources|, k) && plan == PlanOf(Lengths(scanned), ends, k)
    requires Assigned(p, scanned, ends, Start(ends, k), entries, restores)
    ensures r.Success? && Assigned(p, scanned, ends, ends[k], r.value.0, r.value.1)
  {
    var groupOffset := 0;
    var table, records := entries, restores;
    for s := plan.firstItem to plan.firstItem + plan.itemCount
      invariant groupOffset == SumRange(Lengths(scanned), plan.firstItem, s)
      invariant Assigned(p, scanned, ends, s, table, records)
    {
      table, records := AssignSource(p, scanned, ends, k, s, groupOffset, sources, table, records);
      assert SourceAt(scanned, |scanned|, sources, s);
      groupOffset := groupOffset + sources[s].size;
    }
    if groupOffset != plan.uncompressedLen {
      assert false;
    }
    return Success((table, records));
  }
}
