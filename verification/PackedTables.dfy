/** What packing a list of scanned entries must produce: which entry is a hardlink, which group holds which bytes. */
module PackedTables {
  import opened Base
  import opened PathKeys
  import opened GreedyPartition
  import opened ArchiveFormat
  import opened CodecRegistry
  import opened CatalogRules
  import opened ArchiveLayout

  /** A scanned file carries its content; entries with the same identity are the same file. */
  datatype ScannedKind = ScannedDirectory | ScannedSymlink(target: LinkTarget, targetIsDir: bool)
    | ScannedFile(content: bytes, identity: Option<nat>)

  datatype ScannedEntry = ScannedEntry(path: ArchivePath, modifiedNs: int, mode: nat, kind: ScannedKind)

  /**
   What the scanner guarantees: distinct usable paths, inside links, files of a possible size, and one content per
   identity.
   */
  ghost predicate ScanOk(p: Primitives, limits: DecodeLimits, scanned: seq<ScannedEntry>) {
    && |scanned| <= limits.maxEntries
    && (forall i, j | 0 <= i < j < |scanned| :: scanned[i].path != scanned[j].path)
    && (forall i | 0 <= i < |scanned| :: ScannedOk(p, limits, scanned[i]))
    && (forall i, j | 0 <= i < |scanned| && 0 <= j < |scanned|
        && SameFile(scanned, i, j) :: scanned[i].kind.content == scanned[j].kind.content)
  }

  /** Entry `i` is no directory, and entry `j` lies at its place or below it. */
  predicate Shadows(p: Primitives, scanned: seq<ScannedEntry>, i: nat, j: nat)
    requires i < |scanned| && j < |scanned|
  {
    i != j && !scanned[i].kind.ScannedDirectory? && Native(p, scanned[i].path) <= Native(p, scanned[j].path)
  }

  /** The entries come from a directory tree; every scan of a file system does. */
  ghost predicate ScannedTree(p: Primitives, scanned: seq<ScannedEntry>) {
    forall i, j | 0 <= i < |scanned| && 0 <= j < |scanned| :: !Shadows(p, scanned, i, j)
  }

  /** Scanned entries have names and link targets that the file system takes. */
  ghost predicate ScannedTaken(p: Primitives, scanned: seq<ScannedEntry>) {
    forall i | 0 <= i < |scanned| :: ScannedEntryTaken(p, scanned[i])
  }

  predicate ScannedEntryTaken(p: Primitives, e: ScannedEntry) {
    && PrefixesTaken(p, Native(p, e.path), |e.path|)
    && (e.kind.ScannedSymlink? ==> TargetTaken(p, e.kind.target))
  }

  predicate ScannedOk(p: Primitives, limits: DecodeLimits, e: ScannedEntry) {
    && PathOk(p, limits, e.path)
    && (e.kind.ScannedSymlink? ==> ResolvesWithin(e.kind.target, e.path))
    && (e.kind.ScannedFile? ==> |e.kind.content| <= MAX_VEC_BYTES)
  }

  predicate SameFile(scanned: seq<ScannedEntry>, i: nat, j: nat)
    requires i < |scanned| && j < |scanned|
  {
    && scanned[i].kind.ScannedFile? && scanned[j].kind.ScannedFile?
    && scanned[i].kind.identity.Some? && scanned[i].kind.identity == scanned[j].kind.identity
  }

  // ----- Sources -----

  /** The first entry from `j` on that is the same file as `i`, or `i` itself. */
  function LeaderFrom(scanned: seq<ScannedEntry>, i: nat, j: nat): (leader: nat)
    requires j <= i < |scanned|
    ensures j <= leader <= i
    ensures leader < i ==> SameFile(scanned, leader, i)
    decreases i - j
  {
    if j == i then i else if SameFile(scanned, j, i) then j else LeaderFrom(scanned, i, j + 1)
  }

  function Leader(scanned: seq<ScannedEntry>, i: nat): nat
    requires i < |scanned|
  {
    LeaderFrom(scanned, i, 0)
  }

  /** A source is a file that is not a later name of an earlier one; only sources are stored. */
  predicate IsSource(scanned: seq<ScannedEntry>, i: nat)
    requires i < |scanned|
  {
    scanned[i].kind.ScannedFile? && Leader(scanned, i) == i
  }

  lemma {:induction false} LeaderIsFirst(scanned: seq<ScannedEntry>, i: nat, j: nat, k: nat)
    requires j <= k <= i < |scanned| && (k == i || SameFile(scanned, k, i))
    ensures LeaderFrom(scanned, i, j) <= k
    decreases i - j
  {
    if j < k && !SameFile(scanned, j, i) {
      LeaderIsFirst(scanned, i, j + 1, k);
    }
  }

  /** The leader of a file is itself a source. */
  lemma {:induction false} LeaderIsSource(scanned: seq<ScannedEntry>, i: nat)
    requires i < |scanned| && scanned[i].kind.ScannedFile?
    ensures Leader(scanned, i) <= i && IsSource(scanned, Leader(scanned, i))
  {
    var leader := Leader(scanned, i);
    var first := Leader(scanned, leader);
    if first < leader {
      assert SameFile(scanned, first, i);
      LeaderIsFirst(scanned, i, 0, first);
    }
  }

  /** The sources among the first `n` entries, in order. */
  function Sources(scanned: seq<ScannedEntry>, n: nat): (s: seq<nat>)
    requires n <= |scanned|
    ensures |s| <= n
    ensures forall k | 0 <= k < |s| :: s[k] < n && IsSource(scanned, s[k])
  {
    if n == 0 then [] else Sources(scanned, n - 1) + if IsSource(scanned, n - 1) then [n - 1] else []
  }

  function AllSources(scanned: seq<ScannedEntry>): (s: seq<nat>)
    ensures forall k | 0 <= k < |s| :: s[k] < |scanned| && IsSource(scanned, s[k])
  {
    Sources(scanned, |scanned|)
  }

  /** Position of a source among all sources. */
  function SourceIndex(scanned: seq<ScannedEntry>, i: nat): nat
    requires i < |scanned|
  {
    |Sources(scanned, i)|
  }

  lemma {:induction false} SourceIndexAt(scanned: seq<ScannedEntry>, i: nat, n: nat)
    requires i < n <= |scanned| && IsSource(scanned, i)
    ensures SourceIndex(scanned, i) < |Sources(scanned, n)| && Sources(scanned, n)[SourceIndex(scanned, i)] == i
  {
    if i < n - 1 {
      SourceIndexAt(scanned, i, n - 1);
    }
  }

  lemma {:induction false} SourcesIncrease(scanned: seq<ScannedEntry>, n: nat, a: nat, b: nat)
    requires n <= |scanned| && a < b < |Sources(scanned, n)|
    ensures Sources(scanned, n)[a] < Sources(scanned, n)[b]
  {
    if b < |Sources(scanned, n - 1)| {
      SourcesIncrease(scanned, n - 1, a, b);
    }
  }

  lemma {:induction false} IndexOfSource(scanned: seq<ScannedEntry>, n: nat, k: nat)
    requires n <= |scanned| && k < |Sources(scanned, n)|
    ensures SourceIndex(scanned, Sources(scanned, n)[k]) == k
  {
    if k < |Sources(scanned, n - 1)| {
      IndexOfSource(scanned, n - 1, k);
    }
  }

  function Content(scanned: seq<ScannedEntry>, i: nat): bytes
    requires i < |scanned| && scanned[i].kind.ScannedFile?
  {
    scanned[i].kind.content
  }

  function Contents(scanned: seq<ScannedEntry>): (s: seq<bytes>)
    ensures |s| == |AllSources(scanned)|
    ensures forall k | 0 <= k < |s| :: s[k] == Content(scanned, AllSources(scanned)[k])
  {
    var sources := AllSources(scanned);
    seq(|sources|, k requires 0 <= k < |sources| => Content(scanned, sources[k]))
  }

  function Lengths(scanned: seq<ScannedEntry>): (s: seq<nat>)
    ensures |s| == |AllSources(scanned)|
    ensures forall k | 0 <= k < |s| :: s[k] == |Contents(scanned)[k]|
  {
    var contents := Contents(scanned);
    seq(|contents|, k requires 0 <= k < |contents| => |contents[k]|)
  }

  // ----- Groups -----

  /** The part of a partition that item `x` is in. */
  function PartFrom(ends: seq<nat>, x: nat, k: nat): (part: nat)
    requires k <= |ends|
    ensures k <= part <= |ends|
    decreases |ends| - k
  {
    if k == |ends| || x < ends[k] then k else PartFrom(ends, x, k + 1)
  }

  function PartOf(ends: seq<nat>, x: nat): nat {
    PartFrom(ends, x, 0)
  }

  lemma {:induction false} PartFromHolds(ends: seq<nat>, n: nat, x: nat, k: nat)
    requires Partition(ends, n) && k <= |ends| && Start(ends, k) <= x < n
    ensures var part := PartFrom(ends, x, k); part < |ends| && Start(ends, part) <= x < ends[part]
    decreases |ends| - k
  {
    if k < |ends| && x >= ends[k] {
      assert PartAt(ends, n, k);
      PartFromHolds(ends, n, x, k + 1);
    }
  }

  lemma {:induction false} EndsIncrease(ends: seq<nat>, n: nat, j: nat, k: nat)
    requires Partition(ends, n) && j <= k < |ends|
    ensures ends[j] <= ends[k]
  {
    if j < k {
      assert PartAt(ends, n, k);
      EndsIncrease(ends, n, j, k - 1);
    }
  }

  /** The part of an item is the one whose bounds enclose it. */
  lemma {:induction false} PartIsUnique(ends: seq<nat>, n: nat, x: nat, k: nat)
    requires Partition(ends, n) && k < |ends| && Start(ends, k) <= x < ends[k]
    ensures PartOf(ends, x) == k
  {
    assert PartAt(ends, n, k);
    PartFromHolds(ends, n, x, 0);
    var part := PartOf(ends, x);
    if part < k {
      EndsIncrease(ends, n, part, k - 1);
    } else if k < part {
      EndsIncrease(ends, n, k, part - 1);
    }
  }

  /** The groups of an archive: where each ends among the sources, and its codec; `None` is the RAW profile. */
  datatype Layout = Layout(ends: seq<nat>, codecs: Option<seq<CodecId>>)

  ghost predicate LayoutOk(scanned: seq<ScannedEntry>, layout: Layout) {
    && Partition(layout.ends, |AllSources(scanned)|)
    && match layout.codecs {
         case None => |layout.ends| == |AllSources(scanned)|
         case Some(codecs) => |codecs| == |layout.ends|
       }
  }

  /** The contents of sources `i` up to `j`, joined. */
  function Joined(contents: seq<bytes>, i: nat, j: nat): bytes
    requires j <= |contents|
  {
    if j <= i then [] else Joined(contents, i, j - 1) + contents[j - 1]
  }

  function GroupInput(scanned: seq<ScannedEntry>, layout: Layout, k: nat): bytes
    requires k < |layout.ends| && layout.ends[k] <= |AllSources(scanned)|
  {
    Joined(Contents(scanned), Start(layout.ends, k), layout.ends[k])
  }

  function GroupPayload(p: Primitives, scanned: seq<ScannedEntry>, layout: Layout, k: nat): bytes
    requires k < |layout.ends| && layout.ends[k] <= |AllSources(scanned)|
    requires layout.codecs.Some? ==> |layout.codecs.value| == |layout.ends|
  {
    match layout.codecs
    case None => GroupInput(scanned, layout, k)
    case Some(codecs) => p.encode(codecs[k], GroupInput(scanned, layout, k))
  }

  function Payloads(p: Primitives, scanned: seq<ScannedEntry>, layout: Layout): (s: seq<bytes>)
    requires LayoutOk(scanned, layout)
    ensures |s| == |layout.ends|
    ensures forall k | 0 <= k < |s| ::
              PartAt(layout.ends, |AllSources(scanned)|, k) && s[k] == GroupPayload(p, scanned, layout, k)
  {
    assert forall k | 0 <= k < |layout.ends| :: PartAt(layout.ends, |AllSources(scanned)|, k);
    seq(|layout.ends|, k requires 0 <= k < |layout.ends|
        && PartAt(layout.ends, |AllSources(scanned)|, k) => GroupPayload(p, scanned, layout, k))
  }

  function ChainId(layout: Layout, k: nat): nat
    requires layout.codecs.Some? ==> k < |layout.codecs.value|
  {
    match layout.codecs
    case None => 0
    case Some(codecs) => CodecNumber(codecs[k]) + 1
  }

  // ----- The tables -----

  /** The entry record of scanned entry `i`: a directory, a link, a stored file, or a hardlink to its leader. */
  function EntryFor(p: Primitives, scanned: seq<ScannedEntry>, ends: seq<nat>, i: nat): EntryRecord
    requires i < |scanned|
  {
    var e := scanned[i];
    match e.kind
    case ScannedDirectory => EntryRecord(i, e.path, 0, e.modifiedNs, e.mode, p.blake3(DIRECTORY_WORD), Directory)
    case ScannedSymlink(target, isDir) =>
      EntryRecord(i, e.path, |p.linkBytes(target)|, e.modifiedNs, e.mode, p.blake3(p.linkBytes(target)),
                  Symlink(target, isDir))
    case ScannedFile(_, _) =>
      var content := Content(scanned, Leader(scanned, i));
      var kind := if Leader(scanned, i) == i then File(PartOf(ends, SourceIndex(scanned, i)))
        else Hardlink(Leader(scanned, i));
      EntryRecord(i, e.path, |content|, e.modifiedNs, e.mode, p.blake3(content), kind)
  }

  /** The word whose hash stands for a directory. */
  const DIRECTORY_WORD: bytes := [100, 105, 114, 101, 99, 116, 111, 114, 121]

  function EntriesFor(p: Primitives, scanned: seq<ScannedEntry>, ends: seq<nat>): (s: seq<EntryRecord>)
    ensures |s| == |scanned| && forall i | 0 <= i < |s| :: s[i] == EntryFor(p, scanned, ends, i)
  {
    seq(|scanned|, i requires 0 <= i < |scanned| => EntryFor(p, scanned, ends, i))
  }

  /** The restore record of source `s`. */
  function RestoreFor(scanned: seq<ScannedEntry>, ends: seq<nat>, s: nat): RestoreMapRecord
    requires s < |AllSources(scanned)|
  {
    var part := PartOf(ends, s);
    RestoreMapRecord(AllSources(scanned)[s], 0, Lengths(scanned)[s], part,
                     SumRange(Lengths(scanned), Start(ends, part), s))
  }

  function RestoresFor(scanned: seq<ScannedEntry>, ends: seq<nat>): (r: seq<RestoreMapRecord>)
    ensures |r| == |AllSources(scanned)| && forall s | 0 <= s < |r| :: r[s] == RestoreFor(scanned, ends, s)
  {
    seq(|AllSources(scanned)|, s requires 0 <= s < |AllSources(scanned)| => RestoreFor(scanned, ends, s))
  }

  function GroupFor(p: Primitives, scanned: seq<ScannedEntry>, layout: Layout, start: nat, k: nat): GroupRecord
    requires LayoutOk(scanned, layout) && k < |layout.ends|
  {
    var payloads := Payloads(p, scanned, layout);
    assert PartAt(layout.ends, |AllSources(scanned)|, k);
    GroupRecord(1, 0, k, ChainId(layout, k), layout.ends[k] - Start(layout.ends, k),
                SumRange(Lengths(scanned), Start(layout.ends, k), layout.ends[k]),
                |payloads[k]|, 0, p.crc32c(payloads[k]), start + BlockStart(payloads, k))
  }

  function GroupsFor(p: Primitives, scanned: seq<ScannedEntry>, layout: Layout, start: nat): (g: seq<GroupRecord>)
    requires LayoutOk(scanned, layout)
    ensures |g| == |layout.ends| && forall k | 0 <= k < |g| :: g[k] == GroupFor(p, scanned, layout, start, k)
  {
    seq(|layout.ends|, k requires 0 <= k < |layout.ends| => GroupFor(p, scanned, layout, start, k))
  }

  function IndexFor(entries: seq<EntryRecord>): (s: seq<CentralIndexRecord>)
    ensures |s| == |entries|
    ensures forall i | 0 <= i < |s| ::
              s[i] == CentralIndexRecord(entries[i].path, entries[i].entryId, EntryGroup(entries[i]))
  {
    seq(|entries|, i requires 0 <= i < |entries| =>
      CentralIndexRecord(entries[i].path, entries[i].entryId, EntryGroup(entries[i])))
  }

  function IntegrityFor(entries: seq<EntryRecord>): (s: seq<IntegrityRecord>)
    ensures |s| == |entries|
    ensures forall i | 0 <= i < |s| :: s[i] == IntegrityRecord(entries[i].entryId, entries[i].blake3)
  {
    seq(|entries|, i requires 0 <= i < |entries| => IntegrityRecord(entries[i].entryId, entries[i].blake3))
  }

  function CodecRecord(c: CodecId): RegistryRecord {
    RegistryRecord(CodecNumber(c) + 1, CodecNumber(c), 1, DefaultLevel(c), FLAG_REQUIRED)
  }

  function RegistryFor(codecs: seq<CodecId>): seq<RegistryRecord> {
    (if Store in codecs then [CodecRecord(Store)] else [])
    + (if Zstd in codecs then [CodecRecord(Zstd)] else [])
    + (if Brotli in codecs then [CodecRecord(Brotli)] else [])
    + (if Lzma2 in codecs then [CodecRecord(Lzma2)] else [])
  }

  function StartFor(layout: Layout): nat {
    var sections := if layout.codecs.Some? then REQUIRED_COMPRESSED_SECTIONS else REQUIRED_RAW_SECTIONS;
    HEADER_LEN + sections * SECTION_ENTRY_LEN
  }

  function TablesFor(p: Primitives, scanned: seq<ScannedEntry>, layout: Layout): Tables
    requires LayoutOk(scanned, layout)
  {
    var entries := EntriesFor(p, scanned, layout.ends);
    var registry := match layout.codecs { case None => None case Some(codecs) => Some(RegistryFor(codecs)) };
    Tables(entries, GroupsFor(p, scanned, layout, StartFor(layout)), RestoresFor(scanned, layout.ends),
           IndexFor(entries), IntegrityFor(entries), registry)
  }

  /** Bytes of all files, each name counted. */
  function OriginalTotal(scanned: seq<ScannedEntry>, n: nat): nat
    requires n <= |scanned|
  {
    if n == 0 then 0
    else OriginalTotal(scanned, n - 1) + if scanned[n - 1].kind.ScannedFile? then |scanned[n - 1].kind.content| else 0
  }

  /** The archive of the scanned entries. */
  function PackedFile(p: Primitives, scanned: seq<ScannedEntry>, layout: Layout): bytes
    requires LayoutOk(scanned, layout)
  {
    Assemble(p, TablesFor(p, scanned, layout), Concat(Payloads(p, scanned, layout)), OriginalTotal(scanned, |scanned|))
  }
}
