/** Packing with the RAW profile: one pass that stores every source as a group of its own. */
module PackRaw {
  import opened Base
  import opened GreedyPartition
  import opened ArchiveFormat
  import opened CatalogRules
  import opened ArchiveLayout
  import opened PackedTables
  import opened ArchiveRoundTrip
  import opened ArchiveWriter
  import opened PackCompressed

  /** Group `k` ends after source `k`. */
  function RawEnds(n: nat): (ends: seq<nat>)
    ensures |ends| == n && forall k | 0 <= k < n :: ends[k] == k + 1
  {
    seq(n, k => k + 1)
  }

  function RawLayout(scanned: seq<ScannedEntry>): Layout {
    Layout(RawEnds(|AllSources(scanned)|), None)
  }

  lemma {:induction false} RawLayoutOk(scanned: seq<ScannedEntry>)
    ensures LayoutOk(scanned, RawLayout(scanned))
  {
    var ends := RawEnds(|AllSources(scanned)|);
    forall k | 0 <= k < |ends| ensures PartAt(ends, |AllSources(scanned)|, k) {
    }
  }

  lemma {:induction false} RawPart(n: nat, s: nat)
    requires s < n
    ensures Partition(RawEnds(n), n) && PartOf(RawEnds(n), s) == s
  {
    var ends := RawEnds(n);
    forall k | 0 <= k < |ends| ensures PartAt(ends, n, k) {
    }
    PartIsUnique(ends, n, s, s);
  }

  /** What the finished tables hold, to compare the running ones with. */
  datatype Goal = Goal(entries: seq<EntryRecord>, groups: seq<GroupRecord>, restores: seq<RestoreMapRecord>,
                       payloads: seq<bytes>)

  function RawGroup(p: Primitives, groupId: nat, content: bytes, offset: nat): GroupRecord {
    GroupRecord(1, 0, groupId, 0, 1, |content|, |content|, 0, p.crc32c(content), offset)
  }

  const RAW_START: nat := HEADER_LEN + REQUIRED_RAW_SECTIONS * SECTION_ENTRY_LEN

  /** Entry `n` of the goal; a source also has its group, restore record and payload there. */
  predicate GoalEntry(p: Primitives, scanned: seq<ScannedEntry>, goal: Goal, n: nat)
    requires n < |scanned| == |goal.entries|
  {
    if !IsSource(scanned, n) then goal.entries[n] == Placeholder(p, scanned, n)
    else
      var m, content := SourceIndex(scanned, n), Content(scanned, n);
      && m < |goal.groups| == |goal.restores| == |goal.payloads|
      && goal.entries[n] == Placeholder(p, scanned, n).(kind := File(m))
      && goal.payloads[m] == content
      && goal.restores[m] == RestoreMapRecord(n, 0, |content|, m, 0)
      && goal.groups[m] == RawGroup(p, m, content, RAW_START + BlockStart(goal.payloads, m))
  }

  ghost predicate IsGoal(p: Primitives, scanned: seq<ScannedEntry>, goal: Goal) {
    && |goal.entries| == |scanned|
    && |goal.groups| == |goal.restores| == |goal.payloads| == |AllSources(scanned)|
    && forall n | 0 <= n < |scanned| :: GoalEntry(p, scanned, goal, n)
  }

  /** The running variables besides those of the walk. */
  datatype Stored = Stored(entries: seq<EntryRecord>, groups: seq<GroupRecord>, restores: seq<RestoreMapRecord>,
                           payload: bytes)

  /** After `n` entries and `m` sources the running tables are the first parts of the finished ones. */
  ghost predicate StoredUpTo(goal: Goal, n: nat, m: nat, now: Stored) {
    && n <= |goal.entries| && m <= |goal.groups| == |goal.restores| == |goal.payloads|
    && now.entries == goal.entries[..n]
    && now.groups == goal.groups[..m]
    && now.restores == goal.restores[..m]
    && now.payload == Concat(goal.payloads[..m])
  }

  lemma {:induction false} StoreSource(goal: Goal, n: nat, m: nat, now: Stored)
    requires StoredUpTo(goal, n, m, now) && n < |goal.entries| && m < |goal.groups|
    ensures |now.payload| == BlockStart(goal.payloads, m)
    ensures StoredUpTo(goal, n + 1, m + 1, Stored(now.entries + [goal.entries[n]], now.groups + [goal.groups[m]],
                                                  now.restores + [goal.restores[m]], now.payload + goal.payloads[m]))
  {
    ConcatNext(goal.payloads, m);
  }

  lemma {:induction false} StoreOther(goal: Goal, n: nat, m: nat, now: Stored)
    requires StoredUpTo(goal, n, m, now) && n < |goal.entries|
    ensures StoredUpTo(goal, n + 1, m, now.(entries := now.entries + [goal.entries[n]]))
  {
  }

  /** What the walk step says about entry `n`. */
  lemma {:induction false} WalkedEntry(p: Primitives, scanned: seq<ScannedEntry>, n: nat, w: Walk, w': Walk)
    requires n < |scanned| && WalkOk(p, scanned, n, w) && WalkOk(p, scanned, n + 1, w')
    ensures w'.entries[n] == Placeholder(p, scanned, n) && |w.sources| == SourceIndex(scanned, n)
    ensures w'.entries[n].kind.File? <==> IsSource(scanned, n)
    ensures !IsSource(scanned, n) ==> |w'.sources| == |w.sources|
    ensures IsSource(scanned, n) ==>
              |w'.sources| == |w.sources| + 1 && w'.sources[|w.sources|].content == Content(scanned, n)
  {
    if IsSource(scanned, n) {
      assert SourceAt(scanned, n + 1, w'.sources, |w.sources|);
    }
  }

  /** A new file: its group, its restore record and its bytes. */
  function WithFile(p: Primitives, n: nat, entry: EntryRecord, content: bytes, now: Stored): Stored
    requires entry.kind.File?
  {
    var groupId := |now.groups|;
    var offset := RAW_START + |now.payload|;
    Stored(now.entries + [entry.(kind := File(groupId))], now.groups + [RawGroup(p, groupId, content, offset)],
           now.restores + [RestoreMapRecord(n, 0, |content|, groupId, 0)], now.payload + content)
  }

  lemma {:induction false} StoreFile(p: Primitives, goal: Goal, n: nat, m: nat, entry: EntryRecord, content: bytes,
                                     now: Stored)
    requires StoredUpTo(goal, n, m, now) && n < |goal.entries| && m < |goal.groups| && entry.kind.File?
    requires goal.payloads[m] == content && goal.entries[n] == entry.(kind := File(m))
    requires goal.restores[m] == RestoreMapRecord(n, 0, |content|, m, 0)
    requires goal.groups[m] == RawGroup(p, m, content, RAW_START + BlockStart(goal.payloads, m))
    ensures StoredUpTo(goal, n + 1, m + 1, WithFile(p, n, entry, content, now))
  {
    StoreSource(goal, n, m, now);
  }

  /** What is stored of entry `n`: everything for a new file, only its record otherwise. */
  function StoreNext(p: Primitives, n: nat, entry: EntryRecord, content: bytes, now: Stored): Stored {
    if entry.kind.File? then WithFile(p, n, entry, content, now) else now.(entries := now.entries + [entry])
  }

  lemma {:induction false} StoreNextOk(p: Primitives, scanned: seq<ScannedEntry>, n: nat, entry: EntryRecord,
                                       content: bytes, now: Stored, goal: Goal)
    requires n < |scanned| && IsGoal(p, scanned, goal) && StoredUpTo(goal, n, SourceIndex(scanned, n), now)
    requires entry == Placeholder(p, scanned, n) && (entry.kind.File? <==> IsSource(scanned, n))
    requires IsSource(scanned, n) ==> content == Content(scanned, n)
    ensures StoredUpTo(goal, n + 1,
                       if IsSource(scanned, n) then SourceIndex(scanned, n) + 1 else SourceIndex(scanned, n),
                       StoreNext(p, n, entry, content, now))
  {
    assert GoalEntry(p, scanned, goal, n);
    if IsSource(scanned, n) {
      StoreFile(p, goal, n, SourceIndex(scanned, n), entry, content, now);
    } else {
      StoreOther(goal, n, SourceIndex(scanned, n), now);
    }
  }

  lemma {:induction false} StoredLength(goal: Goal, n: nat, m: nat, now: Stored)
    requires StoredUpTo(goal, n, m, now) && m < |goal.groups|
    ensures |now.payload| == BlockStart(goal.payloads, m)
  {
    ConcatNext(goal.payloads, m);
  }

  /** The bytes of all sources do not fit behind the header and the directory. */
  predicate TooLong(goal: Goal, budget: nat) {
    RAW_START + |Concat(goal.payloads)| > budget
  }

  lemma {:induction false} FileTooLong(goal: Goal, m: nat, budget: nat)
    requires m < |goal.payloads| && RAW_START + BlockStart(goal.payloads, m) + |goal.payloads[m]| > budget
    ensures TooLong(goal, budget)
  {
    BlockAt(goal.payloads, m);
  }

  /** One entry of the pass: the shared walk step, the output budget, and what is stored of the entry. */
  method StoreEntry(p: Primitives, limits: DecodeLimits, budget: nat, scanned: seq<ScannedEntry>, n: nat, w: Walk,
                    now: Stored, ghost goal: Goal)
    returns (r: Result<(Walk, Stored), PithosError>)
    requires n < |scanned| && ScanOk(p, limits, scanned) && WalkOk(p, scanned, n, w)
    requires w.total <= limits.maxOriginalBytes
    requires IsGoal(p, scanned, goal) && StoredUpTo(goal, n, |w.sources|, now)
    ensures r.Success? ==> WalkOk(p, scanned, n + 1, r.value.0) && r.value.0.total <= limits.maxOriginalBytes
                           && StoredUpTo(goal, n + 1, |r.value.0.sources|, r.value.1)
    ensures r.Failure? ==> NeverFits(p, limits, scanned) || TooLong(goal, budget)
  {
    var next := NextWalk(p, limits, scanned, n, w);
    if next.Failure? {
      return Failure(next.error);
    }
    WalkedEntry(p, scanned, n, w, next.value);
    hide WalkOk, ScanOk, TooLong;
    var entry := next.value.entries[n];
    var content := if entry.kind.File? then next.value.sources[|w.sources|].content else [];
    if entry.kind.File? && RAW_START + |now.payload| + |content| > budget {
      assert GoalEntry(p, scanned, goal, n);
      StoredLength(goal, n, |w.sources|, now);
      FileTooLong(goal, |w.sources|, budget);
      return Failure(ResourceLimit("archive output"));
    }
    StoreNextOk(p, scanned, n, entry, content, now, goal);
    return Success((next.value, StoreNext(p, n, entry, content, now)));
  }

  lemma {:induction false} StoredAll(goal: Goal, now: Stored)
    requires |goal.groups| == |goal.restores| == |goal.payloads| && StoredUpTo(goal, |goal.entries|, |goal.groups|, now)
    ensures now == Stored(goal.entries, goal.groups, goal.restores, Concat(goal.payloads))
  {
    assert goal.entries[..|goal.entries|] == goal.entries && goal.groups[..|goal.groups|] == goal.groups;
    assert goal.restores[..|goal.restores|] == goal.restores && goal.payloads[..|goal.payloads|] == goal.payloads;
  }

  /** The tables of the RAW layout. */
  function RawGoal(p: Primitives, scanned: seq<ScannedEntry>): Goal {
    RawLayoutOk(scanned);
    var layout := RawLayout(scanned);
    Goal(EntriesFor(p, scanned, layout.ends), GroupsFor(p, scanned, layout, StartFor(layout)),
         RestoresFor(scanned, layout.ends),
         Payloads(p, scanned, layout))
  }

  lemma {:induction false} OneItem(scanned: seq<ScannedEntry>, m: nat)
    requires m < |AllSources(scanned)|
    ensures Joined(Contents(scanned), m, m + 1) == Contents(scanned)[m]
    ensures SumRange(Lengths(scanned), m, m + 1) == |Contents(scanned)[m]|
  {
    assert Joined(Contents(scanned), m, m + 1) == Joined(Contents(scanned), m, m) + Contents(scanned)[m];
    assert SumRange(Lengths(scanned), m, m + 1) == SumRange(Lengths(scanned), m, m) + Lengths(scanned)[m];
  }

  lemma {:induction false} RawPayloadAt(p: Primitives, scanned: seq<ScannedEntry>, m: nat)
    requires m < |AllSources(scanned)|
    ensures LayoutOk(scanned, RawLayout(scanned)) && Payloads(p, scanned, RawLayout(scanned))[m] == Contents(scanned)[m]
  {
    RawLayoutOk(scanned);
    OneItem(scanned, m);
    assert PartAt(RawLayout(scanned).ends, |AllSources(scanned)|, m);
  }

  lemma {:induction false} RawRestoreAt(scanned: seq<ScannedEntry>, m: nat)
    requires m < |AllSources(scanned)|
    ensures RestoreFor(scanned, RawLayout(scanned).ends, m)
            == RestoreMapRecord(AllSources(scanned)[m], 0, |Contents(scanned)[m]|, m, 0)
  {
    RawPart(|AllSources(scanned)|, m);
  }

  lemma {:induction false} RawBounds(scanned: seq<ScannedEntry>, m: nat)
    requires m < |AllSources(scanned)|
    ensures Start(RawLayout(scanned).ends, m) == m && RawLayout(scanned).ends[m] == m + 1
    ensures StartFor(RawLayout(scanned)) == RAW_START
  {
  }

  lemma {:induction false} GroupOfOne(p: Primitives, scanned: seq<ScannedEntry>, layout: Layout, payloads: seq<bytes>,
                                      m: nat, g: GroupRecord)
    requires LayoutOk(scanned, layout) && layout.codecs.None? && m < |layout.ends|
    requires payloads == Payloads(p, scanned, layout)
    requires Start(layout.ends, m) == m && layout.ends[m] == m + 1
    requires g == GroupFor(p, scanned, layout, RAW_START, m)
    ensures m < |Lengths(scanned)|
    ensures g == GroupRecord(1, 0, m, 0, 1, SumRange(Lengths(scanned), m, m + 1), |payloads[m]|, 0,
                             p.crc32c(payloads[m]),
                             RAW_START + BlockStart(payloads, m))
  {
  }

  lemma {:induction false} RawGroupAt(p: Primitives, scanned: seq<ScannedEntry>, layout: Layout, payloads: seq<bytes>,
                                      m: nat)
    requires m < |AllSources(scanned)| && layout == RawLayout(scanned) && LayoutOk(scanned, layout)
    requires payloads == Payloads(p, scanned, layout)
    ensures GroupFor(p, scanned, layout, StartFor(layout), m)
            == RawGroup(p, m, Contents(scanned)[m], RAW_START + BlockStart(payloads, m))
  {
    RawPayloadAt(p, scanned, m);
    RawBounds(scanned, m);
    OneItem(scanned, m);
    GroupOfOne(p, scanned, layout, payloads, m, GroupFor(p, scanned, layout, RAW_START, m));
  }

  lemma {:induction false} RawGoalEntry(p: Primitives, scanned: seq<ScannedEntry>, n: nat)
    requires n < |scanned|
    ensures GoalEntry(p, scanned, RawGoal(p, scanned), n)
  {
    RawLayoutOk(scanned);
    if IsSource(scanned, n) {
      SourceIndexAt(scanned, n, |scanned|);
      RawPart(|AllSources(scanned)|, SourceIndex(scanned, n));
      RawPayloadAt(p, scanned, SourceIndex(scanned, n));
      RawRestoreAt(scanned, SourceIndex(scanned, n));
      RawGroupAt(p, scanned, RawLayout(scanned), Payloads(p, scanned, RawLayout(scanned)), SourceIndex(scanned, n));
    }
  }

  lemma {:induction false} TheGoal(p: Primitives, scanned: seq<ScannedEntry>) returns (goal: Goal)
    ensures IsGoal(p, scanned, goal)
  {
    goal := RawGoal(p, scanned);
    forall n | 0 <= n < |scanned| ensures GoalEntry(p, scanned, goal, n) {
      RawGoalEntry(p, scanned, n);
    }
  }

  lemma {:induction false} GoalsAgreeAt(p: Primitives, scanned: seq<ScannedEntry>, a: Goal, b: Goal, m: nat)
    requires IsGoal(p, scanned, a) && IsGoal(p, scanned, b) && m < |AllSources(scanned)|
    ensures a.payloads[m] == b.payloads[m] && a.restores[m] == b.restores[m]
    ensures a.payloads == b.payloads ==> a.groups[m] == b.groups[m]
  {
    var n := AllSources(scanned)[m];
    IndexOfSource(scanned, |scanned|, m);
    assert GoalEntry(p, scanned, a, n) && GoalEntry(p, scanned, b, n);
  }

  lemma {:induction false} GoalIsUnique(p: Primitives, scanned: seq<ScannedEntry>, a: Goal, b: Goal)
    requires IsGoal(p, scanned, a) && IsGoal(p, scanned, b)
    ensures a == b
  {
    forall n | 0 <= n < |scanned| ensures a.entries[n] == b.entries[n] {
      assert GoalEntry(p, scanned, a, n) && GoalEntry(p, scanned, b, n);
    }
    forall m | 0 <= m < |AllSources(scanned)| ensures a.payloads[m] == b.payloads[m] {
      GoalsAgreeAt(p, scanned, a, b, m);
    }
    assert a.payloads == b.payloads;
    forall m | 0 <= m < |AllSources(scanned)| ensures a.restores[m] == b.restores[m] && a.groups[m] == b.groups[m] {
      GoalsAgreeAt(p, scanned, a, b, m);
    }
  }

  function TablesOf(now: Stored): Tables {
    Tables(now.entries, now.groups, now.restores, IndexFor(now.entries), IntegrityFor(now.entries), None)
  }

  lemma {:induction false} GoalIsReached(p: Primitives, scanned: seq<ScannedEntry>, goal: Goal, now: Stored)
    requires IsGoal(p, scanned, goal) && now == Stored(goal.entries, goal.groups, goal.restores, Concat(goal.payloads))
    ensures LayoutOk(scanned, RawLayout(scanned)) && TablesOf(now) == TablesFor(p, scanned, RawLayout(scanned))
    ensures now.payload == Concat(Payloads(p, scanned, RawLayout(scanned)))
  {
    RawLayoutOk(scanned);
    forall n | 0 <= n < |scanned| ensures GoalEntry(p, scanned, RawGoal(p, scanned), n) {
      RawGoalEntry(p, scanned, n);
    }
    GoalIsUnique(p, scanned, goal, RawGoal(p, scanned));
  }

  lemma {:induction false} NothingStored(p: Primitives, scanned: seq<ScannedEntry>, goal: Goal, w: Walk, now: Stored)
    requires |goal.groups| == |goal.restores| == |goal.payloads| && w == Walk([], [], map[], 0)
    requires now == Stored([], [], [], [])
    ensures WalkOk(p, scanned, 0, w) && StoredUpTo(goal, 0, 0, now)
  {
  }

  lemma {:induction false} EverythingStored(p: Primitives, scanned: seq<ScannedEntry>, goal: Goal, w: Walk, now: Stored)
    requires IsGoal(p, scanned, goal)
    requires WalkOk(p, scanned, |scanned|, w) && StoredUpTo(goal, |scanned|, |w.sources|, now)
    ensures LayoutOk(scanned, RawLayout(scanned)) && TablesOf(now) == TablesFor(p, scanned, RawLayout(scanned))
    ensures now.payload == Concat(Payloads(p, scanned, RawLayout(scanned)))
    ensures w.total == OriginalTotal(scanned, |scanned|)
  {
    StoredAll(goal, now);
    GoalIsReached(p, scanned, goal, now);
  }

  lemma {:induction false} GoalPayloads(p: Primitives, scanned: seq<ScannedEntry>, goal: Goal)
    requires IsGoal(p, scanned, goal)
    ensures LayoutOk(scanned, RawLayout(scanned)) && goal.payloads == Payloads(p, scanned, RawLayout(scanned))
  {
    GoalIsReached(p, scanned, goal, Stored(goal.entries, goal.groups, goal.restores, Concat(goal.payloads)));
    RawLayoutOk(scanned);
    forall n | 0 <= n < |scanned| ensures GoalEntry(p, scanned, RawGoal(p, scanned), n) {
      RawGoalEntry(p, scanned, n);
    }
    GoalIsUnique(p, scanned, goal, RawGoal(p, scanned));
  }

  /** The single pass over all entries. */
  method StoreAll(p: Primitives, limits: DecodeLimits, budget: nat, scanned: seq<ScannedEntry>)
    returns (r: Result<(Stored, nat), PithosError>)
    requires ScanOk(p, limits, scanned)
    ensures LayoutOk(scanned, RawLayout(scanned))
    ensures r.Success? ==>
              LayoutOk(scanned, RawLayout(scanned)) && TablesOf(r.value.0) == TablesFor(p, scanned, RawLayout(scanned))
                           && r.value.0.payload == Concat(Payloads(p, scanned, RawLayout(scanned)))
                           && r.value.1 == OriginalTotal(scanned, |scanned|) <= limits.maxOriginalBytes
    ensures r.Failure? ==>
              NeverFits(p, limits, scanned) || RAW_START + |Concat(Payloads(p, scanned, RawLayout(scanned)))| > budget
  {
    RawLayoutOk(scanned);
    ghost var goal := TheGoal(p, scanned);
    GoalPayloads(p, scanned, goal);
    var w, now := Walk([], [], map[], 0), Stored([], [], [], []);
    NothingStored(p, scanned, goal, w, now);
    for n := 0 to |scanned|
      invariant WalkOk(p, scanned, n, w) && w.total <= limits.maxOriginalBytes
      invariant StoredUpTo(goal, n, |w.sources|, now)
    {
      var next := StoreEntry(p, limits, budget, scanned, n, w, now, goal);
      if next.Failure? {
        return Failure(next.error);
      }
      w, now := next.value.0, next.value.1;
    }
    EverythingStored(p, scanned, goal, w, now);
    return Success((now, w.total));
  }

  /** The payload is part of the archive. */
  lemma {:induction false} PayloadWithin(p: Primitives, scanned: seq<ScannedEntry>)
    requires SoundRecords(p)
    ensures LayoutOk(scanned, RawLayout(scanned))
    ensures RAW_START + |Concat(Payloads(p, scanned, RawLayout(scanned)))|
            <= |PackedFile(p, scanned, RawLayout(scanned))|
  {
    RawLayoutOk(scanned);
    var layout := RawLayout(scanned);
    ExpectedLength(p, TablesFor(p, scanned, layout), Concat(Payloads(p, scanned, layout)),
                   OriginalTotal(scanned, |scanned|));
  }

  /** The smaller budget decides, and what the pass refuses could not be within it. */
  lemma {:induction false} OneBudget(p: Primitives, limits: DecodeLimits, budget: PackBudget,
                                     scanned: seq<ScannedEntry>)
    requires SoundRecords(p)
    ensures LayoutOk(scanned, RawLayout(scanned))
    ensures var least, layout := Min(budget.maxTemp, budget.maxOutput), RawLayout(scanned);
      && (WithinBudgets(p, scanned, layout, 0, least, least)
          <==> WithinBudgets(p, scanned, layout, 0, budget.maxOutput, budget.maxTemp))
      && (NeverFits(p, limits, scanned) ==> !PackFits(p, limits, scanned, layout))
      && (RAW_START > least || RAW_START + |Concat(Payloads(p, scanned, layout))| > least ==>
            !WithinBudgets(p, scanned, layout, 0, budget.maxOutput, budget.maxTemp))
  {
    PayloadWithin(p, scanned);
    hide PackedFile, PackFits, RawLayout, Payloads, LayoutOk, Concat, SoundRecords;
  }

  /**
   RAW packing succeeds exactly when the archive of single-file groups fits the reader's limits and the smaller of the
   output and temporary budgets, and returns that archive.
   */
  method PackRawInputs(p: Primitives, limits: DecodeLimits, budget: PackBudget, scanned: seq<ScannedEntry>)
    returns (r: Result<bytes, PithosError>)
    requires SoundCodecs(p) && SoundRecords(p) && SoundTables(p) && ScanOk(p, limits, scanned)
    ensures LayoutOk(scanned, RawLayout(scanned))
    ensures r.Success? <==>
            PackFits(p, limits, scanned, RawLayout(scanned))
            && WithinBudgets(p, scanned, RawLayout(scanned), 0, budget.maxOutput, budget.maxTemp)
    ensures r.Success? ==> r.value == PackedFile(p, scanned, RawLayout(scanned))
  {
    RawLayoutOk(scanned);
    OneBudget(p, limits, budget, scanned);
    hide *;
    var archiveBudget := Min(budget.maxTemp, budget.maxOutput);
    if RAW_START > archiveBudget {
      return Failure(ResourceLimit("archive output"));
    }
    var stored := StoreAll(p, limits, archiveBudget, scanned);
    if stored.Failure? {
      return Failure(stored.error);
    }
    r := FinishArchive(p, limits, scanned, RawLayout(scanned), TablesOf(stored.value.0), stored.value.0.payload,
                       stored.value.1,
                       0, archiveBudget, archiveBudget);
  }
}
