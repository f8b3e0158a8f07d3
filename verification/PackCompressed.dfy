/**
 The compressing pack operation as a whole, and that it produces the one planned archive or refuses it for a stated
 reason.
 */
module PackCompressed {
  import opened Base
  import opened GreedyPartition
  import opened SolidGroups
  import opened ArchiveFormat
  import opened CodecRegistry
  import opened CatalogRules
  import opened SectionRanges
  import opened ArchiveReader
  import opened ArchiveContents
  import opened ArchiveLayout
  import opened PackedTables
  import opened ArchiveRoundTrip
  import opened ArchiveRestore
  import opened ArchiveSpool
  import opened ArchiveWriter
  import opened GroupTasks
  import opened TaskGraph
  import S = TaskScheduler

  // ----- Groups -----

  lemma {:induction false} AssignedAll(p: Primitives, scanned: seq<ScannedEntry>, ends: seq<nat>,
                                       entries: seq<EntryRecord>, restores: seq<RestoreMapRecord>)
    requires Assigned(p, scanned, ends, |AllSources(scanned)|, entries, restores)
    ensures entries == EntriesFor(p, scanned, ends) && restores == RestoresFor(scanned, ends)
  {
    forall i | 0 <= i < |entries| ensures entries[i] == EntryFor(p, scanned, ends, i) {
      assert AssignedAt(p, scanned, ends, |AllSources(scanned)|, entries, i);
      if IsSource(scanned, i) {
        SourceIndexAt(scanned, i, |scanned|);
      }
    }
  }

  lemma {:induction false} NothingAssigned(p: Primitives, scanned: seq<ScannedEntry>, ends: seq<nat>,
                                           entries: seq<EntryRecord>)
    requires |entries| == |scanned| && forall i | 0 <= i < |scanned| :: entries[i] == Placeholder(p, scanned, i)
    ensures Assigned(p, scanned, ends, 0, entries, [])
  {
    forall i | 0 <= i < |entries| ensures AssignedAt(p, scanned, ends, 0, entries, i) {
    }
  }

  method AssignGroups(p: Primitives, scanned: seq<ScannedEntry>, ghost ends: seq<nat>, plans: seq<SolidGroupPlan>,
                      sources: seq<CompressedSource>, placeholders: seq<EntryRecord>)
    returns (r: Result<(seq<EntryRecord>, seq<RestoreMapRecord>), PithosError>)
    requires SourcesListed(scanned, |scanned|, sources) && Partition(ends, |sources|)
    requires PlansParts(plans, Lengths(scanned), ends)
    requires |placeholders| == |scanned|
    requires forall i | 0 <= i < |scanned| :: placeholders[i] == Placeholder(p, scanned, i)
    ensures r.Success? && r.value.0 == EntriesFor(p, scanned, ends) && r.value.1 == RestoresFor(scanned, ends)
  {
    var entries, restores := placeholders, [];
    NothingAssigned(p, scanned, ends, entries);
    for k := 0 to |plans|
      invariant Assigned(p, scanned, ends, Start(ends, k), entries, restores)
    {
      assert PlanAt(plans, Lengths(scanned), ends, k);
      var next := AssignGroup(p, scanned, ends, k, plans[k], sources, entries, restores);
      entries, restores := next.value.0, next.value.1;
    }
    AssignedAll(p, scanned, ends, entries, restores);
    return Success((entries, restores));
  }

  lemma {:induction false} MembersAreJoined(scanned: seq<ScannedEntry>, sources: seq<CompressedSource>, i: nat, j: nat)
    requires SourcesListed(scanned, |scanned|, sources) && i <= j <= |sources|
    ensures MemberBytes(sources[i..j]) == Joined(Contents(scanned), i, j)
  {
    if i < j {
      assert sources[i..j][..j - i - 1] == sources[i..j - 1];
      assert SourceAt(scanned, |scanned|, sources, j - 1);
      MembersAreJoined(scanned, sources, i, j - 1);
    }
  }

  /** The layout that planning and candidate selection determine. */
  ghost predicate Planned(p: Primitives, profile: CompressionProfile, scanned: seq<ScannedEntry>, layout: Layout) {
    && LayoutOk(scanned, layout) && layout.codecs.Some?
    && PlannedParts(profile, Lengths(scanned), layout.ends)
    && forall k | 0 <= k < |layout.ends| :: BestAt(p, profile, scanned, layout, k)
  }

  ghost predicate BestAt(p: Primitives, profile: CompressionProfile, scanned: seq<ScannedEntry>, layout: Layout, k: nat)
    requires k < |layout.ends| && layout.codecs.Some? && |layout.codecs.value| == |layout.ends|
  {
    layout.ends[k] <= |AllSources(scanned)|
    && BestCodec(p, GroupInput(scanned, layout, k), ProfileCodecs(profile), layout.codecs.value[k])
  }

  /** The same inputs and profile always give the same archive. */
  lemma {:induction false} PlannedIsUnique(p: Primitives, profile: CompressionProfile, scanned: seq<ScannedEntry>,
                                           a: Layout, b: Layout)
    requires profile != Raw && Planned(p, profile, scanned, a) && Planned(p, profile, scanned, b)
    ensures a == b
  {
    GreedyIsUnique(Lengths(scanned), SolidGroupTarget(profile), |Lengths(scanned)|, a.ends, b.ends);
    forall k | 0 <= k < |a.ends| ensures a.codecs.value[k] == b.codecs.value[k] {
      assert BestAt(p, profile, scanned, a, k) && BestAt(p, profile, scanned, b, k);
      assert GroupInput(scanned, a, k) == GroupInput(scanned, b, k);
      BestCodecIsUnique(p, GroupInput(scanned, a, k), ProfileCodecs(profile), a.codecs.value[k], b.codecs.value[k]);
    }
    assert a.codecs.value == b.codecs.value;
  }

  lemma {:induction false} CandidatesDistinct(profile: CompressionProfile)
    ensures var c := ProfileCodecs(profile); forall i, j | 0 <= i < j < |c| :: c[i] != c[j]
  {
  }

  lemma {:induction false} SourcesTotal(scanned: seq<ScannedEntry>, n: nat)
    requires n <= |scanned|
    ensures |Sources(scanned, n)| <= |AllSources(scanned)|
    ensures SumRange(Lengths(scanned), 0, |Sources(scanned, n)|) <= OriginalTotal(scanned, n)
  {
    if n > 0 {
      SourcesTotal(scanned, n - 1);
      if IsSource(scanned, n - 1) {
        SourceIndexAt(scanned, n - 1, |scanned|);
      }
    }
  }

  /** A group of one file is as short as a file, a group of several within the target. */
  lemma {:induction false} GroupIsShort(p: Primitives, limits: DecodeLimits, profile: CompressionProfile,
                                        scanned: seq<ScannedEntry>, ends: seq<nat>, k: nat)
    requires profile != Raw && ScanOk(p, limits, scanned) && PlannedParts(profile, Lengths(scanned), ends) && k < |ends|
    ensures PartAt(ends, |AllSources(scanned)|, k)
    ensures |Joined(Contents(scanned), Start(ends, k), ends[k])| == SumRange(Lengths(scanned), Start(ends, k), ends[k])
            <= MAX_VEC_BYTES
  {
    hide ScanOk;
    GreedyIsAdmissible(Lengths(scanned), SolidGroupTarget(profile), |Lengths(scanned)|, ends);
    assert FitsAt(Lengths(scanned), SolidGroupTarget(profile), |Lengths(scanned)|, ends, k);
    JoinedLength(scanned, Start(ends, k), ends[k]);
    if ends[k] == Start(ends, k) + 1 {
      var s := Start(ends, k);
      assert SumRange(Lengths(scanned), s, s + 1) == SumRange(Lengths(scanned), s, s) + Lengths(scanned)[s];
      FileIsShort(p, limits, scanned, s);
    }
  }

  lemma {:induction false} FileIsShort(p: Primitives, limits: DecodeLimits, scanned: seq<ScannedEntry>, s: nat)
    requires ScanOk(p, limits, scanned) && s < |Lengths(scanned)|
    ensures Lengths(scanned)[s] <= MAX_VEC_BYTES
  {
    assert ScannedOk(p, limits, scanned[AllSources(scanned)[s]]);
  }

  /** Every group's task fits the memory budget of the scheduler. */
  ghost predicate GroupsFitMemory(profile: CompressionProfile, lengths: seq<nat>, ends: seq<nat>, budget: nat)
    requires Partition(ends, |lengths|)
  {
    forall k | 0 <= k < |ends| :: GroupFitsMemory(profile, lengths, ends, budget, k)
  }

  predicate GroupFitsMemory(profile: CompressionProfile, lengths: seq<nat>, ends: seq<nat>, budget: nat, k: nat)
    requires k < |ends|
  {
    PartAt(ends, |lengths|, k) ==>
      FitsMemory(ProfileCodecs(profile), SumRange(lengths, Start(ends, k), ends[k]), budget)
  }

  /** The spool files of a layout, in group order. */
  ghost predicate SpoolsHold(p: Primitives, scanned: seq<ScannedEntry>, layout: Layout, spools: seq<S.Spool>)
    requires LayoutOk(scanned, layout)
  {
    layout.codecs.Some? && |spools| == |layout.ends|
    && forall k | 0 <= k < |spools| :: SpoolAt(p, scanned, layout, spools, k)
  }

  predicate SpoolAt(p: Primitives, scanned: seq<ScannedEntry>, layout: Layout, spools: seq<S.Spool>, k: nat)
    requires LayoutOk(scanned, layout) && layout.codecs.Some? && k < |layout.ends| == |spools|
  {
    spools[k].taskId == k && spools[k].payload == Envelope(layout.codecs.value[k], Payloads(p, scanned, layout)[k])
  }

  /** The task built for group `k`. */
  ghost predicate TaskAt(p: Primitives, profile: CompressionProfile, scanned: seq<ScannedEntry>, ends: seq<nat>,
                         tasks: seq<Task>, codecs: seq<CodecId>, payloads: seq<bytes>, k: nat)
    requires k < |tasks| == |codecs| == |payloads| && k < |ends|
  {
    && EncodedAt(p, profile, scanned, ends, k, codecs[k], payloads[k])
    && IsGroupTask(tasks[k], ProfileCodecs(profile), SumRange(Lengths(scanned), Start(ends, k), ends[k]), k, codecs[k],
                   payloads[k])
  }

  /** A group never grows, so its task stays within its output bound. */
  lemma {:induction false} TaskAtSucceeds(p: Primitives, profile: CompressionProfile, scanned: seq<ScannedEntry>,
                                          ends: seq<nat>, tasks: seq<Task>, codecs: seq<CodecId>, payloads: seq<bytes>,
                                          k: nat, config: S.Config)
    requires SoundCodecs(p) && k < |tasks| == |codecs| == |payloads| && k < |ends| && k <= U64_MAX
    requires TaskAt(p, profile, scanned, ends, tasks, codecs, payloads, k)
    ensures S.Outcome(tasks[k]) == Success(S.Spool(k, Envelope(codecs[k], payloads[k])))
    ensures S.Fits(tasks[k], config) <==> GroupFitsMemory(profile, Lengths(scanned), ends, config.memoryBudget, k)
  {
    hide SoundCodecs, BestCodec, IsGroupTask, S.Outcome, S.Fits, FitsMemory;
    var input := Joined(Contents(scanned), Start(ends, k), ends[k]);
    var length := SumRange(Lengths(scanned), Start(ends, k), ends[k]);
    JoinedLength(scanned, Start(ends, k), ends[k]);
    BestNeverGrows(p, input, ProfileCodecs(profile), codecs[k]);
    GroupTaskSucceeds(tasks[k], ProfileCodecs(profile), length, k, codecs[k], payloads[k]);
    GroupTaskFits(tasks[k], ProfileCodecs(profile), length, k, codecs[k], payloads[k], config);
  }

  lemma {:induction false} FitsNoBudget(profile: CompressionProfile, lengths: seq<nat>, ends: seq<nat>, k: nat)
    requires Partition(ends, |lengths|) && k < |ends| && PartAt(ends, |lengths|, k)
    requires forall budget: u64 ::
               !FitsMemory(ProfileCodecs(profile), SumRange(lengths, Start(ends, k), ends[k]), budget)
    ensures forall budget: u64 :: !GroupsFitMemory(profile, lengths, ends, budget)
  {
    hide FitsMemory;
    forall budget: u64 ensures !GroupsFitMemory(profile, lengths, ends, budget) {
      assert !GroupFitsMemory(profile, lengths, ends, budget, k);
    }
  }

  /** The task of one planned group; without cancellation it does nothing but encode the group. */
  method BuildTask(p: Primitives, profile: CompressionProfile, limits: DecodeLimits, scanned: seq<ScannedEntry>,
                   ghost ends: seq<nat>, k: u64, plan: SolidGroupPlan, sources: seq<CompressedSource>)
    returns (r: Result<Task, PithosError>, codec: CodecId, payload: bytes)
    requires profile != Raw && EncodingsAreShort(p) && ScanOk(p, limits, scanned)
    requires SourcesListed(scanned, |scanned|, sources)
    requires PlannedParts(profile, Lengths(scanned), ends) && k < |ends| && PartAt(ends, |Lengths(scanned)|, k)
    requires plan == PlanOf(Lengths(scanned), ends, k)
    ensures EncodedAt(p, profile, scanned, ends, k, codec, payload)
    ensures r.Success? ==>
              IsGroupTask(r.value, ProfileCodecs(profile), SumRange(Lengths(scanned), Start(ends, k), ends[k]), k,
                          codec, payload)
    ensures r.Failure? ==> forall budget: u64 :: !GroupsFitMemory(profile, Lengths(scanned), ends, budget)
  {
    CandidatesDistinct(profile);
    GroupIsShort(p, limits, profile, scanned, ends, k);
    hide BestCodec, Joined, IsGroupTask, ScanOk, EncodingsAreShort, FitsMemory, GroupsFitMemory, ProfileCodecs;
    var first, last := plan.firstItem, plan.firstItem + plan.itemCount;
    MembersAreJoined(scanned, sources, first, last);
    codec, payload := EncodeSolidGroup(p, sources[first..last], ProfileCodecs(profile),
                                       Joined(Contents(scanned), first, last));
    r := GroupTask(k, ProfileCodecs(profile), plan.uncompressedLen, codec, payload);
    if r.Failure? {
      FitsNoBudget(profile, Lengths(scanned), ends, k);
    }
  }

  /** One task per group. */
  method BuildTasks(p: Primitives, profile: CompressionProfile, limits: DecodeLimits, scanned: seq<ScannedEntry>,
                    ghost ends: seq<nat>, plans: seq<SolidGroupPlan>, sources: seq<CompressedSource>)
    returns (r: Result<seq<Task>, PithosError>, ghost codecs: seq<CodecId>, ghost payloads: seq<bytes>)
    requires profile != Raw && EncodingsAreShort(p) && ScanOk(p, limits, scanned)
    requires SourcesListed(scanned, |scanned|, sources)
    requires PlannedParts(profile, Lengths(scanned), ends) && PlansParts(plans, Lengths(scanned), ends)
    requires |ends| <= U64_MAX
    ensures r.Success? ==> |r.value| == |codecs| == |payloads| == |ends|
                           && forall k | 0 <= k < |ends| ::
                                TaskAt(p, profile, scanned, ends, r.value, codecs, payloads, k)
    ensures r.Failure? ==> forall budget: u64 :: !GroupsFitMemory(profile, Lengths(scanned), ends, budget)
  {
    hide PlannedParts, IsGroupTask, ScanOk, EncodingsAreShort, EncodedAt, TaskAt, GroupsFitMemory, ProfileCodecs,
         SourcesListed, Partition;
    codecs, payloads := [], [];
    var tasks: seq<Task> := [];
    for k := 0 to |plans|
      invariant |tasks| == |codecs| == |payloads| == k
      invariant forall g | 0 <= g < k :: TaskAt(p, profile, scanned, ends, tasks, codecs, payloads, g)
    {
      assert PlanAt(plans, Lengths(scanned), ends, k);
      var task, codec, payload := BuildTask(p, profile, limits, scanned, ends, k, plans[k], sources);
      if task.Failure? {
        return Failure(task.error), codecs, payloads;
      }
      OneMoreTask(p, profile, scanned, ends, tasks, codecs, payloads, task.value, codec, payload);
      tasks, codecs, payloads := tasks + [task.value], codecs + [codec], payloads + [payload];
    }
    return Success(tasks), codecs, payloads;
  }

  lemma {:induction false} OneMoreTask(p: Primitives, profile: CompressionProfile, scanned: seq<ScannedEntry>,
                                       ends: seq<nat>, tasks: seq<Task>, codecs: seq<CodecId>, payloads: seq<bytes>,
                                       task: Task, codec: CodecId, payload: bytes)
    requires var k := |tasks|;
      && k == |codecs| == |payloads| && k < |ends| && EncodedAt(p, profile, scanned, ends, k, codec, payload)
      && IsGroupTask(task, ProfileCodecs(profile), SumRange(Lengths(scanned), Start(ends, k), ends[k]), k, codec,
                     payload)
    requires forall g | 0 <= g < |tasks| :: TaskAt(p, profile, scanned, ends, tasks, codecs, payloads, g)
    ensures forall g | 0 <= g < |tasks| + 1 ::
      TaskAt(p, profile, scanned, ends, tasks + [task], codecs + [codec], payloads + [payload], g)
  {
    hide EncodedAt, IsGroupTask;
    forall g | 0 <= g < |tasks| + 1
      ensures TaskAt(p, profile, scanned, ends, tasks + [task], codecs + [codec], payloads + [payload], g) {
      if g < |tasks| {
        assert TaskAt(p, profile, scanned, ends, tasks, codecs, payloads, g);
      }
    }
  }

  /**
   The group tasks, run by the scheduler: one spool file per group, in group order, exactly when every group's
   reservation fits the memory budget; nothing depends on the order in which workers finish.
   */
  method EncodeGroups(p: Primitives, profile: CompressionProfile, limits: DecodeLimits, scanned: seq<ScannedEntry>,
                      ghost ends: seq<nat>, plans: seq<SolidGroupPlan>, sources: seq<CompressedSource>,
                      config: S.Config)
    returns (r: Result<seq<S.Spool>, PithosError>, ghost layout: Layout)
    requires profile != Raw && SoundCodecs(p) && EncodingsAreShort(p) && ScanOk(p, limits, scanned)
    requires SourcesListed(scanned, |scanned|, sources) && config.Valid()
    requires PlannedParts(profile, Lengths(scanned), ends) && PlansParts(plans, Lengths(scanned), ends)
    requires |ends| <= U64_MAX
    ensures r.Success? <==> GroupsFitMemory(profile, Lengths(scanned), ends, config.memoryBudget)
    ensures r.Success? ==>
              layout.ends == ends && Planned(p, profile, scanned, layout) && SpoolsHold(p, scanned, layout, r.value)
  {
    hide SoundCodecs, EncodingsAreShort, ScanOk, Planned, SpoolsHold, TaskAt, S.Outcome, S.Fits, PlannedParts,
         EncodedAt, GroupFitsMemory;
    layout := Layout(ends, None);
    ghost var codecs, payloads;
    var tasks;
    tasks, codecs, payloads := BuildTasks(p, profile, limits, scanned, ends, plans, sources);
    if tasks.Failure? {
      return Failure(tasks.error), layout;
    }
    forall k | 0 <= k < |ends|
      ensures S.Outcome(tasks.value[k]) == Success(S.Spool(k, Envelope(codecs[k], payloads[k])))
      ensures S.Fits(tasks.value[k], config)
              <==> GroupFitsMemory(profile, Lengths(scanned), ends, config.memoryBudget, k)
    {
      TaskAtSucceeds(p, profile, scanned, ends, tasks.value, codecs, payloads, k, config);
    }
    TasksAreNumbered(p, profile, scanned, ends, tasks.value, codecs, payloads);
    r := RunGroupTasks(tasks.value, config);
    if r.Success? {
      layout := Layout(ends, Some(codecs));
      SpooledIsPlanned(p, profile, scanned, ends, tasks.value, codecs, payloads, layout, r.value);
    }
  }

  lemma {:induction false} TasksAreNumbered(p: Primitives, profile: CompressionProfile, scanned: seq<ScannedEntry>,
                                            ends: seq<nat>, tasks: seq<Task>, codecs: seq<CodecId>,
                                            payloads: seq<bytes>)
    requires |tasks| == |codecs| == |payloads| == |ends| <= U64_MAX
    requires forall k | 0 <= k < |ends| :: TaskAt(p, profile, scanned, ends, tasks, codecs, payloads, k)
    requires forall k | 0 <= k < |ends| :: S.Outcome(tasks[k]) == Success(S.Spool(k, Envelope(codecs[k], payloads[k])))
    ensures NumberedTasks(tasks)
  {
    hide EncodedAt, S.Outcome;
    forall k | 0 <= k < |tasks|
      ensures tasks[k].id == k && tasks[k].dependencies == [] && S.Outcome(tasks[k]).Success? {
      assert TaskAt(p, profile, scanned, ends, tasks, codecs, payloads, k);
    }
  }

  lemma {:induction false} SpooledIsPlanned(p: Primitives, profile: CompressionProfile, scanned: seq<ScannedEntry>,
                                            ends: seq<nat>, tasks: seq<Task>, codecs: seq<CodecId>,
                                            payloads: seq<bytes>, layout: Layout, spools: seq<S.Spool>)
    requires PlannedParts(profile, Lengths(scanned), ends) && layout == Layout(ends, Some(codecs))
    requires |tasks| == |codecs| == |payloads| == |ends| == |spools| <= U64_MAX
    requires forall k | 0 <= k < |ends| :: TaskAt(p, profile, scanned, ends, tasks, codecs, payloads, k)
    requires forall k | 0 <= k < |ends| :: S.Outcome(tasks[k]) == Success(S.Spool(k, Envelope(codecs[k], payloads[k])))
    requires forall k | 0 <= k < |ends| :: spools[k] == S.Outcome(tasks[k]).value
    ensures Planned(p, profile, scanned, layout) && SpoolsHold(p, scanned, layout, spools)
  {
    hide S.Outcome, EncodedAt, IsGroupTask, Payloads, Planned;
    forall k | 0 <= k < |ends| ensures EncodedAt(p, profile, scanned, ends, k, codecs[k], payloads[k]) {
      assert TaskAt(p, profile, scanned, ends, tasks, codecs, payloads, k);
    }
    EncodedIsPlanned(p, profile, scanned, ends, codecs, payloads, layout);
    PlannedIsLaidOut(p, profile, scanned, layout);
    forall k | 0 <= k < |spools| ensures SpoolAt(p, scanned, layout, spools, k) {
      assert spools[k] == S.Spool(k, Envelope(codecs[k], payloads[k]));
    }
  }

  lemma {:induction false} PlannedIsLaidOut(p: Primitives, profile: CompressionProfile, scanned: seq<ScannedEntry>,
                                            layout: Layout)
    requires Planned(p, profile, scanned, layout)
    ensures LayoutOk(scanned, layout)
  {
  }

  ghost predicate EncodedAt(p: Primitives, profile: CompressionProfile, scanned: seq<ScannedEntry>, ends: seq<nat>,
                            k: nat, codec: CodecId, payload: bytes)
    requires k < |ends|
  {
    && PartAt(ends, |AllSources(scanned)|, k)
    && var input := Joined(Contents(scanned), Start(ends, k), ends[k]);
       BestCodec(p, input, ProfileCodecs(profile), codec) && payload == p.encode(codec, input)
  }

  lemma {:induction false} EncodedIsPlanned(p: Primitives, profile: CompressionProfile, scanned: seq<ScannedEntry>,
                                            ends: seq<nat>, codecs: seq<CodecId>, payloads: seq<bytes>, layout: Layout)
    requires PlannedParts(profile, Lengths(scanned), ends) && |codecs| == |payloads| == |ends|
    requires layout == Layout(ends, Some(codecs))
    requires forall k | 0 <= k < |ends| :: EncodedAt(p, profile, scanned, ends, k, codecs[k], payloads[k])
    ensures Planned(p, profile, scanned, layout) && payloads == Payloads(p, scanned, layout)
  {
    forall k | 0 <= k < |ends| ensures BestAt(p, profile, scanned, layout, k) {
      assert EncodedAt(p, profile, scanned, ends, k, codecs[k], payloads[k]);
    }
    forall k | 0 <= k < |ends| ensures payloads[k] == Payloads(p, scanned, layout)[k] {
      assert EncodedAt(p, profile, scanned, ends, k, codecs[k], payloads[k]);
    }
  }

  // ----- The group table and the payload area -----

  method GroupRecordFor(p: Primitives, scanned: seq<ScannedEntry>, ghost layout: Layout, plan: SolidGroupPlan, k: nat,
                        codec: CodecId, content: bytes, offset: nat)
    returns (record: GroupRecord)
    requires LayoutOk(scanned, layout) && k < |layout.ends| && layout.codecs.Some? && codec == layout.codecs.value[k]
    requires PartAt(layout.ends, |AllSources(scanned)|, k) && plan == PlanOf(Lengths(scanned), layout.ends, k)
    requires content == Payloads(p, scanned, layout)[k]
    requires offset == StartFor(layout) + BlockStart(Payloads(p, scanned, layout), k)
    ensures record == GroupFor(p, scanned, layout, StartFor(layout), k)
  {
    record := GroupRecord(1, 0, k, CodecNumber(codec) + 1, plan.itemCount, plan.uncompressedLen, |content|, 0,
                          p.crc32c(content), offset);
  }

  /** Records, payload bytes and codec numbers of the first `k` groups. */
  datatype Appended = Appended(groups: seq<GroupRecord>, payload: bytes, used: set<u16>)

  ghost function NumbersOf(codecs: seq<CodecId>): set<u16> {
    set c | c in codecs :: CodecNumber(c)
  }

  ghost predicate AppendedUpTo(all: seq<GroupRecord>, payloads: seq<bytes>, codecs: seq<CodecId>, k: nat, now: Appended)
    requires k <= |all| == |payloads| == |codecs|
  {
    && now.groups == all[..k]
    && now.payload == Concat(payloads[..k])
    && now.used == NumbersOf(codecs[..k])
  }

  lemma {:induction false} AppendOne(all: seq<GroupRecord>, payloads: seq<bytes>, codecs: seq<CodecId>, k: nat,
                                     now: Appended)
    requires k < |all| == |payloads| == |codecs| && AppendedUpTo(all, payloads, codecs, k, now)
    ensures |now.payload| == BlockStart(payloads, k)
    ensures AppendedUpTo(all, payloads, codecs, k + 1,
                         Appended(now.groups + [all[k]], now.payload + payloads[k],
                                  now.used + {CodecNumber(codecs[k])}))
  {
    ConcatNext(payloads, k);
    assert codecs[..k + 1] == codecs[..k] + [codecs[k]];
    assert NumbersOf(codecs[..k + 1]) == NumbersOf(codecs[..k]) + {CodecNumber(codecs[k])};
  }

  lemma {:induction false} AppendedAll(all: seq<GroupRecord>, payloads: seq<bytes>, codecs: seq<CodecId>, now: Appended)
    requires |all| == |payloads| == |codecs| && AppendedUpTo(all, payloads, codecs, |all|, now)
    ensures now == Appended(all, Concat(payloads), NumbersOf(codecs))
  {
    assert payloads[..|payloads|] == payloads && codecs[..|codecs|] == codecs && all[..|all|] == all;
  }

  /** Takes every spool file apart and appends its payload; no spool of the group tasks can be refused. */
  method AppendGroups(p: Primitives, scanned: seq<ScannedEntry>, ghost layout: Layout, plans: seq<SolidGroupPlan>,
                      spools: seq<S.Spool>)
    returns (r: Result<Appended, PithosError>)
    requires LayoutOk(scanned, layout) && SpoolsHold(p, scanned, layout, spools)
    requires PlansParts(plans, Lengths(scanned), layout.ends)
    ensures r == Success(Appended(GroupsFor(p, scanned, layout, StartFor(layout)), Concat(Payloads(p, scanned, layout)),
                                  NumbersOf(layout.codecs.value)))
  {
    hide GroupFor, GroupsFor, Payloads, Envelope;
    var now := Appended([], [], {});
    ghost var all, payloads, codecs := GroupsFor(p, scanned, layout, StartFor(layout)), Payloads(p, scanned, layout),
        layout.codecs.value;
    var start := HEADER_LEN + REQUIRED_COMPRESSED_SECTIONS * SECTION_ENTRY_LEN;
    for k := 0 to |spools|
      invariant AppendedUpTo(all, payloads, codecs, k, now)
    {
      assert SpoolAt(p, scanned, layout, spools, k) && PlanAt(plans, Lengths(scanned), layout.ends, k);
      var encoded := OpenEnvelope(spools[k].payload);
      var (codec, payload) := encoded.value;
      AppendOne(all, payloads, codecs, k, now);
      var record := GroupRecordFor(p, scanned, layout, plans[spools[k].taskId], k, codec, payload,
                                   start + |now.payload|);
      now := Appended(now.groups + [record], now.payload + payload, now.used + {CodecNumber(codec)});
    }
    AppendedAll(all, payloads, codecs, now);
    return Success(now);
  }

  /** The records are those of exactly these codecs, by rising chain id. */
  ghost predicate ListsCodecs(records: seq<RegistryRecord>, codecs: seq<CodecId>) {
    && (forall c :: c in codecs <==> CodecRecord(c) in records)
    && (forall r | r in records :: exists c :: r == CodecRecord(c))
    && (forall i, j | 0 <= i < j < |records| :: records[i].chainId < records[j].chainId)
  }

  /** The registry of the codecs with a number below `n`. */
  function RegistryBelow(codecs: seq<CodecId>, n: nat): seq<RegistryRecord> {
    (if Store in codecs && 0 < n then [CodecRecord(Store)] else [])
    + (if Zstd in codecs && 1 < n then [CodecRecord(Zstd)] else [])
    + (if Brotli in codecs && 2 < n then [CodecRecord(Brotli)] else [])
    + (if Lzma2 in codecs && 3 < n then [CodecRecord(Lzma2)] else [])
  }

  lemma {:induction false} UsedNumber(codecs: seq<CodecId>, n: nat)
    ensures n in NumbersOf(codecs) ==> n < 4 && CodecFromNumber(n).Some? && CodecFromNumber(n).value in codecs
    ensures n in NumbersOf(codecs) ==>
              RegistryBelow(codecs, n + 1) == RegistryBelow(codecs, n) + [CodecRecord(CodecFromNumber(n).value)]
    ensures n !in NumbersOf(codecs) ==> RegistryBelow(codecs, n + 1) == RegistryBelow(codecs, n)
  {
    if n !in NumbersOf(codecs) && n < 4 {
      var c := CodecFromNumber(n).value;
      assert CodecNumber(c) == n;
      assert c !in codecs;
    }
  }

  /** Which records stand in the registry. */
  lemma {:induction false} RegistryHolds(codecs: seq<CodecId>, r: RegistryRecord)
    ensures r in RegistryFor(codecs) <==> exists c :: c in codecs && r == CodecRecord(c)
  {
    hide CodecRecord;
    if c :| c in codecs && r == CodecRecord(c) {
      match c
      case Store =>
      case Zstd =>
      case Brotli =>
      case Lzma2 =>
    }
  }

  lemma {:induction false} RecordsDiffer(c: CodecId, d: CodecId)
    requires CodecRecord(c) == CodecRecord(d)
    ensures c == d
  {
  }

  lemma {:induction false} RegistryRises(codecs: seq<CodecId>)
    ensures var records := RegistryFor(codecs);
      forall i, j | 0 <= i < j < |records| :: records[i].chainId < records[j].chainId
  {
  }

  lemma {:induction false} RegistryLists(codecs: seq<CodecId>)
    ensures ListsCodecs(RegistryFor(codecs), codecs)
  {
    RegistryRises(codecs);
    hide RegistryFor, CodecRecord;
    forall c ensures c in codecs <==> CodecRecord(c) in RegistryFor(codecs) {
      RegistryHolds(codecs, CodecRecord(c));
      if d :| d in codecs && CodecRecord(c) == CodecRecord(d) {
        RecordsDiffer(c, d);
      }
    }
    forall r | r in RegistryFor(codecs) ensures exists c :: r == CodecRecord(c) {
      RegistryHolds(codecs, r);
    }
  }

  /**
   The used codecs in rising order of their numbers. A reader takes this registry, finds every used codec in it under
   the chain id the groups carry, and no codec that is not used.
   */
  method BuildRegistry(used: set<u16>, ghost codecs: seq<CodecId>) returns (r: Result<seq<RegistryRecord>, PithosError>)
    requires used == NumbersOf(codecs)
    ensures r.Success? && RegistryOk(r.value) && ListsCodecs(r.value, codecs)
    ensures forall c | c in codecs :: Chain(r.value, CodecNumber(c) + 1) == Some(CodecRecord(c))
    ensures r.value == RegistryFor(codecs)
  {
    var records := [];
    for number := 0 to U16_MAX + 1
      invariant records == RegistryBelow(codecs, number)
    {
      UsedNumber(codecs, number);
      if number in used {
        match CodecFromNumber(number) {
          case None => return Failure(UnsupportedCodec);
          case Some(codec) => records := records + [CodecRecord(codec)];
        }
      }
    }
    PackedRegistryOk(codecs);
    RegistryLists(codecs);
    forall c | c in codecs ensures Chain(records, CodecNumber(c) + 1) == Some(CodecRecord(c)) {
      ChainOf(codecs, c);
    }
    return Success(records);
  }

  // ----- Finishing an archive -----

  lemma {:induction false} TooMuchMetadata(p: Primitives, limits: DecodeLimits, scanned: seq<ScannedEntry>,
                                           layout: Layout, t: Tables)
    requires LayoutOk(scanned, layout) && t == TablesFor(p, scanned, layout)
    requires MetadataSum(Metadata(p, t), |Metadata(p, t)|) > limits.maxMetadataBytes
    ensures !PackFits(p, limits, scanned, layout)
  {
    var payload := Concat(Payloads(p, scanned, layout));
    ReaderAddsDirectory(p, t, payload, HeaderFor(p, t, payload, OriginalTotal(scanned, |scanned|)));
  }

  lemma {:induction false} VerifiedOnlyIfFits(p: Primitives, limits: DecodeLimits, scanned: seq<ScannedEntry>,
                                              layout: Layout, c: Catalog)
    requires SoundCodecs(p) && SoundRecords(p) && SoundTables(p) && ScanOk(p, limits, scanned)
    requires LayoutOk(scanned, layout)
    requires OriginalTotal(scanned, |scanned|) <= U64_MAX && Verified(p, PackedFile(p, scanned, layout), limits, c)
    ensures PackFits(p, limits, scanned, layout)
  {
    PackedVerifies(p, limits, scanned, layout);
  }

  lemma {:induction false} FitsIsVerified(p: Primitives, limits: DecodeLimits, scanned: seq<ScannedEntry>,
                                          layout: Layout)
    requires SoundCodecs(p) && SoundRecords(p) && SoundTables(p) && ScanOk(p, limits, scanned)
    requires LayoutOk(scanned, layout)
    requires PackFits(p, limits, scanned, layout)
    ensures exists c :: Verified(p, PackedFile(p, scanned, layout), limits, c)
  {
    PackedVerifies(p, limits, scanned, layout);
  }

  /** The archive and the spool files beside it stay within the output and temporary budgets. */
  predicate WithinBudgets(p: Primitives, scanned: seq<ScannedEntry>, layout: Layout, spooled: nat, maxOutput: nat,
                          maxTemp: nat)
    requires LayoutOk(scanned, layout)
  {
    |PackedFile(p, scanned, layout)| <= maxOutput && spooled + |PackedFile(p, scanned, layout)| <= maxTemp
  }

  /** The length the writer expects before it writes the metadata is that of the finished archive. */
  lemma {:induction false} ExpectedLength(p: Primitives, t: Tables, payload: bytes, total: nat)
    requires SoundRecords(p)
    ensures |Assemble(p, t, payload, total)|
            == PayloadOffset(t) + |payload| + MetadataSum(Metadata(p, t), |Metadata(p, t)|) + FOOTER_LEN
  {
    PartLengths(p, t, payload, total);
    BodyLength(p, t, payload, |Metadata(p, t)|);
    ConcatLength(Body(p, t, payload));
  }

  lemma {:induction false} BodyLength(p: Primitives, t: Tables, payload: bytes, n: nat)
    requires n <= |Metadata(p, t)|
    ensures |Body(p, t, payload)| == |Metadata(p, t)| + 1
    ensures BlockStart(Body(p, t, payload), n + 1) == |payload| + MetadataSum(Metadata(p, t), n)
  {
    if n > 0 {
      BodyLength(p, t, payload, n - 1);
    } else {
      assert BlockStart(Body(p, t, payload), 1) == BlockStart(Body(p, t, payload), 0) + |Body(p, t, payload)[0]|;
    }
  }

  /** The size checks, the spool file, and the full verification that every pack ends with. */
  method FinishArchive(p: Primitives, limits: DecodeLimits, ghost scanned: seq<ScannedEntry>, ghost layout: Layout,
                       t: Tables, payload: bytes, total: nat, spooled: nat, maxOutput: nat, maxTemp: nat)
    returns (r: Result<bytes, PithosError>)
    requires SoundCodecs(p) && SoundRecords(p) && SoundTables(p) && ScanOk(p, limits, scanned)
    requires LayoutOk(scanned, layout)
    requires t == TablesFor(p, scanned, layout) && payload == Concat(Payloads(p, scanned, layout))
    requires total == OriginalTotal(scanned, |scanned|) <= U64_MAX
    ensures r.Success?
            <==> PackFits(p, limits, scanned, layout) && WithinBudgets(p, scanned, layout, spooled, maxOutput, maxTemp)
    ensures r.Success? ==> r.value == PackedFile(p, scanned, layout)
  {
    hide TablesFor, Payloads, ScanOk, SoundCodecs, SoundRecords, SoundTables, Assemble;
    var metadata := CheckMetadata(Metadata(p, t), limits);
    if metadata.Failure? {
      TooMuchMetadata(p, limits, scanned, layout, t);
      return Failure(metadata.error);
    }
    ExpectedLength(p, t, payload, total);
    var expected := PayloadOffset(t) + |payload| + metadata.value + FOOTER_LEN;
    if expected > U64_MAX {
      return Failure(IntegerOverflow);
    }
    if expected > maxOutput {
      return Failure(ResourceLimit("archive output"));
    }
    if spooled + expected > maxTemp {
      return Failure(PithosError.TemporarySpaceLimit);
    }
    var file := WriteArchive(p, t, payload, total);
    var verified := VerifyOpenFile(p, file, limits);
    if verified.Failure? {
      if PackFits(p, limits, scanned, layout) {
        FitsIsVerified(p, limits, scanned, layout);
      }
      return Failure(verified.error);
    }
    VerifiedOnlyIfFits(p, limits, scanned, layout, verified.value);
    return Success(file);
  }

  // ----- The whole operation -----

  lemma {:induction false} LengthIsWithinTotal(scanned: seq<ScannedEntry>, k: nat)
    requires k < |Lengths(scanned)|
    ensures Lengths(scanned)[k] <= OriginalTotal(scanned, |scanned|)
  {
    SourcesTotal(scanned, |scanned|);
    SumWithin(Lengths(scanned), 0, k, k + 1, |Lengths(scanned)|);
    assert SumRange(Lengths(scanned), k, k + 1) == Lengths(scanned)[k];
  }

  method SourceLengths(scanned: seq<ScannedEntry>, sources: seq<CompressedSource>) returns (lengths: seq<u64>)
    requires SourcesListed(scanned, |scanned|, sources) && OriginalTotal(scanned, |scanned|) <= U64_MAX
    ensures lengths == Lengths(scanned)
  {
    lengths := [];
    for k := 0 to |sources|
      invariant |lengths| == k && forall i | 0 <= i < k :: lengths[i] == Lengths(scanned)[i]
    {
      assert SourceAt(scanned, |scanned|, sources, k);
      LengthIsWithinTotal(scanned, k);
      lengths := lengths + [sources[k].size];
    }
  }

  /** Bytes of the spool files: two for the codec before every payload. */
  function SpooledBytes(p: Primitives, scanned: seq<ScannedEntry>, layout: Layout): nat
    requires LayoutOk(scanned, layout)
  {
    |Concat(Payloads(p, scanned, layout))| + 2 * |layout.ends|
  }

  function SpoolTotal(spools: seq<S.Spool>, n: nat): nat
    requires n <= |spools|
  {
    if n == 0 then 0 else SpoolTotal(spools, n - 1) + |spools[n - 1].payload|
  }

  lemma {:induction false} SpoolTotalIs(p: Primitives, scanned: seq<ScannedEntry>, layout: Layout, spools: seq<S.Spool>,
                                        n: nat)
    requires LayoutOk(scanned, layout) && SpoolsHold(p, scanned, layout, spools) && n <= |spools|
    ensures SpoolTotal(spools, n) == BlockStart(Payloads(p, scanned, layout), n) + 2 * n
  {
    hide Payloads;
    if n > 0 {
      SpoolTotalIs(p, scanned, layout, spools, n - 1);
      assert SpoolAt(p, scanned, layout, spools, n - 1);
    }
  }

  method SpooledLength(p: Primitives, ghost scanned: seq<ScannedEntry>, ghost layout: Layout, spools: seq<S.Spool>)
    returns (total: nat)
    requires LayoutOk(scanned, layout) && SpoolsHold(p, scanned, layout, spools)
    ensures total == SpooledBytes(p, scanned, layout)
  {
    total := 0;
    for k := 0 to |spools|
      invariant total == SpoolTotal(spools, k)
    {
      total := total + |spools[k].payload|;
    }
    SpoolTotalIs(p, scanned, layout, spools, |spools|);
    ConcatLength(Payloads(p, scanned, layout));
  }

  datatype PackBudget = PackBudget(maxMemory: u64, maxTemp: u64, maxOutput: u64) {
    /** Scheduler memory: at least one byte, at most two gibibytes. */
    function Memory(): u64 {
      if maxMemory < 1 then 1 else if maxMemory > 2048 * MIB then 2048 * MIB else maxMemory
    }
  }

  /** What the writer itself checks before it hands the archive to the verification, apart from the walk. */
  ghost predicate WriterAccepts(p: Primitives, profile: CompressionProfile, limits: DecodeLimits, budget: PackBudget,
                                scanned: seq<ScannedEntry>, layout: Layout)
    requires LayoutOk(scanned, layout)
  {
    var t := TablesFor(p, scanned, layout);
    && GroupsFitMemory(profile, Lengths(scanned), layout.ends, budget.Memory())
    && MetadataSum(Metadata(p, t), |Metadata(p, t)|) <= limits.maxMetadataBytes
    && WithinBudgets(p, scanned, layout, SpooledBytes(p, scanned, layout), budget.maxOutput, budget.maxTemp)
  }

  /** The conditions under which packing returns the archive of this layout. */
  ghost predicate PackSucceeds(p: Primitives, profile: CompressionProfile, limits: DecodeLimits, budget: PackBudget,
                               scanned: seq<ScannedEntry>, layout: Layout)
    requires LayoutOk(scanned, layout)
  {
    && PackFits(p, limits, scanned, layout)
    && GroupsFitMemory(profile, Lengths(scanned), layout.ends, budget.Memory())
    && WithinBudgets(p, scanned, layout, SpooledBytes(p, scanned, layout), budget.maxOutput, budget.maxTemp)
  }

  /**
   Packing with a compressing profile succeeds exactly when the planned archive fits the reader's limits, its groups the
   memory budget, and its files the output and temporary budgets; it then returns that archive. Planning cannot fail and
   depends on nothing but the inputs.
   */
  method PackInputs(p: Primitives, profile: CompressionProfile, limits: DecodeLimits, budget: PackBudget, workers: nat,
                    scanned: seq<ScannedEntry>)
    returns (r: Result<bytes, PithosError>, ghost layout: Layout)
    requires profile != Raw && SoundCodecs(p) && SoundRecords(p) && SoundTables(p) && EncodingsAreShort(p)
    requires ScanOk(p, limits, scanned)
    requires 1 <= workers <= 8
    ensures r.Success? ==>
              Planned(p, profile, scanned, layout) && PackSucceeds(p, profile, limits, budget, scanned, layout)
              && r.value == PackedFile(p, scanned, layout)
    ensures r.Failure? ==>
              forall l | Planned(p, profile, scanned, l) :: !PackSucceeds(p, profile, limits, budget, scanned, l)
  {
    layout := Layout([], None);
    var walk := WalkInputs(p, limits, scanned);
    if walk.Failure? {
      return Failure(walk.error), layout;
    }
    var w := walk.value;
    var lengths := SourceLengths(scanned, w.sources);
    SourcesTotal(scanned, |scanned|);
    NoOverflowWithin64Bits(profile, lengths);
    var plans, ends := PlanSolidGroups(profile, lengths);
    r, layout := PackPlanned(p, profile, limits, budget, workers, scanned, ends, plans.value, w);
  }

  /** Groups are planned from the lengths alone. */
  lemma {:induction false} PlannedEnds(p: Primitives, profile: CompressionProfile, scanned: seq<ScannedEntry>,
                                       ends: seq<nat>)
    requires profile != Raw && PlannedParts(profile, Lengths(scanned), ends)
    ensures forall l | Planned(p, profile, scanned, l) :: l.ends == ends
  {
    forall l | Planned(p, profile, scanned, l) ensures l.ends == ends {
      GreedyIsUnique(Lengths(scanned), SolidGroupTarget(profile), |Lengths(scanned)|, l.ends, ends);
    }
  }

  lemma {:induction false} FewGroups(profile: CompressionProfile, scanned: seq<ScannedEntry>, ends: seq<nat>)
    requires PlannedParts(profile, Lengths(scanned), ends)
    ensures |ends| <= |scanned|
  {
    if ends != [] {
      EndsAtLeast(ends, |Lengths(scanned)|, |ends| - 1);
      assert PartAt(ends, |Lengths(scanned)|, |ends| - 1);
    }
  }

  method PackPlanned(p: Primitives, profile: CompressionProfile, limits: DecodeLimits, budget: PackBudget, workers: nat,
                     scanned: seq<ScannedEntry>, ghost ends: seq<nat>, plans: seq<SolidGroupPlan>, w: Walk)
    returns (r: Result<bytes, PithosError>, ghost layout: Layout)
    requires profile != Raw && SoundCodecs(p) && SoundRecords(p) && SoundTables(p) && EncodingsAreShort(p)
    requires ScanOk(p, limits, scanned)
    requires 1 <= workers <= 8 && WalkOk(p, scanned, |scanned|, w) && w.total <= U64_MAX
    requires PlannedParts(profile, Lengths(scanned), ends) && PlansParts(plans, Lengths(scanned), ends)
    ensures r.Success? ==>
              Planned(p, profile, scanned, layout) && PackSucceeds(p, profile, limits, budget, scanned, layout)
              && r.value == PackedFile(p, scanned, layout)
    ensures r.Failure? ==>
              forall l | Planned(p, profile, scanned, l) :: !PackSucceeds(p, profile, limits, budget, scanned, l)
  {
    hide SoundCodecs, SoundRecords, SoundTables, EncodingsAreShort, PackFits, WithinBudgets, SpoolsHold, PlansParts;
    hide EntriesFor, RestoresFor, GroupsFor, IndexFor, IntegrityFor, Payloads, RegistryFor, SpooledBytes,
         GroupsFitMemory;
    FewGroups(profile, scanned, ends);
    PlannedEnds(p, profile, scanned, ends);
    var grouped := AssignGroups(p, scanned, ends, plans, w.sources, w.entries);
    var (entries, restores) := grouped.value;
    var spools;
    spools, layout := EncodeGroups(p, profile, limits, scanned, ends, plans, w.sources,
                                   S.Config(workers, budget.Memory()));
    if spools.Failure? {
      return Failure(spools.error), layout;
    }
    var appended := AppendGroups(p, scanned, layout, plans, spools.value);
    var records := BuildRegistry(appended.value.used, layout.codecs.value);
    var t := Tables(entries, appended.value.groups, restores, IndexFor(entries), IntegrityFor(entries),
                    Some(records.value));
    var spooled := SpooledLength(p, scanned, layout, spools.value);
    r := FinishArchive(p, limits, scanned, layout, t, appended.value.payload, w.total, spooled, budget.maxOutput,
                       budget.maxTemp);
    if r.Failure? {
      forall l | Planned(p, profile, scanned, l) ensures l == layout {
        PlannedIsUnique(p, profile, scanned, l, layout);
      }
    }
  }
}
