/**
 When a replayed answer is safe: exactly when the synced snapshot already holds its key. Otherwise a power loss can take
 the answer back, and such an answer does occur: two failed directory syncs in a row lead to one.
 */
module JobReplayLoss {
  import opened Base
  import opened JobIds
  import opened JobStore
  import opened JobRegistry
  import opened JobRuns

  const SYNCED: JobRegistry.Io := JobRegistry.Io.Io(true, true, true)
  const UNSYNCED: JobRegistry.Io := JobRegistry.Io.Io(true, true, false)

  predicate Usable(sub: Submission) {
    WellFormed(sub) && ValidIdempotencyKey(sub.key)
  }

  function NoFile(): Identify {
    (path: string) => None
  }

  // ----- Extending a path -----

  ghost predicate Ends(run: Run, r: Registry) {
    SoundPath(run) && run.states[|run.calls|] == r
  }

  ghost predicate Extends(run: Run, next: Run) {
    run.states <= next.states && run.calls <= next.calls
  }

  lemma {:induction false} OneMoreCall(run: Run, r: Registry, call: Call) returns (next: Run)
    requires Ends(run, r) && Enabled(r, call)
    ensures next.calls == run.calls + [call] && next.states == run.states + [Apply(r, call)]
    ensures Ends(next, Apply(r, call)) && Extends(run, next) && Sound(Apply(r, call))
    ensures IsRun(run) ==> IsRun(next)
  {
    hide Apply, Enabled, Sound, Fresh;
    next := Run(run.states + [Apply(r, call)], run.calls + [call]);
    forall n | 0 <= n < |next.calls| ensures CallAt(next, n) {
      assert n < |run.calls| ==> CallAt(run, n);
    }
    PathStaysSound(next, |next.calls|);
  }

  // ----- Restarts -----

  /** No unfinished job has used up its event numbers, so a restart can finish all of them. */
  predicate Restorable(s: PersistentState) {
    forall id {:trigger s.jobs[id]} | id in s.jobs :: s.jobs[id].state.IsTerminal() || s.jobs[id].nextSequence < U64_MAX
  }

  lemma {:induction false} RestorableRecovers(s: PersistentState, policy: Policy)
    requires Restorable(s)
    ensures RecoversAll(TrimState(s, policy), NoFile(), policy, 0)
  {
    forall id | id in s.jobs ensures RecoverJob(TrimState(s, policy).jobs[id], NoFile(), policy, 0).Success? {
      assert s.jobs[id].state.IsTerminal() || s.jobs[id].nextSequence < U64_MAX;
    }
  }

  lemma {:induction false} ReloadRecovers(s: PersistentState, policy: Policy)
    requires policy.Valid() && GoodState(s) && RecoversAll(TrimState(s, policy), NoFile(), policy, 0)
    requires |s.jobs| <= policy.maxJobs
    ensures var recovered := RecoverState(TrimState(s, policy), NoFile(), policy, 0);
      Reload(s, policy, NoFile(), 0)
        == Success((recovered, NeedsTrim(s, policy) || HasNonterminal(TrimState(s, policy))))
  {
    hide ValidJob, RecoverJob, RecoverState, RecoversAll, TrimState, Follows, NeedsTrim, HasNonterminal;
    RecoveredFollows(s, NoFile(), policy, 0);
  }

  /** A restart finishes every job and keeps the index and the id counter. */
  lemma {:induction false} RestorableReloads(s: PersistentState, policy: Policy) returns (recovered: PersistentState)
    requires policy.Valid() && GoodState(s) && Restorable(s) && |s.jobs| <= policy.maxJobs
    ensures Reload(s, policy, NoFile(), 0)
            == Success((recovered, NeedsTrim(s, policy) || HasNonterminal(TrimState(s, policy))))
    ensures recovered.idempotency == s.idempotency && recovered.nextJob == s.nextJob && |recovered.jobs| == |s.jobs|
    ensures Follows(s, recovered) && Reload(recovered, policy, NoFile(), 0) == Success((recovered, false))
  {
    hide ValidJob, RecoverJob, Follows, Reload, RecoversAll, Restorable, GoodState;
    RestorableRecovers(s, policy);
    ReloadRecovers(s, policy);
    RecoveredFollows(s, NoFile(), policy, 0);
    recovered := RecoverState(TrimState(s, policy), NoFile(), policy, 0);
    assert recovered.jobs.Keys == s.jobs.Keys;
    assert |recovered.jobs| == |recovered.jobs.Keys| && |s.jobs| == |s.jobs.Keys|;
    ReloadIsIdempotent(s, policy, NoFile(), 0, NoFile(), 0);
  }

  predicate Serving(r: Registry, s: PersistentState, policy: Policy) {
    r.up && r.healthy && !r.closed && r.mem == s && r.policy == policy
  }

  /** A power loss back to the synced snapshot, and a restart with the disk working again. */
  lemma {:induction false} BackToSynced(run: Run, r: Registry, policy: Policy) returns (next: Run, r': Registry)
    requires Ends(run, r) && Sound(r) && policy.Valid()
    requires var s := r.published[r.durable]; Restorable(s) && |s.jobs| <= policy.maxJobs
    ensures Ends(next, r') && Extends(run, next) && |next.calls| == |run.calls| + 1 && Sound(r')
    ensures IsRun(run) ==> IsRun(next)
    ensures Serving(r', r'.mem, policy)
    ensures var s := r.published[r.durable];
      r'.mem.idempotency == s.idempotency && r'.mem.nextJob == s.nextJob && |r'.mem.jobs| == |s.jobs|
  {
    hide Reload, Restorable, GoodState, Follows, IsRun, Ends, Extends, Fresh, FollowsAt;
    var s := r.published[r.durable];
    assert GoodState(s);
    var recovered := RestorableReloads(s, policy);
    var call := DoReopen(r.durable, true, policy, NoFile(), 0, SYNCED);
    r' := Apply(r, call);
    next := OneMoreCall(run, r, call);
  }

  /** A restart after a failed commit sync, whose own sync fails too: what it recovered is published, but not synced. */
  lemma {:induction false} RestartFailsToSync(run: Run, r: Registry, policy: Policy, recovered: PersistentState)
    returns (next: Run, r': Registry)
    requires Ends(run, r) && Sound(r) && policy.Valid()
    requires Reload(Newest(r.published), policy, NoFile(), 0) == Success((recovered, true))
    ensures Ends(next, r') && Extends(run, next) && |next.calls| == |run.calls| + 1 && Sound(r')
    ensures IsRun(run) ==> IsRun(next)
    ensures !r'.up && r'.published == r.published + [recovered] && r'.durable == r.durable
  {
    hide Reload, IsRun, Ends, Extends, GoodHistory;
    var call := DoReopen(|r.published| - 1, false, policy, NoFile(), 0, UNSYNCED);
    assert r.published[..|r.published|] == r.published;
    r' := Apply(r, call);
    next := OneMoreCall(run, r, call);
  }

  /** A restart that finds nothing to do serves the newest snapshot and syncs nothing. */
  lemma {:induction false} RestartFindsNothing(run: Run, r: Registry, policy: Policy) returns (next: Run, r': Registry)
    requires Ends(run, r) && Sound(r) && policy.Valid()
    requires Reload(Newest(r.published), policy, NoFile(), 0) == Success((Newest(r.published), false))
    ensures Ends(next, r') && Extends(run, next) && |next.calls| == |run.calls| + 1 && Sound(r')
    ensures IsRun(run) ==> IsRun(next)
    ensures Serving(r', Newest(r.published), policy) && r'.published == r.published && r'.durable == r.durable
  {
    hide Reload, IsRun, Ends, Extends, GoodHistory;
    var call := DoReopen(|r.published| - 1, false, policy, NoFile(), 0, SYNCED);
    assert r.published[..|r.published|] == r.published;
    r' := Apply(r, call);
    next := OneMoreCall(run, r, call);
  }

  // ----- Submissions -----

  lemma {:induction false} ActiveJobsAreJobs(s: PersistentState, owner: string)
    ensures |ActiveJobs(s, owner)| <= |s.jobs|
  {
    SubsetHasNoMore(ActiveJobs(s, owner), s.jobs.Keys);
    assert |s.jobs.Keys| == |s.jobs|;
  }

  function Ask(r: Registry, sub: Submission, io: JobRegistry.Io): Call {
    DoSubmit(sub, |r.mem.jobs| + 1, 0, io)
  }

  predicate HasRoom(r: Registry) {
    |r.mem.jobs| < r.policy.maxJobs && r.mem.nextJob < U64_MAX
  }

  /** What a commit of a new request makes of the registry. */
  lemma {:induction false} NewRequestCommits(r: Registry, sub: Submission, io: JobRegistry.Io)
    requires Sound(r) && Serving(r, r.mem, r.policy) && HasRoom(r) && Usable(sub)
    requires MapKey(sub.owner, sub.key) !in r.mem.idempotency
    requires io.encodes && io.publishes
    ensures var (r', answer) := Submit(r, sub, |r.mem.jobs| + 1, 0, io); var s := Admit(r.mem, sub, r.policy, 0);
      && r' == r.(mem := s, published := r.published + [s],
                  durable := if io.syncs then |r.published| else r.durable, healthy := io.syncs)
      && (io.syncs ==> answer == Success(Accepted(FormatJobId(r.mem.nextJob), Queued, false)))
  {
    hide ValidState, Retained, ValidJob, Admit, ActiveJobs, MapKey, GoodHistory, WellFormed;
    MemIsGood(r);
    ActiveJobsAreJobs(r.mem, sub.owner);
    AdmitKeepsState(r.mem, sub, r.policy, 0);
  }

  /** The job was made for this request. */
  predicate Asks(job: StoredJob, sub: Submission) {
    job.paramsHash == sub.paramsHash && job.rpcMethod == sub.rpcMethod && job.priority == sub.priority
  }

  /** The job waits, with one event. */
  predicate Waits(job: StoredJob, id: string) {
    job.state == Queued && job.nextSequence == 2 && job.jobId == id
  }

  /** `t` is `s` and one queued job under the next id. */
  predicate Admitted(s: PersistentState, sub: Submission, t: PersistentState)
    requires s.nextJob < U64_MAX
  {
    var id := FormatJobId(s.nextJob);
    && t.nextJob == s.nextJob + 1 && |t.jobs| == |s.jobs| + 1
    && t.idempotency == s.idempotency[MapKey(sub.owner, sub.key) := id]
    && id !in s.jobs && id in t.jobs && t.jobs == s.jobs[id := t.jobs[id]] && Waits(t.jobs[id], id)
    && Asks(t.jobs[id], sub)
  }

  lemma {:induction false} AdmitFields(s: PersistentState, sub: Submission, policy: Policy)
    requires policy.Valid() && ValidState(s) && s.nextJob < U64_MAX
    requires ValidIdempotencyKey(sub.key) && MapKey(sub.owner, sub.key) !in s.idempotency
    ensures Admitted(s, sub, Admit(s, sub, policy, 0))
  {
    hide FormatJobId, ParseJobNumber, MapKey, ValidState, ValidIdempotencyKey;
    FreshId(s);
    assert |Admit(s, sub, policy, 0).jobs| == |s.jobs| + 1 by {
      hide Admit;
      AdmitIndexes(s, sub, policy, 0);
    }
  }

  lemma {:induction false} MemoryIsValid(r: Registry)
    requires Sound(r) && r.up
    ensures ValidState(r.mem) && r.policy.Valid()
  {
    MemIsGood(r);
  }

  /** A new request gets the next id. */
  lemma {:induction false} ThenAdmits(run: Run, r: Registry, sub: Submission) returns (next: Run, r': Registry)
    requires Ends(run, r) && Sound(r) && Serving(r, r.mem, r.policy) && HasRoom(r) && Usable(sub)
    requires MapKey(sub.owner, sub.key) !in r.mem.idempotency
    ensures Ends(next, r') && Extends(run, next) && |next.calls| == |run.calls| + 1 && Sound(r')
    ensures IsRun(run) ==> IsRun(next)
    ensures Serving(r', r'.mem, r.policy) && Admitted(r.mem, sub, r'.mem)
    ensures Acknowledges(next, |run.calls|, sub.owner, sub.key, FormatJobId(r.mem.nextJob))
  {
    hide Submit, Admit, Admitted, IsRun, Extends, Sound, FormatJobId, MapKey, WellFormed;
    NewRequestCommits(r, sub, SYNCED);
    MemoryIsValid(r);
    AdmitFields(r.mem, sub, r.policy);
    r' := Apply(r, Ask(r, sub, SYNCED));
    next := OneMoreCall(run, r, Ask(r, sub, SYNCED));
  }

  // ----- An answer from an unsynced snapshot can be taken back -----

  /** The request a job was made for. */
  function RequestOf(job: StoredJob): Submission
    requires ValidIdentifier(job.owner, "session-")
  {
    Submission(job.owner, job.rpcMethod, job.priority, job.key, job.paramsHash, job.limits, job.operation)
  }

  /** The same retention, with room for two more jobs. */
  function WithRoom(policy: Policy, s: PersistentState): Policy {
    policy.(maxJobs := if policy.maxJobs < |s.jobs| + 2 then |s.jobs| + 2 else policy.maxJobs)
  }

  lemma {:induction false} DurableIsPublished(r: Registry)
    requires Sound(r)
    ensures r.durable < |r.published| && r.policy.Valid()
  {
  }

  /** If this id would be the next, another request takes it. */
  lemma {:induction false} PassesOver(run: Run, r: Registry, sub: Submission, other: Submission, id: string)
    returns (next: Run, r': Registry)
    requires Ends(run, r) && Sound(r) && Serving(r, r.mem, r.policy)
    requires Usable(other) && |r.mem.jobs| + 2 <= r.policy.maxJobs && r.mem.nextJob + 1 < U64_MAX
    requires MapKey(sub.owner, sub.key) !in r.mem.idempotency && MapKey(other.owner, other.key) !in r.mem.idempotency
    requires MapKey(other.owner, other.key) != MapKey(sub.owner, sub.key)
    ensures Ends(next, r') && Extends(run, next) && Sound(r') && Serving(r', r'.mem, r'.policy) && HasRoom(r')
    ensures IsRun(run) ==> IsRun(next)
    ensures MapKey(sub.owner, sub.key) !in r'.mem.idempotency && FormatJobId(r'.mem.nextJob) != id
  {
    hide Usable, MapKey, FormatJobId, ParseJobNumber, Sound, IsRun, Ends, Acknowledges, Asks;
    next, r' := run, r;
    if id == FormatJobId(r.mem.nextJob) {
      next, r' := ThenAdmits(run, r, other);
      JobIdRoundTrip(r.mem.nextJob);
      JobIdRoundTrip(r.mem.nextJob + 1);
    }
  }

  /** After a power loss the lost request is a new one: it gets the next id, or the one after that. */
  lemma {:induction false} AnswerIsTakenBack(run: Run, r: Registry, sub: Submission, other: Submission, id: string)
    returns (next: Run, j: nat, id': string)
    requires Ends(run, r) && Sound(r) && Usable(sub) && Usable(other)
    requires var s := r.published[r.durable];
      && Restorable(s) && s.nextJob + 1 < U64_MAX
      && MapKey(sub.owner, sub.key) !in s.idempotency && MapKey(other.owner, other.key) !in s.idempotency
    requires MapKey(other.owner, other.key) != MapKey(sub.owner, sub.key)
    ensures SoundPath(next) && Extends(run, next) && |run.calls| < j < |next.calls| && (IsRun(run) ==> IsRun(next))
    ensures Acknowledges(next, j, sub.owner, sub.key, id') && id' != id
  {
    hide Restorable, Usable, MapKey, FormatJobId, ParseJobNumber, Sound, IsRun, Acknowledges, Admit;
    DurableIsPublished(r);
    var s := r.published[r.durable];
    var now;
    next, now := BackToSynced(run, r, WithRoom(r.policy, s));
    next, now := PassesOver(next, now, sub, other, id);
    j, id' := |next.calls|, FormatJobId(now.mem.nextJob);
    next, now := ThenAdmits(next, now, sub);
  }

  /** The indexed job names the request it was made for. */
  lemma {:induction false} IndexedRequest(r: Registry, owner: SessionId, key: string, id: string)
    returns (sub: Submission)
    requires Sound(r) && r.up && AnswersFromIndex(r, MapKey(owner, key), id)
    ensures Usable(sub) && sub.owner == owner && sub.key == key
  {
    MemoryIsValid(r);
    assert BackIndexed(r.mem, MapKey(owner, key));
    var job := r.mem.jobs[id];
    assert ValidJob(id, job);
    MapKeyInjective(owner, key, job.owner, job.key);
    sub := RequestOf(job);
  }

  /** Every later successful submit of this owner and key, whatever happens in between, names this job. */
  ghost predicate AlwaysAnswers(r: Registry, owner: string, key: string, id: string) {
    forall run, j, id' ::
        SoundPath(run) && run.states[0] == r && 0 <= j < |run.calls| && Acknowledges(run, j, owner, key, id') ==>
          id' == id
  }

  /**
   A registry that would answer a request with a job keeps to that answer in every continuation exactly when the synced
   snapshot already indexes the request. (`other` is any request the synced snapshot does not know.)
   */
  lemma {:induction false} AnswerIsFinalExactly(r: Registry, owner: SessionId, key: string, id: string,
                                                other: Submission)
    requires Sound(r) && r.up && AnswersFromIndex(r, MapKey(owner, key), id)
    requires Restorable(r.published[r.durable]) && r.published[r.durable].nextJob + 1 < U64_MAX
    requires Usable(other) && MapKey(other.owner, other.key) !in r.published[r.durable].idempotency
    requires MapKey(other.owner, other.key) != MapKey(owner, key)
    ensures AlwaysAnswers(r, owner, key, id) <==> MapKey(owner, key) in r.published[r.durable].idempotency
  {
    hide Usable, MapKey, Restorable, Sound, Acknowledges, AnswersFromIndex;
    DurableIsPublished(r);
    if MapKey(owner, key) in r.published[r.durable].idempotency {
      SyncedAnswerIsFinal(r, owner, key, id);
    } else {
      var sub := IndexedRequest(r, owner, key, id);
      var run, j, id' := AnswerIsTakenBack(Run([r], []), r, sub, other, id);
      assert run.states[0] == r;
    }
  }

  lemma {:induction false} SyncedAnswerIsFinal(r: Registry, owner: string, key: string, id: string)
    requires Sound(r) && r.up && AnswersFromIndex(r, MapKey(owner, key), id)
    requires MapKey(owner, key) in r.published[r.durable].idempotency
    ensures AlwaysAnswers(r, owner, key, id)
  {
    hide Sound, Acknowledges, AnswersFromIndex, MapKey;
    forall run, j, id' | SoundPath(run) && run.states[0] == r && 0 <= j < |run.calls|
        && Acknowledges(run, j, owner, key, id')
      ensures id' == id
    {
      DurableIsPublished(r);
      AnsweredAgain(run, 0, j, r.durable, owner, key, id, id');
    }
  }

  // ----- Answers from an unsynced snapshot do occur -----

  /** A request whose commit could be published but not synced: the answer is an error, and the registry stops. */
  lemma {:induction false} ThenLosesSync(run: Run, r: Registry, sub: Submission) returns (next: Run, r': Registry)
    requires Ends(run, r) && Sound(r) && Serving(r, r.mem, r.policy) && HasRoom(r) && Usable(sub)
    requires MapKey(sub.owner, sub.key) !in r.mem.idempotency
    ensures Ends(next, r') && Extends(run, next) && |next.calls| == |run.calls| + 1 && Sound(r')
    ensures IsRun(run) ==> IsRun(next)
    ensures r'.published != [] && Admitted(r.mem, sub, Newest(r'.published))
    ensures r.published <= r'.published && r'.durable == r.durable
  {
    hide Submit, Admit, Admitted, IsRun, Extends, Sound, FormatJobId, MapKey, WellFormed;
    NewRequestCommits(r, sub, UNSYNCED);
    MemoryIsValid(r);
    AdmitFields(r.mem, sub, r.policy);
    r' := Apply(r, Ask(r, sub, UNSYNCED));
    next := OneMoreCall(run, r, Ask(r, sub, UNSYNCED));
  }

  /**
   Two restarts later, the first with a failed sync, the registry serves the request from a snapshot that was never
   synced.
   */
  lemma {:induction false} ThenServesUnsynced(run: Run, r: Registry, policy: Policy) returns (next: Run, r': Registry)
    requires Ends(run, r) && Sound(r) && policy.Valid() && HasNonterminal(Newest(r.published))
    requires Restorable(Newest(r.published)) && |Newest(r.published).jobs| <= policy.maxJobs
    ensures Ends(next, r') && Extends(run, next) && |next.calls| == |run.calls| + 2 && Sound(r')
    ensures IsRun(run) ==> IsRun(next)
    ensures Serving(r', r'.mem, policy) && Follows(Newest(r.published), r'.mem)
    ensures r.published <= r'.published && r'.durable == r.durable
  {
    hide Reload, IsRun, Ends, Restorable, Follows, GoodState;
    var s := Newest(r.published);
    assert GoodState(r.published[|r.published| - 1]);
    var recovered := RestorableReloads(s, policy);
    StillUnfinished(s, policy);
    var middle, down := RestartFailsToSync(run, r, policy, recovered);
    next, r' := RestartFindsNothing(middle, down, policy);
  }

  lemma {:induction false} StillUnfinished(s: PersistentState, policy: Policy)
    requires HasNonterminal(s)
    ensures HasNonterminal(TrimState(s, policy))
  {
    var id :| id in s.jobs && !s.jobs[id].state.IsTerminal();
    assert !TrimState(s, policy).jobs[id].state.IsTerminal();
  }

  /** A request that is indexed is answered with the indexed job. */
  lemma {:induction false} ThenReplays(run: Run, r: Registry, s: PersistentState, sub: Submission, id: string)
    returns (next: Run, r': Registry)
    requires Ends(run, r) && Sound(r) && Serving(r, r.mem, r.policy) && Usable(sub) && Follows(s, r.mem)
    requires MapKey(sub.owner, sub.key) in s.idempotency && s.idempotency[MapKey(sub.owner, sub.key)] == id
    requires id in s.jobs && s.jobs[id].jobId == id && Asks(s.jobs[id], sub)
    ensures Ends(next, r') && r' == r && Extends(run, next) && |next.calls| == |run.calls| + 1
    ensures IsRun(run) ==> IsRun(next)
    ensures Acknowledges(next, |run.calls|, sub.owner, sub.key, id)
  {
    hide IsRun, Sound, MapKey, ValidIdempotencyKey, WellFormed, Extends;
    assert JobFollows(s, r.mem, id);
    r' := Apply(r, Ask(r, sub, SYNCED));
    next := OneMoreCall(run, r, Ask(r, sub, SYNCED));
  }

  /** A request can be acknowledged from a snapshot that was never synced. */
  lemma {:induction false} UnsyncedIsAnswered(run: Run, r: Registry, sub: Submission)
    returns (next: Run, r': Registry, i: nat, id: string)
    requires Ends(run, r) && Sound(r) && Serving(r, r.mem, r.policy) && HasRoom(r) && Usable(sub) && Restorable(r.mem)
    requires MapKey(sub.owner, sub.key) !in r.mem.idempotency
    ensures Ends(next, r') && Extends(run, next) && Sound(r') && (IsRun(run) ==> IsRun(next))
    ensures |run.calls| <= i < |next.calls| && Acknowledges(next, i, sub.owner, sub.key, id)
    ensures r.published <= r'.published && r'.durable == r.durable
  {
    hide Usable, MapKey, FormatJobId, ParseJobNumber, Sound, IsRun, Ends, Acknowledges, Asks, Restorable, Follows,
         HasNonterminal;
    var failed, lost := ThenLosesSync(run, r, sub);
    var s := Newest(lost.published);
    AdmittedIsRestorable(r.mem, sub, s);
    DurableIsPublished(r);
    var up, serving := ThenServesUnsynced(failed, lost, r.policy);
    id, i := FormatJobId(r.mem.nextJob), |up.calls|;
    next, r' := ThenReplays(up, serving, s, sub, id);
  }

  /**
   From every registry that serves: a request is acknowledged twice, under two ids. Its first acknowledgement is a
   replay from a snapshot that was never synced.
   */
  lemma {:induction false} AnswerCanChange(run: Run, r: Registry, sub: Submission, other: Submission)
    returns (next: Run, i: nat, j: nat, id: string, id': string)
    requires Ends(run, r) && Sound(r) && Serving(r, r.mem, r.policy) && HasRoom(r) && Usable(sub) && Usable(other)
    requires Restorable(r.mem) && MapKey(other.owner, other.key) != MapKey(sub.owner, sub.key)
    requires MapKey(sub.owner, sub.key) !in r.mem.idempotency && MapKey(other.owner, other.key) !in r.mem.idempotency
    requires r.durable < |r.published| && r.published[r.durable].nextJob + 1 < U64_MAX
    requires Restorable(r.published[r.durable])
    ensures SoundPath(next) && Extends(run, next) && (IsRun(run) ==> IsRun(next)) && |run.calls| <= i < j < |next.calls|
    ensures Acknowledges(next, i, sub.owner, sub.key, id) && Acknowledges(next, j, sub.owner, sub.key, id') && id != id'
  {
    hide Usable, MapKey, FormatJobId, ParseJobNumber, Sound, IsRun, Acknowledges, Restorable;
    var replayed, serving;
    replayed, serving, i, id := UnsyncedIsAnswered(run, r, sub);
    NotYetIndexed(r, sub);
    NotYetIndexed(r, other);
    next, j, id' := AnswerIsTakenBack(replayed, serving, sub, other, id);
    StillAcknowledged(replayed, next, i, sub, id);
  }

  lemma {:induction false} AdmittedIsRestorable(s: PersistentState, sub: Submission, t: PersistentState)
    requires s.nextJob < U64_MAX && Admitted(s, sub, t) && Restorable(s)
    ensures Restorable(t) && HasNonterminal(t)
  {
    assert !t.jobs[FormatJobId(s.nextJob)].state.IsTerminal();
    forall id | id in t.jobs ensures t.jobs[id].state.IsTerminal() || t.jobs[id].nextSequence < U64_MAX {
      assert id in s.jobs ==> t.jobs[id] == s.jobs[id];
    }
  }

  /** What memory does not index, no snapshot does. */
  lemma {:induction false} NotYetIndexed(r: Registry, sub: Submission)
    requires Sound(r) && r.up && MapKey(sub.owner, sub.key) !in r.mem.idempotency
    ensures r.durable < |r.published| && MapKey(sub.owner, sub.key) !in r.published[r.durable].idempotency
  {
    hide MapKey, GoodHistory;
    HistoryIsLater(r.published, r.durable, |r.published| - 1);
  }

  lemma {:induction false} StillAcknowledged(run: Run, next: Run, n: nat, sub: Submission, id: string)
    requires SoundPath(run) && SoundPath(next) && Extends(run, next) && n < |run.calls|
    requires Acknowledges(run, n, sub.owner, sub.key, id)
    ensures Acknowledges(next, n, sub.owner, sub.key, id)
  {
    hide Submit, Sound;
  }

  lemma {:induction false} FirstOpen(policy: Policy) returns (run: Run, r: Registry)
    requires policy.Valid()
    ensures IsRun(run) && Ends(run, r) && Sound(r) && Serving(r, EmptyState(), policy)
    ensures |run.calls| == 1 && r.published == [EmptyState()] && r.durable == 0
  {
    hide Reload;
    var initial := Fresh(policy);
    FreshIsSound(policy);
    UnchangedByRecovery(EmptyState(), NoFile(), policy, 0);
    ReloadRecovers(EmptyState(), policy);
    run, r := RestartFindsNothing(Run([initial], []), initial, policy);
  }

  /**
   For any two different requests there is a run from the empty store in which the first is acknowledged under two job
   ids.
   */
  lemma {:induction false} ReplayCanChange(sub: Submission, other: Submission, policy: Policy)
    returns (run: Run, i: nat, j: nat, id: string, id': string)
    requires policy.Valid() && Usable(sub) && Usable(other)
    requires MapKey(other.owner, other.key) != MapKey(sub.owner, sub.key)
    ensures IsRun(run) && i < j < |run.calls|
    ensures Acknowledges(run, i, sub.owner, sub.key, id) && Acknowledges(run, j, sub.owner, sub.key, id') && id != id'
  {
    hide Usable, MapKey, Acknowledges, Sound;
    var start, r := FirstOpen(policy);
    run, i, j, id, id' := AnswerCanChange(start, r, sub, other);
  }
}
