/**
 The durable job registry as a transition system: memory, the snapshots that reached the disk, and
 the health and closed flags. Each mutator is one function of the registry, the arguments and what
 the file system answers.
 */
module JobRegistry {
  import opened Base
  import opened TaskGraph
  import opened JobIds
  import opened JobStore

  type SessionId = s: string | ValidIdentifier(s, "session-") witness "session-00000000"

  datatype Submission = Submission(
    owner: SessionId,
    rpcMethod: RpcMethod,
    priority: JobPriority,
    key: string,
    paramsHash: bytes,
    limits: JobLimits,
    operation: StoredOperation)

  /** The snapshot fits its byte limit, the rename succeeds, the directory sync succeeds. */
  datatype Io = Io(encodes: bool, publishes: bool, syncs: bool)

  /**
   `published` lists the snapshots renamed into place, oldest first; those up to `durable` have had
   their directory synced, so a power loss may bring back `durable` or any later one.
   */
  datatype Registry = Registry(
    mem: PersistentState,
    published: seq<PersistentState>,
    durable: nat,
    healthy: bool,
    closed: bool,
    up: bool,
    policy: Policy)

  /** Before the first open: no store file, which reads as the empty state. */
  function Fresh(policy: Policy): Registry {
    Registry(EmptyState(), [EmptyState()], 0, false, false, false, policy)
  }

  // ----- commit -----

  function CommitError(state: PersistentState, policy: Policy): RpcError {
    if state.schema == STORE_SCHEMA_VERSION && |state.jobs| > policy.maxJobs
    then RpcError(ResourceLimitKind, "job store retention capacity exceeded")
    else RpcError(Internal, "job store invariants are corrupt")
  }

  /** Nothing that reached the disk is taken back. */
  predicate Grows(r: Registry, r': Registry) {
    && r.published <= r'.published
    && (r.durable <= |r.published| ==> r'.durable >= r.durable)
    && r'.up == r.up && r'.policy == r.policy
    && (r'.healthy ==> r.healthy)
  }

  predicate Acceptable(state: PersistentState, policy: Policy) {
    ValidState(state) && Retained(state, policy)
  }

  function Commit(r: Registry, next: PersistentState, io: Io): (c: (Registry, Outcome<()>))
    ensures Grows(r, c.0)
    ensures c.1.Failure? ==> !c.0.healthy
  {
    var trimmed := TrimState(next, r.policy);
    if !Acceptable(trimmed, r.policy) then (r.(healthy := false), Failure(CommitError(trimmed, r.policy)))
    else if !io.encodes then (r.(healthy := false),
                              Failure(RpcError(ResourceLimitKind, "job store size limit exceeded")))
    else if !io.publishes then (r.(healthy := false), Failure(RpcError(Internal, "cannot commit job store")))
    else
      var r' := r.(mem := trimmed, published := r.published + [trimmed]);
      if io.syncs then (r'.(durable := |r.published|), Success(()))
      else (r'.(healthy := false), Failure(RpcError(Internal, "cannot sync state directory")))
  }

  // ----- submit -----

  datatype Accepted = Accepted(jobId: string, state: JobState, replay: bool)

  function NewJob(sub: Submission, id: string, now: u64): StoredJob {
    StoredJob(id, sub.owner, sub.rpcMethod, sub.priority, sub.key, sub.paramsHash, sub.limits, sub.operation,
              Queued, now, now, None, None, [], 1, None)
  }

  function ActiveJobs(state: PersistentState, owner: string): set<string> {
    set id | id in state.jobs && state.jobs[id].owner == owner && !state.jobs[id].state.IsTerminal()
  }

  /** The state a fresh submission commits. */
  function Admit(state: PersistentState, sub: Submission, policy: Policy, now: u64): PersistentState
    requires state.nextJob < U64_MAX
  {
    var id := FormatJobId(state.nextJob);
    var job := AppendEvent(NewJob(sub, id, now), "queued", policy, now).value;
    state.(nextJob := state.nextJob + 1,
           jobs := state.jobs[id := job],
           idempotency := state.idempotency[MapKey(sub.owner, sub.key) := id])
  }

  function Submit(r: Registry, sub: Submission, quota: nat, now: u64, io: Io): (c: (Registry, Outcome<Accepted>))
    ensures Grows(r, c.0)
    ensures c.0 != r ==> r.healthy && !r.closed
  {
    if r.closed then (r, Failure(Conflict("job registry is closed")))
    else if !r.healthy then (r, Failure(RpcError(Internal, "job registry storage is unhealthy")))
    else if !ValidIdempotencyKey(sub.key) then (r, Failure(RpcError(InvalidParams, "invalid idempotency key")))
    else
      var k := MapKey(sub.owner, sub.key);
      if k in r.mem.idempotency then
        var id := r.mem.idempotency[k];
        if id !in r.mem.jobs then (r, Failure(RpcError(Internal, "idempotency index is corrupt")))
        else
          var existing := r.mem.jobs[id];
          if existing.paramsHash != sub.paramsHash || existing.rpcMethod != sub.rpcMethod
              || existing.priority != sub.priority
          then (r, Failure(Conflict("idempotency key has different parameters")))
          else (r, Success(Accepted(existing.jobId, existing.state, true)))
      else if |r.mem.jobs| >= r.policy.maxJobs
        then (r, Failure(RpcError(ResourceLimitKind, "job retention capacity exceeded")))
      else if |ActiveJobs(r.mem, sub.owner)| >= quota
        then (r, Failure(RpcError(ResourceLimitKind, "session job quota exceeded")))
      else if r.mem.nextJob == U64_MAX then (r, Failure(RpcError(ResourceLimitKind, "job id space exhausted")))
      else
        var (r', committed) := Commit(r, Admit(r.mem, sub, r.policy, now), io);
        (r', if committed.Failure? then Failure(committed.error)
             else Success(Accepted(FormatJobId(r.mem.nextJob), Queued, false)))
  }

  // ----- The updates of one owned job -----

  datatype Mutation =
    | TransitionTo(to: JobState, phase: string, probe: Probe)
    | RequestCancel
    | FinishCancelled
    | Complete(result: string)
    | Record(output: string, identity: ArchiveIdentity)
    | Fail(error: RpcError)
    | Expire

  function Mutate(job: StoredJob, m: Mutation, policy: Policy, now: u64): Outcome<StoredJob> {
    match m
    case TransitionTo(to, phase, probe) => TransitionJob(job, to, phase, probe, policy, now)
    case RequestCancel => CancelJob(job, policy, now)
    case FinishCancelled => FinishCancelledJob(job, policy, now)
    case Complete(result) => CompleteJob(job, result, policy, now)
    case Record(output, identity) => RecordJob(job, output, identity, policy, now)
    case Fail(error) => FailJob(job, error, policy, now)
    case Expire => ExpireJob(job, policy, now)
  }

  predicate Owns(state: PersistentState, owner: string, id: string) {
    id in state.jobs && state.jobs[id].owner == owner
  }

  function WithJob(state: PersistentState, id: string, job: StoredJob): PersistentState {
    state.(jobs := state.jobs[id := job])
  }

  /** Only the deadline skips the commit, when it changes nothing. */
  predicate SkipsCommit(m: Mutation, job: StoredJob) {
    m.Expire? && job.state != Queued && job.state != Running
  }

  function UpdateOwned(r: Registry, owner: string, id: string, m: Mutation, now: u64,
                       io: Io): (c: (Registry, Outcome<()>))
    ensures Grows(r, c.0)
    ensures c.0 != r ==> r.healthy
  {
    if !r.healthy then (r, Failure(RpcError(Internal, "job registry storage is unhealthy")))
    else if !Owns(r.mem, owner, id) then (r, Failure(RpcError(JobNotFound, "job not found")))
    else
      var job := r.mem.jobs[id];
      var updated := Mutate(job, m, r.policy, now);
      if updated.Failure? then (r, Failure(updated.error))
      else if SkipsCommit(m, job) then (r, Success(()))
      else Commit(r, WithJob(r.mem, id, updated.value), io)
  }

  // ----- close_and_cancel_all -----

  predicate ClosesAll(state: PersistentState, policy: Policy, now: u64) {
    forall id {:trigger CloseJob(state.jobs[id], policy, now)} | id in state.jobs ::
        CloseJob(state.jobs[id], policy, now).Success?
  }

  function CloseState(state: PersistentState, policy: Policy, now: u64): PersistentState
    requires ClosesAll(state, policy, now)
  {
    state.(jobs := map id | id in state.jobs :: CloseJob(state.jobs[id], policy, now).value)
  }

  predicate HasPending(state: PersistentState) {
    exists id :: id in state.jobs && (state.jobs[id].state == Queued || state.jobs[id].state == Running)
  }

  /** The jobs a shutdown reports: everything not finished. */
  function Unfinished(state: PersistentState): set<string> {
    set id | id in state.jobs && !state.jobs[id].state.IsTerminal()
  }

  function Close(r: Registry, now: u64, io: Io): (c: (Registry, Outcome<set<string>>))
  {
    var closing := r.(closed := true);
    if !ClosesAll(r.mem, r.policy, now)
      then (closing, Failure(RpcError(ResourceLimitKind, "job event sequence exhausted")))
    else if !HasPending(r.mem) then (closing, Success(Unfinished(r.mem)))
    else
      var (r', committed) := Commit(closing, CloseState(r.mem, r.policy, now), io);
      (r', if committed.Failure? then Failure(committed.error) else Success(Unfinished(r.mem)))
  }

  lemma {:induction false} CloseGrows(r: Registry, now: u64, io: Io)
    ensures Grows(r, Close(r, now, io).0) && Close(r, now, io).0.closed
  {
    var closing := r.(closed := true);
    if ClosesAll(r.mem, r.policy, now) && HasPending(r.mem) {
      assert Grows(closing, Commit(closing, CloseState(r.mem, r.policy, now), io).0);
    }
  }

  // ----- Recovery -----

  predicate RecoversAll(state: PersistentState, identify: Identify, policy: Policy, now: u64) {
    forall id {:trigger RecoverJob(state.jobs[id], identify, policy, now)} | id in state.jobs ::
      RecoverJob(state.jobs[id], identify, policy, now).Success?
  }

  function RecoverState(state: PersistentState, identify: Identify, policy: Policy, now: u64): PersistentState
    requires RecoversAll(state, identify, policy, now)
  {
    state.(jobs := map id | id in state.jobs :: RecoverJob(state.jobs[id], identify, policy, now).value)
  }

  predicate HasNonterminal(state: PersistentState) {
    exists id :: id in state.jobs && !state.jobs[id].state.IsTerminal()
  }

  predicate NeedsTrim(state: PersistentState, policy: Policy) {
    exists id :: id in state.jobs && |state.jobs[id].events| > policy.maxEvents
  }

  /** The process is gone; the disk holds snapshot `k`: the newest, or after a power loss any from `durable` on. */
  function Crashed(r: Registry, k: nat, powerLoss: bool, policy: Policy): Registry
    requires r.durable <= k < |r.published| && (powerLoss || k == |r.published| - 1)
  {
    Registry(EmptyState(), r.published[..k + 1], if powerLoss then k else r.durable, false, false, false, policy)
  }

  /** What the store becomes when `loaded` is read back, and whether that differs from what was read. */
  function Reload(loaded: PersistentState, policy: Policy, identify: Identify, now: u64):
    Outcome<(PersistentState, bool)> {
    if !ValidState(loaded) then Failure(RpcError(Internal, "job store is corrupt"))
    else
      var trimmed := TrimState(loaded, policy);
      if !RecoversAll(trimmed, identify, policy, now)
        then Failure(RpcError(ResourceLimitKind, "job event sequence exhausted"))
      else
        var recovered := TrimState(RecoverState(trimmed, identify, policy, now), policy);
        if !Acceptable(recovered, policy) then Failure(CommitError(recovered, policy))
        else Success((recovered, NeedsTrim(loaded, policy) || HasNonterminal(trimmed)))
  }

  /** Loads the newest snapshot, finishes what the crash interrupted and stores the result if anything changed. */
  function Open(r: Registry, identify: Identify, now: u64, io: Io): (c: (Registry, Outcome<()>))
    requires r.published != []
    ensures r.published <= c.0.published
    ensures !r.up ==> (c.0.up <==> c.1.Success?)
  {
    var reloaded := Reload(r.published[|r.published| - 1], r.policy, identify, now);
    if reloaded.Failure? then (r, Failure(reloaded.error))
    else
      var (recovered, changed) := reloaded.value;
      if !changed then (r.(mem := recovered, up := true, healthy := true), Success(()))
      else if !io.encodes || !io.publishes then (r, Failure(RpcError(Internal, "cannot commit job store")))
      else
        var stored := r.(published := r.published + [recovered]);
        if !io.syncs then (stored, Failure(RpcError(Internal, "cannot sync state directory")))
        else (stored.(mem := recovered, durable := |r.published|, up := true, healthy := true), Success(()))
  }

  // ----- Every mutator maps acceptable states to acceptable states -----

  /** How one committed snapshot follows another. */
  ghost predicate Follows(s: PersistentState, t: PersistentState) {
    && s.nextJob <= t.nextJob
    && (forall k {:trigger k in t.idempotency} | k in s.idempotency ::
        k in t.idempotency && t.idempotency[k] == s.idempotency[k])
    && (forall id {:trigger JobFollows(s, t, id)} | id in s.jobs :: JobFollows(s, t, id))
    && (forall id {:trigger StartsQueued(t, id)} | id in t.jobs && id !in s.jobs :: StartsQueued(t, id))
  }

  ghost predicate JobFollows(s: PersistentState, t: PersistentState, id: string)
    requires id in s.jobs
  {
    id in t.jobs && Evolves(s.jobs[id], t.jobs[id])
  }

  ghost predicate StartsQueued(t: PersistentState, id: string)
    requires id in t.jobs
  {
    t.jobs[id].state == Queued
  }

  ghost predicate GapFreeState(s: PersistentState) {
    forall id {:trigger Consecutive(s.jobs[id])} | id in s.jobs :: Consecutive(s.jobs[id])
  }

  ghost predicate GoodState(s: PersistentState) {
    ValidState(s) && GapFreeState(s)
  }

  lemma {:induction false} TrimRetained(state: PersistentState, policy: Policy)
    requires Retained(state, policy)
    ensures TrimState(state, policy) == state
  {
    forall id | id in state.jobs ensures TrimJob(state.jobs[id], policy) == state.jobs[id] {
      assert RetainedJob(state.jobs[id], policy);
    }
    assert TrimState(state, policy).jobs == state.jobs;
  }

  /** Which mutations a valid registry can commit: all but a transition straight to an outcome state. */
  predicate SetsNoOutcome(m: Mutation) {
    m.TransitionTo? && (m.to == Completed || m.to == Failed)
  }

  lemma {:induction false} MutateKeepsJob(id: string, job: StoredJob, m: Mutation, policy: Policy, now: u64)
    requires policy.Valid() && ValidJob(id, job) && RetainedJob(job, policy) && Mutate(job, m, policy, now).Success?
    ensures RetainedJob(Mutate(job, m, policy, now).value, policy)
    ensures SetsNoOutcome(m) ==> !ValidJob(id, Mutate(job, m, policy, now).value)
    ensures !SetsNoOutcome(m) ==> GoodUpdate(id, job, Mutate(job, m, policy, now).value, policy)
  {
    match m
    case TransitionTo(to, phase, probe) => TransitionKeepsJob(id, job, to, phase, probe, policy, now);
    case RequestCancel => CancelKeepsJob(id, job, policy, now);
    case FinishCancelled => FinishCancelledKeepsJob(id, job, policy, now);
    case Complete(result) => CompleteKeepsJob(id, job, result, policy, now);
    case Record(output, identity) => RecordKeepsJob(id, job, output, identity, policy, now);
    case Fail(error) => FailKeepsJob(id, job, error, policy, now);
    case Expire => ExpireKeepsJob(id, job, policy, now);
  }

  lemma {:induction false} EvolvesReflexive(job: StoredJob)
    ensures Evolves(job, job)
  {
  }

  /** Jobs replaced one by one, each by a good update of itself, under an unchanged index. */
  ghost predicate GoodJobs(s: PersistentState, t: PersistentState, policy: Policy) {
    && t == s.(jobs := t.jobs)
    && t.jobs.Keys == s.jobs.Keys
    && forall id {:trigger GoodJob(s, t, policy, id)} | id in s.jobs :: GoodJob(s, t, policy, id)
  }

  ghost predicate GoodJob(s: PersistentState, t: PersistentState, policy: Policy, id: string)
    requires id in s.jobs && id in t.jobs
  {
    GoodUpdate(id, s.jobs[id], t.jobs[id], policy)
  }

  lemma {:induction false} GoodJobsKeepIndex(s: PersistentState, t: PersistentState, policy: Policy)
    requires ValidState(s) && GoodJobs(s, t, policy)
    ensures ValidState(t)
  {
    assert |t.jobs| == |t.jobs.Keys| == |s.jobs.Keys| == |s.jobs|;
    forall i | i in t.jobs ensures ValidJob(i, t.jobs[i]) && Indexed(t, i) && Counted(t, i) {
      assert GoodJob(s, t, policy, i) && Indexed(s, i) && Counted(s, i);
    }
    forall k | k in t.idempotency ensures BackIndexed(t, k) {
      assert BackIndexed(s, k);
      assert GoodJob(s, t, policy, s.idempotency[k]);
    }
  }

  lemma {:induction false} GoodJobsFollow(s: PersistentState, t: PersistentState, policy: Policy)
    requires GoodJobs(s, t, policy)
    ensures Follows(s, t)
    ensures GapFreeState(s) ==> GapFreeState(t)
    ensures |s.jobs| <= policy.maxJobs ==> Retained(t, policy)
  {
    assert |t.jobs| == |t.jobs.Keys| == |s.jobs.Keys| == |s.jobs|;
    forall i | i in s.jobs ensures JobFollows(s, t, i) && RetainedJob(t.jobs[i], policy) {
      assert GoodJob(s, t, policy, i);
    }
    if GapFreeState(s) {
      forall i | i in t.jobs ensures Consecutive(t.jobs[i]) {
        assert GoodJob(s, t, policy, i) && Consecutive(s.jobs[i]);
      }
    }
  }

  lemma {:induction false} UpdatedState(state: PersistentState, id: string, job': StoredJob, policy: Policy)
    requires Acceptable(state, policy) && id in state.jobs && GoodUpdate(id, state.jobs[id], job', policy)
    ensures Acceptable(WithJob(state, id, job'), policy) && Follows(state, WithJob(state, id, job'))
    ensures GapFreeState(state) ==> GapFreeState(WithJob(state, id, job'))
  {
    var t := WithJob(state, id, job');
    assert t.jobs.Keys == state.jobs.Keys;
    forall i | i in state.jobs ensures GoodJob(state, t, policy, i) {
      if i != id {
        assert ValidJob(i, state.jobs[i]) && RetainedJob(state.jobs[i], policy);
        UnchangedUpdate(i, state.jobs[i], policy);
      }
    }
    GoodJobsKeepIndex(state, t, policy);
    GoodJobsFollow(state, t, policy);
  }

  /** Every update but the two outcome transitions commits a state that passes validation; those two never do. */
  lemma {:induction false} MutationKeepsState(state: PersistentState, id: string, m: Mutation, policy: Policy, now: u64)
    requires policy.Valid() && Acceptable(state, policy) && id in state.jobs
    requires Mutate(state.jobs[id], m, policy, now).Success?
    ensures var next := WithJob(state, id, Mutate(state.jobs[id], m, policy, now).value);
      && TrimState(next, policy) == next
      && (Acceptable(next, policy) <==> !SetsNoOutcome(m))
      && (!SetsNoOutcome(m) ==> Follows(state, next) && (GapFreeState(state) ==> GapFreeState(next)))
  {
    var job' := Mutate(state.jobs[id], m, policy, now).value;
    var next := WithJob(state, id, job');
    assert ValidJob(id, state.jobs[id]) && RetainedJob(state.jobs[id], policy);
    MutateKeepsJob(id, state.jobs[id], m, policy, now);
    assert next.jobs.Keys == state.jobs.Keys;
    assert Retained(next, policy) by {
      forall i | i in next.jobs ensures RetainedJob(next.jobs[i], policy) {
        assert RetainedJob(state.jobs[i], policy);
      }
    }
    TrimRetained(next, policy);
    if SetsNoOutcome(m) {
      assert next.jobs[id] == job';
      assert !ValidJob(id, next.jobs[id]);
    } else {
      UpdatedState(state, id, job', policy);
    }
  }

  lemma {:induction false} CloseGoodJob(state: PersistentState, policy: Policy, now: u64, i: string)
    requires policy.Valid() && Acceptable(state, policy) && ClosesAll(state, policy, now) && i in state.jobs
    ensures GoodJob(state, CloseState(state, policy, now), policy, i)
    ensures var job := CloseState(state, policy, now).jobs[i]; job.state.IsTerminal() || job.state == Cancelling
  {
    var job := state.jobs[i];
    assert ValidJob(i, job) && RetainedJob(job, policy);
    assert CloseJob(job, policy, now).Success?;
    CloseKeepsJob(i, job, policy, now);
  }

  lemma {:induction false} CloseLeavesNothingPending(state: PersistentState, policy: Policy, now: u64)
    requires policy.Valid() && Acceptable(state, policy) && ClosesAll(state, policy, now)
    ensures !HasPending(CloseState(state, policy, now))
  {
    var next := CloseState(state, policy, now);
    forall i | i in next.jobs ensures next.jobs[i].state != Queued && next.jobs[i].state != Running {
      CloseGoodJob(state, policy, now, i);
    }
  }

  lemma {:induction false} GoodJobsKeepState(state: PersistentState, next: PersistentState, policy: Policy)
    requires Acceptable(state, policy) && GoodJobs(state, next, policy)
    ensures TrimState(next, policy) == next && Acceptable(next, policy) && Follows(state, next)
    ensures GapFreeState(state) ==> GapFreeState(next)
  {
    GoodJobsKeepIndex(state, next, policy);
    GoodJobsFollow(state, next, policy);
    TrimRetained(next, policy);
  }

  lemma {:induction false} CloseKeepsState(state: PersistentState, policy: Policy, now: u64)
    requires policy.Valid() && Acceptable(state, policy) && ClosesAll(state, policy, now)
    ensures var next := CloseState(state, policy, now);
      && TrimState(next, policy) == next && Acceptable(next, policy) && Follows(state, next)
      && (GapFreeState(state) ==> GapFreeState(next))
  {
    var next := CloseState(state, policy, now);
    assert GoodJobs(state, next, policy) by {
      forall i | i in state.jobs ensures GoodJob(state, next, policy, i) {
        CloseGoodJob(state, policy, now, i);
      }
    }
    GoodJobsKeepState(state, next, policy);
  }

  lemma {:induction false} TrimKeepsState(state: PersistentState, policy: Policy)
    requires policy.Valid() && ValidState(state)
    ensures GoodJobs(state, TrimState(state, policy), policy) && ValidState(TrimState(state, policy))
  {
    var t := TrimState(state, policy);
    forall i | i in state.jobs ensures GoodJob(state, t, policy, i) {
      assert ValidJob(i, state.jobs[i]);
      TrimKeepsJob(i, state.jobs[i], policy);
    }
    GoodJobsKeepIndex(state, t, policy);
  }

  /** A fresh id is new, so the index stays one-to-one; the new state is valid exactly for a well-formed request. */
  predicate WellFormed(sub: Submission) {
    && sub.rpcMethod == OperationMethod(sub.operation)
    && sub.limits.maxThreads != 0 && sub.limits.maxMemory != 0 && sub.limits.maxOutput != 0
  }

  lemma {:induction false} FreshId(state: PersistentState)
    requires ValidState(state)
    ensures FormatJobId(state.nextJob) !in state.jobs
    ensures ParseJobNumber(FormatJobId(state.nextJob)) == Some(state.nextJob)
  {
    var id := FormatJobId(state.nextJob);
    JobIdRoundTrip(state.nextJob);
    assert id in state.jobs ==> Counted(state, id);
  }

  lemma {:induction false} NewJobIsValid(sub: Submission, id: string, policy: Policy, now: u64)
    requires policy.Valid() && ValidIdempotencyKey(sub.key) && ParseJobNumber(id).Some?
    ensures AppendEvent(NewJob(sub, id, now), "queued", policy, now).Success?
    ensures var job := AppendEvent(NewJob(sub, id, now), "queued", policy, now).value;
      && (ValidJob(id, job) <==> WellFormed(sub))
      && RetainedJob(job, policy) && Consecutive(job) && job.state == Queued && job.owner == sub.owner
      && job.key == sub.key
      && job.marker.None?
  {
    AppendKeepsEvents(NewJob(sub, id, now), "queued", policy, now);
  }

  lemma {:induction false} AdmitIndexes(state: PersistentState, sub: Submission, policy: Policy, now: u64)
    requires policy.Valid() && ValidState(state) && state.nextJob < U64_MAX
    requires ValidIdempotencyKey(sub.key) && MapKey(sub.owner, sub.key) !in state.idempotency
    ensures var t := Admit(state, sub, policy, now);
      && |t.idempotency| == |t.jobs| && |t.jobs| == |state.jobs| + 1
      && (forall i | i in t.jobs :: Indexed(t, i) && Counted(t, i))
      && (forall k | k in t.idempotency :: BackIndexed(t, k))
  {
    var t := Admit(state, sub, policy, now);
    var id, key := FormatJobId(state.nextJob), MapKey(sub.owner, sub.key);
    FreshId(state);
    NewJobIsValid(sub, id, policy, now);
    assert t.jobs.Keys == state.jobs.Keys + {id} && t.idempotency.Keys == state.idempotency.Keys + {key};
    forall i | i in t.jobs ensures Indexed(t, i) && Counted(t, i) {
      if i != id {
        assert Indexed(state, i) && Counted(state, i);
      }
    }
    forall k | k in t.idempotency ensures BackIndexed(t, k) {
      if k != key {
        assert BackIndexed(state, k);
      }
    }
  }

  lemma {:induction false} AdmitFollows(state: PersistentState, sub: Submission, policy: Policy, now: u64)
    requires policy.Valid() && ValidState(state) && state.nextJob < U64_MAX
    requires ValidIdempotencyKey(sub.key) && MapKey(sub.owner, sub.key) !in state.idempotency
    ensures Follows(state, Admit(state, sub, policy, now))
    ensures GapFreeState(state) ==> GapFreeState(Admit(state, sub, policy, now))
  {
    var t := Admit(state, sub, policy, now);
    var id := FormatJobId(state.nextJob);
    FreshId(state);
    NewJobIsValid(sub, id, policy, now);
    forall i | i in state.jobs ensures JobFollows(state, t, i) {
      EvolvesReflexive(state.jobs[i]);
    }
    if GapFreeState(state) {
      forall i | i in t.jobs ensures Consecutive(t.jobs[i]) {
        assert i in state.jobs ==> Consecutive(state.jobs[i]);
      }
    }
  }

  lemma {:induction false} AdmitKeepsState(state: PersistentState, sub: Submission, policy: Policy, now: u64)
    requires policy.Valid() && Acceptable(state, policy) && state.nextJob < U64_MAX && |state.jobs| < policy.maxJobs
    requires ValidIdempotencyKey(sub.key) && MapKey(sub.owner, sub.key) !in state.idempotency
    ensures TrimState(Admit(state, sub, policy, now), policy) == Admit(state, sub, policy, now)
    ensures Acceptable(Admit(state, sub, policy, now), policy) <==> WellFormed(sub)
  {
    hide OperationMethod, ParseHex;
    var t := Admit(state, sub, policy, now);
    var id := FormatJobId(state.nextJob);
    FreshId(state);
    NewJobIsValid(sub, id, policy, now);
    AdmitIndexes(state, sub, policy, now);
    forall i | i in t.jobs ensures RetainedJob(t.jobs[i], policy) && (i != id ==> ValidJob(i, t.jobs[i])) {
      assert i != id ==> ValidJob(i, state.jobs[i]) && RetainedJob(state.jobs[i], policy);
    }
    TrimRetained(t, policy);
    assert ValidState(t) <==> ValidJob(id, t.jobs[id]);
  }

  // ----- Recovery -----

  lemma {:induction false} RecoverGoodJob(state: PersistentState, identify: Identify, policy: Policy, now: u64,
                                          i: string)
    requires policy.Valid() && Acceptable(state, policy) && RecoversAll(state, identify, policy, now) && i in state.jobs
    ensures GoodJob(state, RecoverState(state, identify, policy, now), policy, i)
    ensures RecoverState(state, identify, policy, now).jobs[i].state.IsTerminal()
  {
    var job := state.jobs[i];
    assert ValidJob(i, job) && RetainedJob(job, policy);
    assert RecoverJob(job, identify, policy, now).Success?;
    RecoverKeepsJob(i, job, identify, policy, now);
  }

  lemma {:induction false} RecoverKeepsState(state: PersistentState, identify: Identify, policy: Policy, now: u64)
    requires policy.Valid() && Acceptable(state, policy) && RecoversAll(state, identify, policy, now)
    ensures GoodJobs(state, RecoverState(state, identify, policy, now), policy)
    ensures !HasNonterminal(RecoverState(state, identify, policy, now))
  {
    var next := RecoverState(state, identify, policy, now);
    forall i | i in state.jobs ensures GoodJob(state, next, policy, i) && next.jobs[i].state.IsTerminal() {
      RecoverGoodJob(state, identify, policy, now, i);
    }
  }

  /** Recovering a recovered state changes nothing. */
  lemma {:induction false} RecoveryIsIdempotent(state: PersistentState, identify: Identify, policy: Policy, now: u64)
    requires Retained(state, policy) && !HasNonterminal(state)
    ensures RecoversAll(state, identify, policy, now) && RecoverState(state, identify, policy, now) == state
    ensures !NeedsTrim(state, policy) && TrimState(state, policy) == state
  {
    TrimRetained(state, policy);
    forall i | i in state.jobs ensures RecoverJob(state.jobs[i], identify, policy, now) == Success(state.jobs[i]) {
      assert state.jobs[i].state.IsTerminal();
    }
    assert RecoverState(state, identify, policy, now).jobs == state.jobs;
    forall i | i in state.jobs ensures |state.jobs[i].events| <= policy.maxEvents {
      assert RetainedJob(state.jobs[i], policy);
    }
  }
}
