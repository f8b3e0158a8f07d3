/**
 The registry object itself: its locked state, flags and store file, updated in place. Every method is
 tied to the transition function of the same name, about which the invariants and run theorems are.
 */
module JobRegistryObject {
  import opened Base
  import opened JobIds
  import opened JobStore
  import R = JobRegistry

  // ----- The read-only loops -----

  /** `validate_state`: the global checks, then every job, then every index entry. */
  method ValidateState(state: PersistentState, policy: Policy, enforceRetention: bool) returns (ok: bool)
    ensures ok <==> ValidState(state) && (enforceRetention ==> Retained(state, policy))
  {
    if state.schema != STORE_SCHEMA_VERSION || (enforceRetention && |state.jobs| > policy.maxJobs)
       || state.nextJob == 0 || |state.idempotency| != |state.jobs| {
      return false;
    }
    var maximum := 0;
    var todo := state.jobs.Keys;
    while todo != {}
      invariant todo <= state.jobs.Keys
      invariant forall id | id in state.jobs && id !in todo ::
        GoodEntry(state, policy, enforceRetention, id) && ParseJobNumber(id).value <= maximum
      invariant maximum == 0 || exists id :: id in state.jobs && id !in todo && ParseJobNumber(id) == Some(maximum)
      decreases todo
    {
      var id :| id in todo;
      if !GoodEntry(state, policy, enforceRetention, id) {
        BadEntry(state, policy, enforceRetention, id);
        return false;
      }
      var number := ParseJobNumber(id).value;
      maximum := if number > maximum then number else maximum;
      todo := todo - {id};
    }
    if state.jobs != map[] && state.nextJob <= maximum {
      CounterTooLow(state, maximum);
      return false;
    }
    var keys := state.idempotency.Keys;
    while keys != {}
      invariant keys <= state.idempotency.Keys
      invariant forall k | k in state.idempotency && k !in keys :: BackIndexed(state, k)
      decreases keys
    {
      var k :| k in keys;
      if !BackIndexed(state, k) {
        return false;
      }
      keys := keys - {k};
    }
    AllEntriesGood(state, policy, enforceRetention, maximum);
    return true;
  }

  predicate GoodEntry(state: PersistentState, policy: Policy, enforceRetention: bool, id: string)
    requires id in state.jobs
  {
    && ValidJob(id, state.jobs[id]) && Indexed(state, id)
    && (enforceRetention ==> RetainedJob(state.jobs[id], policy))
  }

  lemma {:induction false} BadEntry(state: PersistentState, policy: Policy, enforceRetention: bool, id: string)
    requires id in state.jobs && !GoodEntry(state, policy, enforceRetention, id)
    ensures !(ValidState(state) && (enforceRetention ==> Retained(state, policy)))
  {
    assert ValidState(state) ==> ValidJob(id, state.jobs[id]) && Indexed(state, id);
    assert Retained(state, policy) ==> RetainedJob(state.jobs[id], policy);
  }

  lemma {:induction false} CounterTooLow(state: PersistentState, maximum: nat)
    requires state.jobs != map[] && state.nextJob <= maximum
    requires maximum == 0 || exists id :: id in state.jobs && ParseJobNumber(id) == Some(maximum)
    ensures !ValidState(state)
  {
    if maximum > 0 {
      var id :| id in state.jobs && ParseJobNumber(id) == Some(maximum);
      assert ValidState(state) ==> Counted(state, id);
    }
  }

  lemma {:induction false} AllEntriesGood(state: PersistentState, policy: Policy, enforceRetention: bool, maximum: nat)
    requires state.schema == STORE_SCHEMA_VERSION && state.nextJob != 0 && |state.idempotency| == |state.jobs|
    requires enforceRetention ==> |state.jobs| <= policy.maxJobs
    requires forall id | id in state.jobs ::
      GoodEntry(state, policy, enforceRetention, id) && ParseJobNumber(id).value <= maximum
    requires state.jobs == map[] || maximum < state.nextJob
    requires forall k | k in state.idempotency :: BackIndexed(state, k)
    ensures ValidState(state) && (enforceRetention ==> Retained(state, policy))
  {
    forall id | id in state.jobs ensures ValidJob(id, state.jobs[id]) && Indexed(state, id) && Counted(state, id) {
      assert GoodEntry(state, policy, enforceRetention, id);
    }
    if enforceRetention {
      forall id | id in state.jobs ensures RetainedJob(state.jobs[id], policy) {
        assert GoodEntry(state, policy, enforceRetention, id);
      }
    }
  }

  /** `trim_retained_events` over all jobs. */
  method TrimRetained(state: PersistentState, policy: Policy) returns (trimmed: PersistentState, changed: bool)
    ensures trimmed == TrimState(state, policy) && changed == R.NeedsTrim(state, policy)
  {
    var jobs := state.jobs;
    changed := false;
    var todo := state.jobs.Keys;
    while todo != {}
      invariant todo <= state.jobs.Keys && jobs.Keys == state.jobs.Keys
      invariant forall id | id in state.jobs ::
                  jobs[id] == if id in todo then state.jobs[id] else TrimJob(state.jobs[id], policy)
      invariant changed <==> exists id :: id in state.jobs && id !in todo && |state.jobs[id].events| > policy.maxEvents
      decreases todo
    {
      var id :| id in todo;
      if |jobs[id].events| > policy.maxEvents {
        changed := true;
      }
      jobs := jobs[id := TrimJob(jobs[id], policy)];
      todo := todo - {id};
    }
    trimmed := state.(jobs := jobs);
    assert jobs == TrimState(state, policy).jobs;
  }

  /** The job is a pack of this owner that has been started, and its output can be identified. */
  predicate Recordable(state: PersistentState, owner: string, id: string, identify: Identify) {
    && id in state.jobs && state.jobs[id].owner == owner
    && (state.jobs[id].state == Running || state.jobs[id].state == Cancelling)
    && state.jobs[id].operation.Pack? && identify(state.jobs[id].operation.output).Some?
  }

  class JobRegistry {
    var state: PersistentState
    var disk: seq<PersistentState>
    var durable: nat
    var healthy: bool
    var closed: bool
    const policy: Policy

    function View(): R.Registry
      reads this
    {
      R.Registry(state, disk, durable, healthy, closed, true, policy)
    }

    /** An opened store: `open` has already read, recovered and stored the state. */
    constructor (state: PersistentState, disk: seq<PersistentState>, durable: nat, policy: Policy)
      ensures View() == R.Registry(state, disk, durable, true, false, true, policy)
    {
      this.state, this.disk, this.durable, this.policy := state, disk, durable, policy;
      healthy, closed := true, false;
    }

    /**
     Validation, encoding and rename come before memory changes; a failed directory sync comes after,
     and leaves memory equal to what the rename already made visible.
     */
    method Commit(next: PersistentState, io: R.Io) returns (r: Outcome<()>)
      modifies this
      ensures (View(), r) == R.Commit(old(View()), next, io)
    {
      var trimmed, _ := TrimRetained(next, policy);
      var valid := ValidateState(trimmed, policy, true);
      if !valid {
        healthy := false;
        return Failure(R.CommitError(trimmed, policy));
      }
      if !io.encodes {
        healthy := false;
        return Failure(RpcError(ResourceLimitKind, "job store size limit exceeded"));
      }
      if !io.publishes {
        healthy := false;
        return Failure(RpcError(Internal, "cannot commit job store"));
      }
      disk := disk + [trimmed];
      state := trimmed;
      if !io.syncs {
        healthy := false;
        return Failure(RpcError(Internal, "cannot sync state directory"));
      }
      durable := |disk| - 1;
      return Success(());
    }

    method SubmitWithLimit(sub: R.Submission, quota: nat, now: u64, io: R.Io) returns (r: Outcome<R.Accepted>)
      modifies this
      ensures (View(), r) == R.Submit(old(View()), sub, quota, now, io)
    {
      if closed {
        return Failure(Conflict("job registry is closed"));
      }
      if !healthy {
        return Failure(RpcError(Internal, "job registry storage is unhealthy"));
      }
      if !ValidIdempotencyKey(sub.key) {
        return Failure(RpcError(InvalidParams, "invalid idempotency key"));
      }
      var next := state;
      var key := MapKey(sub.owner, sub.key);
      if key in next.idempotency {
        var existingId := next.idempotency[key];
        if existingId !in next.jobs {
          return Failure(RpcError(Internal, "idempotency index is corrupt"));
        }
        var existing := next.jobs[existingId];
        if existing.paramsHash != sub.paramsHash || existing.rpcMethod != sub.rpcMethod
            || existing.priority != sub.priority {
          return Failure(Conflict("idempotency key has different parameters"));
        }
        return Success(R.Accepted(existing.jobId, existing.state, true));
      }
      if |next.jobs| >= policy.maxJobs {
        return Failure(RpcError(ResourceLimitKind, "job retention capacity exceeded"));
      }
      if |R.ActiveJobs(next, sub.owner)| >= quota {
        return Failure(RpcError(ResourceLimitKind, "session job quota exceeded"));
      }
      var id := FormatJobId(next.nextJob);
      if next.nextJob == U64_MAX {
        return Failure(RpcError(ResourceLimitKind, "job id space exhausted"));
      }
      next := next.(nextJob := next.nextJob + 1);
      var job := AppendEvent(R.NewJob(sub, id, now), "queued", policy, now).value;
      next := next.(idempotency := next.idempotency[key := id]);
      next := next.(jobs := next.jobs[id := job]);
      var committed := Commit(next, io);
      if committed.Failure? {
        return Failure(committed.error);
      }
      return Success(R.Accepted(id, Queued, false));
    }

    /** The owner's updates: all run under the mutation lock, on a copy, and then commit. */
    method UpdateOwned(owner: string, id: string, m: R.Mutation, now: u64, io: R.Io) returns (r: Outcome<()>)
      modifies this
      ensures (View(), r) == R.UpdateOwned(old(View()), owner, id, m, now, io)
    {
      if !healthy {
        return Failure(RpcError(Internal, "job registry storage is unhealthy"));
      }
      var next := state;
      if id !in next.jobs || next.jobs[id].owner != owner {
        return Failure(RpcError(JobNotFound, "job not found"));
      }
      var job := next.jobs[id];
      var updated := R.Mutate(job, m, policy, now);
      if updated.Failure? {
        return Failure(updated.error);
      }
      if R.SkipsCommit(m, job) {
        return Success(());
      }
      next := next.(jobs := next.jobs[id := updated.value]);
      r := Commit(next, io);
    }

    /**
     Records a pack output. The identity is computed from `output` without the lock, so `identity` is
     whatever the file was at that time; everything is checked again inside the update.
     */
    method RecordPackPublication(owner: string, id: string, identify: Identify, now: u64, io: R.Io)
      returns (r: Outcome<()>)
      modifies this
      ensures var before := old(state);
        if Recordable(before, owner, id, identify) then
          var output := before.jobs[id].operation.output;
          (View(), r) == R.UpdateOwned(old(View()), owner, id, R.Record(output, identify(output).value), now, io)
        else View() == old(View()) && r.Failure?
    {
      if id !in state.jobs || state.jobs[id].owner != owner {
        return Failure(RpcError(JobNotFound, "job not found"));
      }
      var job := state.jobs[id];
      if job.state != Running && job.state != Cancelling {
        return Failure(Conflict("pack publication cannot be recorded from current state"));
      }
      if !job.operation.Pack? {
        return Failure(Conflict("job is not a pack operation"));
      }
      var output := job.operation.output;
      var identity := identify(output);
      if identity.None? {
        return Failure(RpcError(Internal, "pack output verification failed"));
      }
      r := UpdateOwned(owner, id, R.Record(output, identity.value), now, io);
    }

    /** Closes admission first, then cancels what it can in one commit; it does not look at `healthy`. */
    method CloseAndCancelAll(now: u64, io: R.Io) returns (r: Outcome<set<string>>)
      modifies this
      ensures (View(), r) == R.Close(old(View()), now, io)
    {
      closed := true;
      var jobs, affected, changed, failed := CloseJobs(state, policy, now);
      if failed.Some? {
        return Failure(failed.value);
      }
      if changed {
        var committed := Commit(state.(jobs := jobs), io);
        if committed.Failure? {
          return Failure(committed.error);
        }
      }
      return Success(affected);
    }
  }

  /** The loop of the shutdown over all jobs. */
  method CloseJobs(state: PersistentState, policy: Policy, now: u64)
    returns (jobs: map<string, StoredJob>, affected: set<string>, changed: bool, failed: Option<RpcError>)
    ensures failed.Some? ==> !R.ClosesAll(state, policy, now)
                             && failed.value == RpcError(ResourceLimitKind, "job event sequence exhausted")
    ensures failed.None? ==> R.ClosesAll(state, policy, now) && jobs == R.CloseState(state, policy, now).jobs
                             && affected == R.Unfinished(state) && changed == R.HasPending(state)
  {
    hide CloseJob;
    jobs, affected, changed, failed := state.jobs, {}, false, None;
    var todo := state.jobs.Keys;
    while todo != {}
      invariant failed.None? && todo <= state.jobs.Keys && jobs.Keys == state.jobs.Keys
      invariant forall id | id in state.jobs
                && id !in todo :: CloseJob(state.jobs[id], policy, now) == Success(jobs[id])
      invariant forall id | id in todo :: jobs[id] == state.jobs[id]
      invariant affected == set id | id in state.jobs && id !in todo && !state.jobs[id].state.IsTerminal()
      invariant changed <==> exists id :: id in state.jobs && id !in todo && IsPending(state.jobs[id])
      decreases todo
    {
      var id :| id in todo;
      var job := jobs[id];
      todo := todo - {id};
      if !job.state.IsTerminal() {
        affected := affected + {id};
        var closing := CloseJob(job, policy, now);
        if closing.Failure? {
          CloseFails(state, policy, now, id);
          return jobs, affected, changed, Some(closing.error);
        }
        changed := changed || IsPending(job);
        jobs := jobs[id := closing.value];
      } else {
        FinishedStays(job, policy, now);
      }
    }
    assert R.ClosesAll(state, policy, now);
    assert jobs == R.CloseState(state, policy, now).jobs;
    assert changed == R.HasPending(state);
  }

  lemma {:induction false} FinishedStays(job: StoredJob, policy: Policy, now: u64)
    requires job.state.IsTerminal()
    ensures CloseJob(job, policy, now) == Success(job)
  {
  }

  predicate IsPending(job: StoredJob) {
    job.state == Queued || job.state == Running
  }

  lemma {:induction false} CloseFails(state: PersistentState, policy: Policy, now: u64, id: string)
    requires id in state.jobs && CloseJob(state.jobs[id], policy, now).Failure?
    ensures !R.ClosesAll(state, policy, now)
    ensures CloseJob(state.jobs[id], policy, now).error == RpcError(ResourceLimitKind, "job event sequence exhausted")
  {
  }

  /** The recovery loop of `open` over all jobs. */
  method RecoverJobs(state: PersistentState, identify: Identify, policy: Policy, now: u64)
    returns (jobs: map<string, StoredJob>, changed: bool, failed: Option<RpcError>)
    ensures failed.Some? ==> !R.RecoversAll(state, identify, policy, now)
                             && failed.value == RpcError(ResourceLimitKind, "job event sequence exhausted")
    ensures failed.None? ==> R.RecoversAll(state, identify, policy, now)
                             && jobs == R.RecoverState(state, identify, policy, now).jobs
                             && changed == R.HasNonterminal(state)
  {
    jobs, changed, failed := state.jobs, false, None;
    var todo := state.jobs.Keys;
    while todo != {}
      invariant failed.None? && todo <= state.jobs.Keys && jobs.Keys == state.jobs.Keys
      invariant forall id | id in state.jobs
                && id !in todo :: RecoverJob(state.jobs[id], identify, policy, now) == Success(jobs[id])
      invariant forall id | id in todo :: jobs[id] == state.jobs[id]
      invariant changed <==> exists id :: id in state.jobs && id !in todo && !state.jobs[id].state.IsTerminal()
      decreases todo
    {
      var id :| id in todo;
      var job := jobs[id];
      todo := todo - {id};
      if !job.state.IsTerminal() {
        var recovered := RecoverJob(job, identify, policy, now);
        if recovered.Failure? {
          RecoverFails(state, identify, policy, now, id);
          return jobs, changed, Some(recovered.error);
        }
        jobs := jobs[id := recovered.value];
        changed := true;
      }
    }
    assert R.RecoversAll(state, identify, policy, now);
    assert jobs == R.RecoverState(state, identify, policy, now).jobs;
  }

  lemma {:induction false} RecoverFails(state: PersistentState, identify: Identify, policy: Policy, now: u64,
                                        id: string)
    requires id in state.jobs && RecoverJob(state.jobs[id], identify, policy, now).Failure?
    ensures !R.RecoversAll(state, identify, policy, now)
    ensures RecoverJob(state.jobs[id], identify, policy, now).error
            == RpcError(ResourceLimitKind, "job event sequence exhausted")
  {
  }

  /** Validate, trim, recover every unfinished job, trim and validate again. */
  method ReloadState(loaded: PersistentState, policy: Policy, identify: Identify, now: u64)
    returns (r: Outcome<(PersistentState, bool)>)
    ensures r == R.Reload(loaded, policy, identify, now)
  {
    var sound := ValidateState(loaded, policy, false);
    if !sound {
      return Failure(RpcError(Internal, "job store is corrupt"));
    }
    var trimmed, changed := TrimRetained(loaded, policy);
    var jobs, unfinished, failed := RecoverJobs(trimmed, identify, policy, now);
    if failed.Some? {
      return Failure(failed.value);
    }
    var recovered, _ := TrimRetained(trimmed.(jobs := jobs), policy);
    var acceptable := ValidateState(recovered, policy, true);
    if !acceptable {
      return Failure(R.CommitError(recovered, policy));
    }
    return Success((recovered, changed || unfinished));
  }

  function AtRest(disk: seq<PersistentState>, durable: nat, policy: Policy): R.Registry {
    R.Registry(EmptyState(), disk, durable, false, false, false, policy)
  }

  /** Opens the store at rest in `disk`; what reached the disk is returned with or without a registry. */
  method OpenStore(disk: seq<PersistentState>, durable: nat, policy: Policy, identify: Identify, now: u64, io: R.Io)
    returns (r: Outcome<JobRegistry>, disk': seq<PersistentState>, durable': nat)
    requires disk != []
    ensures var restarted := R.Open(AtRest(disk, durable, policy), identify, now, io);
      && disk' == restarted.0.published && durable' == restarted.0.durable
      && (restarted.1.Success? ==> r.Success? && fresh(r.value) && r.value.View() == restarted.0)
      && (restarted.1.Failure? ==> r.Failure? && r.error == restarted.1.error)
  {
    disk', durable' := disk, durable;
    var reloaded := ReloadState(disk[|disk| - 1], policy, identify, now);
    if reloaded.Failure? {
      return Failure(reloaded.error), disk', durable';
    }
    var (recovered, changed) := reloaded.value;
    if changed {
      if !io.encodes || !io.publishes {
        return Failure(RpcError(Internal, "cannot commit job store")), disk', durable';
      }
      disk' := disk + [recovered];
      if !io.syncs {
        return Failure(RpcError(Internal, "cannot sync state directory")), disk', durable';
      }
      durable' := |disk|;
    }
    var registry := new JobRegistry(recovered, disk', durable', policy);
    r := Success(registry);
  }
}
