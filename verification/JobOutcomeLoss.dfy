/** What stops the whole registry while the disk works: moving a job straight to an outcome, or a malformed request. */
module JobOutcomeLoss {
  import opened Base
  import opened JobIds
  import opened JobStore
  import opened JobRegistry
  import opened JobRuns
  import opened JobReplayLoss

  function Move(r: Registry, id: string, to: JobState): Call
    requires id in r.mem.jobs
  {
    DoUpdate(r.mem.jobs[id].owner, id, TransitionTo(to, "", Absent), 0, SYNCED)
  }

  /** The state a permitted move commits, or fails to commit. */
  lemma {:induction false} MoveCommits(r: Registry, id: string, to: JobState)
    requires Sound(r) && Serving(r, r.mem, r.policy) && id in r.mem.jobs
    requires ValidTransition(r.mem.jobs[id].state, to) && r.mem.jobs[id].nextSequence < U64_MAX
    ensures Enabled(r, Move(r, id, to)) && Mutate(r.mem.jobs[id], TransitionTo(to, "", Absent), r.policy, 0).Success?
    ensures var job := Mutate(r.mem.jobs[id], TransitionTo(to, "", Absent), r.policy, 0).value;
      var next := WithJob(r.mem, id, job);
      && Apply(r, Move(r, id, to)) == Commit(r, next, SYNCED).0 && TrimState(next, r.policy) == next
      && (Acceptable(next, r.policy) <==> to != Completed && to != Failed)
      && job.state == to && job.nextSequence == r.mem.jobs[id].nextSequence + 1
  {
    hide ValidState, Retained, Commit, GoodHistory;
    MemIsGood(r);
    MutationKeepsState(r.mem, id, TransitionTo(to, "", Absent), r.policy, 0);
  }

  /** The move from queued to running commits. */
  lemma {:induction false} ThenRuns(run: Run, r: Registry, id: string) returns (next: Run, r': Registry)
    requires Ends(run, r) && Sound(r) && Serving(r, r.mem, r.policy) && id in r.mem.jobs
    requires r.mem.jobs[id].state == Queued && r.mem.jobs[id].nextSequence < U64_MAX
    ensures Ends(next, r') && Extends(run, next) && next.calls == run.calls + [Move(r, id, Running)] && Sound(r')
    ensures IsRun(run) ==> IsRun(next)
    ensures Serving(r', r'.mem, r.policy) && id in r'.mem.jobs && r'.mem.jobs[id].state == Running
    ensures r'.mem.jobs[id].nextSequence == r.mem.jobs[id].nextSequence + 1
  {
    hide Apply, Enabled, Mutate, Acceptable, TrimState, Sound, IsRun, Ends, Extends;
    MoveCommits(r, id, Running);
    r' := Apply(r, Move(r, id, Running));
    next := OneMoreCall(run, r, Move(r, id, Running));
  }

  /** A move from running to an outcome state leaves memory alone and the registry unhealthy. */
  lemma {:induction false} ThenStops(run: Run, r: Registry, id: string, to: JobState) returns (next: Run, r': Registry)
    requires Ends(run, r) && Sound(r) && Serving(r, r.mem, r.policy) && id in r.mem.jobs
    requires r.mem.jobs[id].state == Running && r.mem.jobs[id].nextSequence < U64_MAX
    requires (to == Completed || to == Failed)
    ensures Ends(next, r') && Extends(run, next) && next.calls == run.calls + [Move(r, id, to)]
    ensures IsRun(run) ==> IsRun(next)
    ensures r' == r.(healthy := false)
  {
    hide Apply, Enabled, Mutate, Acceptable, TrimState, Sound, IsRun, Ends, Extends;
    MoveCommits(r, id, to);
    r' := Apply(r, Move(r, id, to));
    next := OneMoreCall(run, r, Move(r, id, to));
  }

  /**
   For every usable request there is a run without a single disk failure that ends unhealthy: open, submit, move the
   job to running, move it to completed or failed.
   */
  lemma {:induction false} TransitionCanStop(sub: Submission, policy: Policy, to: JobState)
    returns (run: Run, r: Registry, id: string)
    requires policy.Valid() && Usable(sub) && (to == Completed || to == Failed)
    ensures IsRun(run) && |run.calls| == 4 && run.states[4] == r && r.up && !r.healthy
    ensures id in run.states[2].mem.jobs && run.calls[2] == Move(run.states[2], id, Running)
    ensures id in run.states[3].mem.jobs && run.calls[3] == Move(run.states[3], id, to)
    ensures id in r.mem.jobs && r.mem.jobs[id].state == Running
  {
    hide Usable, MapKey, FormatJobId, ParseJobNumber, Sound, IsRun, Acknowledges, Asks;
    var opening, admitted, running;
    run, opening := FirstOpen(policy);
    run, admitted := ThenAdmits(run, opening, sub);
    id := FormatJobId(opening.mem.nextJob);
    run, running := ThenRuns(run, admitted, id);
    run, r := ThenStops(run, running, id, to);
  }

  // ----- What stops a registry whose disk works -----

  /** The request passes every check before its commit, as one that is new. */
  predicate Admits(r: Registry, sub: Submission, quota: nat) {
    && !r.closed && ValidIdempotencyKey(sub.key) && MapKey(sub.owner, sub.key) !in r.mem.idempotency && HasRoom(r)
    && |ActiveJobs(r.mem, sub.owner)| < quota
  }

  /** The call makes a commit that its own validation refuses. */
  predicate Stops(r: Registry, call: Call) {
    match call
    case DoSubmit(sub, quota, _, _) => Admits(r, sub, quota) && !WellFormed(sub)
    case DoUpdate(owner, id, m, now, _) =>
      Owns(r.mem, owner, id) && Mutate(r.mem.jobs[id], m, r.policy, now).Success? && SetsNoOutcome(m)
    case DoClose(_, _) => false
    case DoReopen(_, _, _, _, _, _) => false
  }

  lemma {:induction false} SubmitStops(r: Registry, sub: Submission, quota: nat, now: u64)
    requires Sound(r) && r.up && r.healthy
    ensures var (r', answer) := Submit(r, sub, quota, now, SYNCED);
      && (r'.healthy <==> !(Admits(r, sub, quota) && !WellFormed(sub)))
      && (!r'.healthy ==> r' == r.(healthy := false) && answer.Failure?)
  {
    hide ValidState, Retained, ValidJob, Admit, ActiveJobs, MapKey, GoodHistory, WellFormed;
    MemIsGood(r);
    if Admits(r, sub, quota) {
      AdmitKeepsState(r.mem, sub, r.policy, now);
    }
  }

  lemma {:induction false} UpdateStops(r: Registry, owner: string, id: string, m: Mutation, now: u64)
    requires Sound(r) && r.up && r.healthy
    ensures var (r', answer) := UpdateOwned(r, owner, id, m, now, SYNCED);
      && (r'.healthy <==> !Stops(r, DoUpdate(owner, id, m, now, SYNCED)))
      && (!r'.healthy ==> r' == r.(healthy := false) && answer.Failure?)
  {
    hide ValidState, Retained, ValidJob, Mutate, GoodHistory;
    MemIsGood(r);
    if Owns(r.mem, owner, id) && Mutate(r.mem.jobs[id], m, r.policy, now).Success? {
      MutationKeepsState(r.mem, id, m, r.policy, now);
    }
  }

  lemma {:induction false} CloseNeverStops(r: Registry, now: u64)
    requires Sound(r) && r.up && r.healthy
    ensures Close(r, now, SYNCED).0.healthy
  {
    hide ValidState, Retained, ValidJob, GoodHistory, ClosesAll, HasPending;
    MemIsGood(r);
    if ClosesAll(r.mem, r.policy, now) {
      CloseKeepsState(r.mem, r.policy, now);
    }
  }

  /**
   While the disk works, exactly two kinds of call leave a healthy registry unhealthy: a new request that is malformed,
   and a permitted transition straight to an outcome. Memory and disk stay as they were.
   */
  lemma {:induction false} OnlyTheseStop(r: Registry, call: Call)
    requires Sound(r) && r.up && r.healthy && Enabled(r, call) && !call.DoReopen? && call.io == SYNCED
    ensures Apply(r, call).healthy <==> !Stops(r, call)
    ensures !Apply(r, call).healthy ==> Apply(r, call) == r.(healthy := false)
  {
    hide Submit, UpdateOwned, Close, Admits, WellFormed, Owns, Mutate;
    match call
    case DoSubmit(sub, quota, now, io) => SubmitStops(r, sub, quota, now);
    case DoUpdate(owner, id, m, now, io) => UpdateStops(r, owner, id, m, now);
    case DoClose(now, io) => CloseNeverStops(r, now);
  }

  /** For every malformed request with a usable key there is such a run: open, and submit it. */
  lemma {:induction false} RequestCanStop(sub: Submission, policy: Policy) returns (run: Run, r: Registry)
    requires policy.Valid() && ValidIdempotencyKey(sub.key) && !WellFormed(sub)
    ensures IsRun(run) && |run.calls| == 2 && run.states[2] == r && r.up && !r.healthy
    ensures run.calls[1] == Ask(run.states[1], sub, SYNCED) && r.mem == EmptyState()
  {
    hide MapKey, Sound, IsRun, WellFormed, Submit, ActiveJobs;
    var opening;
    run, opening := FirstOpen(policy);
    ActiveJobsAreJobs(opening.mem, sub.owner);
    SubmitStops(opening, sub, |opening.mem.jobs| + 1, 0);
    r := Apply(opening, Ask(opening, sub, SYNCED));
    run := OneMoreCall(run, opening, Ask(opening, sub, SYNCED));
  }
}
