/** Whole runs of the job registry: any interleaving of calls, failing commits, crashes and restarts. */
module JobRuns {
  import opened Base
  import opened JobIds
  import opened JobStore
  import opened JobRegistry

  // ----- The invariant -----

  ghost predicate FollowsAt(published: seq<PersistentState>, i: nat)
    requires i + 1 < |published|
  {
    Follows(published[i], published[i + 1])
  }

  /** The store file's history: it starts empty, every snapshot is valid, each follows the one before. */
  ghost predicate GoodHistory(published: seq<PersistentState>) {
    && published != [] && published[0] == EmptyState()
    && (forall i {:trigger GoodState(published[i])} | 0 <= i < |published| :: GoodState(published[i]))
    && (forall i {:trigger FollowsAt(published, i)} | 0 <= i < |published| - 1 :: FollowsAt(published, i))
  }

  function Newest(published: seq<PersistentState>): PersistentState
    requires published != []
  {
    published[|published| - 1]
  }

  /**
   Live memory is the newest published snapshot, and a healthy registry with unfinished jobs has that
   snapshot synced.
   */
  ghost predicate Sound(r: Registry) {
    && r.policy.Valid() && GoodHistory(r.published) && r.durable < |r.published|
    && (r.up ==> r.mem == Newest(r.published) && Retained(r.mem, r.policy))
    && (r.up && r.healthy && HasNonterminal(r.mem) ==> r.durable == |r.published| - 1)
    && (r.healthy ==> r.up)
  }

  lemma {:induction false} FreshIsSound(policy: Policy)
    requires policy.Valid()
    ensures Sound(Fresh(policy))
  {
  }

  lemma {:induction false} HistoryGrows(published: seq<PersistentState>, t: PersistentState)
    requires GoodHistory(published) && GoodState(t) && Follows(Newest(published), t)
    ensures GoodHistory(published + [t])
  {
    hide GoodState, Follows;
    var grown := published + [t];
    forall i | 0 <= i < |grown| ensures GoodState(grown[i]) {
      assert i < |published| ==> GoodState(published[i]);
    }
    forall i | 0 <= i < |grown| - 1 ensures FollowsAt(grown, i) {
      assert i < |published| - 1 ==> FollowsAt(published, i);
    }
  }

  lemma {:induction false} HistoryPrefix(published: seq<PersistentState>, k: nat)
    requires GoodHistory(published) && k < |published|
    ensures GoodHistory(published[..k + 1])
  {
    var prefix := published[..k + 1];
    forall i | 0 <= i < |prefix| ensures GoodState(prefix[i]) {
      assert GoodState(published[i]);
    }
    forall i | 0 <= i < |prefix| - 1 ensures FollowsAt(prefix, i) {
      assert FollowsAt(published, i);
    }
  }

  lemma {:induction false} CommitKeepsSound(r: Registry, next: PersistentState, io: Io)
    requires Sound(r) && r.up
    requires var t := TrimState(next, r.policy);
      Acceptable(t, r.policy) ==> Follows(r.mem, t) && GapFreeState(t)
    ensures Sound(Commit(r, next, io).0)
    ensures Commit(r, next, io).1.Failure? ==> !Commit(r, next, io).0.healthy
    ensures Commit(r, next, io).1.Success? ==>
      Commit(r, next, io).0.mem == TrimState(next, r.policy) && Commit(r, next, io).0.durable == |r.published|
  {
    var t := TrimState(next, r.policy);
    if Acceptable(t, r.policy) {
      HistoryGrows(r.published, t);
    }
  }

  lemma {:induction false} MemIsGood(r: Registry)
    requires Sound(r) && r.up
    ensures Acceptable(r.mem, r.policy) && GapFreeState(r.mem)
  {
    assert GoodState(r.published[|r.published| - 1]);
  }

  lemma {:induction false} SubmitKeepsSound(r: Registry, sub: Submission, quota: nat, now: u64, io: Io)
    requires Sound(r) && r.up
    ensures Sound(Submit(r, sub, quota, now, io).0)
  {
    hide Commit, Admit, Acceptable;
    MemIsGood(r);
    if Submit(r, sub, quota, now, io).0 != r {
      AdmitKeepsState(r.mem, sub, r.policy, now);
      AdmitFollows(r.mem, sub, r.policy, now);
      CommitKeepsSound(r, Admit(r.mem, sub, r.policy, now), io);
    }
  }

  lemma {:induction false} UpdateKeepsSound(r: Registry, owner: string, id: string, m: Mutation, now: u64, io: Io)
    requires Sound(r) && r.up
    ensures Sound(UpdateOwned(r, owner, id, m, now, io).0)
  {
    hide Commit, Mutate, Acceptable;
    MemIsGood(r);
    if UpdateOwned(r, owner, id, m, now, io).0 != r {
      MutationKeepsState(r.mem, id, m, r.policy, now);
      CommitKeepsSound(r, WithJob(r.mem, id, Mutate(r.mem.jobs[id], m, r.policy, now).value), io);
    }
  }

  lemma {:induction false} CloseKeepsSound(r: Registry, now: u64, io: Io)
    requires Sound(r) && r.up
    ensures Sound(Close(r, now, io).0)
  {
    hide Commit, CloseState, ClosesAll;
    MemIsGood(r);
    if ClosesAll(r.mem, r.policy, now) {
      CloseKeepsState(r.mem, r.policy, now);
      CommitKeepsSound(r.(closed := true), CloseState(r.mem, r.policy, now), io);
    }
  }

  lemma {:induction false} EvolvesBySteps(a: StoredJob, b: StoredJob, c: StoredJob)
    requires Evolves(a, b) && Evolves(b, c)
    requires b.state == a.state && b.marker == a.marker && b.result == a.result && b.error == a.error
    ensures Evolves(a, c)
  {
  }

  /** Trimming and then recovering is one good update of every job. */
  lemma {:induction false} RecoveredFollows(loaded: PersistentState, identify: Identify, policy: Policy, now: u64)
    requires policy.Valid() && GoodState(loaded)
    requires RecoversAll(TrimState(loaded, policy), identify, policy, now)
    requires |loaded.jobs| <= policy.maxJobs
    ensures var trimmed := TrimState(loaded, policy);
      var recovered := RecoverState(trimmed, identify, policy, now);
      && TrimState(recovered, policy) == recovered && GoodState(recovered) && Retained(recovered, policy)
      && Follows(loaded, recovered) && !HasNonterminal(recovered)
  {
    var trimmed := TrimState(loaded, policy);
    var recovered := RecoverState(trimmed, identify, policy, now);
    TrimKeepsState(loaded, policy);
    GoodJobsFollow(loaded, trimmed, policy);
    RecoverKeepsState(trimmed, identify, policy, now);
    GoodJobsKeepState(trimmed, recovered, policy);
    forall i | i in loaded.jobs ensures JobFollows(loaded, recovered, i) {
      assert GoodJob(loaded, trimmed, policy, i) && GoodJob(trimmed, recovered, policy, i);
      EvolvesBySteps(loaded.jobs[i], trimmed.jobs[i], recovered.jobs[i]);
    }
  }

  lemma {:induction false} UnchangedByRecovery(loaded: PersistentState, identify: Identify, policy: Policy, now: u64)
    requires !NeedsTrim(loaded, policy) && !HasNonterminal(TrimState(loaded, policy))
    requires |loaded.jobs| <= policy.maxJobs
    ensures TrimState(loaded, policy) == loaded && Retained(loaded, policy)
    ensures RecoversAll(loaded, identify, policy, now) && RecoverState(loaded, identify, policy, now) == loaded
  {
    forall i | i in loaded.jobs ensures RetainedJob(loaded.jobs[i], policy) {
      assert |loaded.jobs[i].events| <= policy.maxEvents;
    }
    TrimRetained(loaded, policy);
    RecoveryIsIdempotent(loaded, identify, policy, now);
  }

  lemma {:induction false} RecoveryKeepsCount(loaded: PersistentState, identify: Identify, policy: Policy, now: u64)
    requires RecoversAll(TrimState(loaded, policy), identify, policy, now)
    ensures |TrimState(RecoverState(TrimState(loaded, policy), identify, policy, now), policy).jobs| == |loaded.jobs|
  {
    var t := TrimState(RecoverState(TrimState(loaded, policy), identify, policy, now), policy);
    assert t.jobs.Keys == loaded.jobs.Keys;
    assert |t.jobs| == |t.jobs.Keys| == |loaded.jobs.Keys| == |loaded.jobs|;
  }

  lemma {:induction false} CrashKeepsSound(r: Registry, k: nat, powerLoss: bool, policy: Policy)
    requires Sound(r) && policy.Valid() && r.durable <= k < |r.published| && (powerLoss || k == |r.published| - 1)
    ensures Sound(Crashed(r, k, powerLoss, policy))
  {
    HistoryPrefix(r.published, k);
  }

  /** What a reload yields is a valid successor of what was read, with every job finished. */
  lemma {:induction false} ReloadFollows(loaded: PersistentState, policy: Policy, identify: Identify, now: u64)
    requires policy.Valid() && GoodState(loaded) && Reload(loaded, policy, identify, now).Success?
    ensures var (recovered, changed) := Reload(loaded, policy, identify, now).value;
      && GoodState(recovered) && Retained(recovered, policy) && Follows(loaded, recovered) && !HasNonterminal(recovered)
      && (!changed ==> recovered == loaded)
  {
    RecoveryKeepsCount(loaded, identify, policy, now);
    RecoveredFollows(loaded, identify, policy, now);
    if !NeedsTrim(loaded, policy) && !HasNonterminal(TrimState(loaded, policy)) {
      UnchangedByRecovery(loaded, identify, policy, now);
    }
  }

  /** A store opens only with every job finished; a failed open leaves a store that can be opened again. */
  lemma {:induction false} OpenKeepsSound(r: Registry, identify: Identify, now: u64, io: Io)
    requires Sound(r) && !r.up
    ensures Sound(Open(r, identify, now, io).0)
    ensures Open(r, identify, now, io).0.up ==> !HasNonterminal(Open(r, identify, now, io).0.mem)
  {
    hide Reload;
    var loaded := Newest(r.published);
    assert GoodState(r.published[|r.published| - 1]);
    var reloaded := Reload(loaded, r.policy, identify, now);
    if reloaded.Success? {
      var recovered := reloaded.value.0;
      assert Retained(recovered, r.policy) && !HasNonterminal(recovered) && (!reloaded.value.1 ==> recovered == loaded)
             && GoodHistory(r.published + [recovered]) by {
        ReloadFollows(loaded, r.policy, identify, now);
        HistoryGrows(r.published, recovered);
      }
    }
  }

  /** Reading back a recovered store changes nothing more, whatever the files look like by then. */
  lemma {:induction false} ReloadIsIdempotent(loaded: PersistentState, policy: Policy, identify: Identify, now: u64,
                                              identify': Identify, now': u64)
    requires policy.Valid() && GoodState(loaded) && Reload(loaded, policy, identify, now).Success?
    ensures var recovered := Reload(loaded, policy, identify, now).value.0;
      Reload(recovered, policy, identify', now') == Success((recovered, false))
  {
    ReloadFollows(loaded, policy, identify, now);
    var recovered := Reload(loaded, policy, identify, now).value.0;
    RecoveryIsIdempotent(recovered, identify', policy, now');
    assert !HasNonterminal(TrimState(recovered, policy));
  }

  // ----- Runs -----

  datatype Call =
    | DoSubmit(sub: Submission, quota: nat, now: u64, io: Io)
    | DoUpdate(owner: string, id: string, m: Mutation, now: u64, io: Io)
    | DoClose(now: u64, io: Io)
    | DoReopen(k: nat, powerLoss: bool, policy: Policy, identify: Identify, now: u64, io: Io)

  predicate Enabled(r: Registry, call: Call) {
    match call
    case DoReopen(k, powerLoss, policy, _, _, _) =>
      policy.Valid() && r.durable <= k < |r.published| && (powerLoss || k == |r.published| - 1)
    case _ => r.up
  }

  function Apply(r: Registry, call: Call): Registry
    requires Enabled(r, call)
  {
    match call
    case DoSubmit(sub, quota, now, io) => Submit(r, sub, quota, now, io).0
    case DoUpdate(owner, id, m, now, io) => UpdateOwned(r, owner, id, m, now, io).0
    case DoClose(now, io) => Close(r, now, io).0
    case DoReopen(k, powerLoss, policy, identify, now, io) =>
        Open(Crashed(r, k, powerLoss, policy), identify, now, io).0
  }

  datatype Run = Run(states: seq<Registry>, calls: seq<Call>)

  ghost predicate CallAt(run: Run, n: nat)
    requires n < |run.calls| && n + 1 < |run.states|
  {
    && Enabled(run.states[n], run.calls[n])
    && run.states[n + 1] == Apply(run.states[n], run.calls[n])
  }

  /** Each state is what the call makes of the one before. */
  ghost predicate IsPath(run: Run) {
    && |run.states| == |run.calls| + 1
    && forall n {:trigger CallAt(run, n)} | 0 <= n < |run.calls| :: CallAt(run, n)
  }

  /** A whole run starts without a store file. */
  ghost predicate IsRun(run: Run) {
    IsPath(run) && run.states[0].policy.Valid() && run.states[0] == Fresh(run.states[0].policy)
  }

  /** Part of a run, or of any other history that starts from a sound registry. */
  ghost predicate SoundPath(run: Run) {
    IsPath(run) && Sound(run.states[0])
  }

  lemma {:induction false} CallKeepsSound(r: Registry, call: Call)
    requires Sound(r) && Enabled(r, call)
    ensures Sound(Apply(r, call))
  {
    match call
    case DoSubmit(sub, quota, now, io) => SubmitKeepsSound(r, sub, quota, now, io);
    case DoUpdate(owner, id, m, now, io) => UpdateKeepsSound(r, owner, id, m, now, io);
    case DoClose(now, io) => CloseKeepsSound(r, now, io);
    case DoReopen(k, powerLoss, policy, identify, now, io) =>
      CrashKeepsSound(r, k, powerLoss, policy);
      OpenKeepsSound(Crashed(r, k, powerLoss, policy), identify, now, io);
  }

  lemma {:induction false} PathStaysSound(run: Run, n: nat)
    requires SoundPath(run) && n < |run.states|
    ensures Sound(run.states[n])
  {
    if n > 0 {
      PathStaysSound(run, n - 1);
      assert CallAt(run, n - 1);
      CallKeepsSound(run.states[n - 1], run.calls[n - 1]);
    }
  }

  /** At every return of every run, memory is the newest published snapshot and every snapshot is valid. */
  lemma {:induction false} EveryRunIsSound(run: Run, n: nat)
    requires IsRun(run) && n < |run.states|
    ensures SoundPath(run) && Sound(run.states[n])
  {
    FreshIsSound(run.states[0].policy);
    PathStaysSound(run, n);
  }

  // ----- A failed commit stops every owner until a restart -----

  lemma {:induction false} UnhealthyRefuses(r: Registry, call: Call)
    requires r.up && !r.healthy && Enabled(r, call) && (call.DoSubmit? || call.DoUpdate?)
    ensures Apply(r, call) == r
    ensures call.DoSubmit? ==> Submit(r, call.sub, call.quota, call.now, call.io).1.Failure?
    ensures call.DoUpdate? ==> UpdateOwned(r, call.owner, call.id, call.m, call.now, call.io).1.Failure?
  {
  }

  /** Only a restart makes an unhealthy registry healthy again; a shutdown does not. */
  lemma {:induction false} UnhealthyStays(run: Run, i: nat, j: nat)
    requires SoundPath(run) && i <= j < |run.states|
    requires run.states[i].up && !run.states[i].healthy
    requires forall n | i <= n < j :: !run.calls[n].DoReopen?
    ensures run.states[j].up && !run.states[j].healthy
  {
    hide Apply;
    if i < j {
      UnhealthyStays(run, i, j - 1);
      assert CallAt(run, j - 1);
      OnlyGrows(run.states[j - 1], run.calls[j - 1]);
    }
  }

  lemma {:induction false} OnlyGrows(r: Registry, call: Call)
    requires Enabled(r, call) && !call.DoReopen?
    ensures Grows(r, Apply(r, call))
  {
    if call.DoClose? {
      CloseGrows(r, call.now, call.io);
    }
  }

  // ----- What later snapshots keep -----

  /** What any number of commits preserves of a job. */
  ghost predicate LaterJob(a: StoredJob, b: StoredJob) {
    && SameRequest(a, b)
    && (a.state == b.state || Level(a.state) < Level(b.state))
    && (a.state.IsTerminal() ==>
        b.state == a.state && b.result == a.result && b.error == a.error && b.marker == a.marker)
    && a.nextSequence <= b.nextSequence
  }

  ghost predicate LaterJobAt(s: PersistentState, t: PersistentState, id: string)
    requires id in s.jobs
  {
    id in t.jobs && LaterJob(s.jobs[id], t.jobs[id])
  }

  ghost predicate Later(s: PersistentState, t: PersistentState) {
    && s.nextJob <= t.nextJob
    && (forall k {:trigger k in t.idempotency} | k in s.idempotency ::
        k in t.idempotency && t.idempotency[k] == s.idempotency[k])
    && (forall id {:trigger LaterJobAt(s, t, id)} | id in s.jobs :: LaterJobAt(s, t, id))
  }

  lemma {:induction false} LaterReflexive(s: PersistentState)
    ensures Later(s, s)
  {
  }

  lemma {:induction false} LaterStep(s: PersistentState, t: PersistentState, u: PersistentState)
    requires Later(s, t) && Follows(t, u)
    ensures Later(s, u)
  {
    forall id | id in s.jobs ensures LaterJobAt(s, u, id) {
      assert LaterJobAt(s, t, id) && JobFollows(t, u, id);
    }
    forall k | k in s.idempotency ensures k in u.idempotency && u.idempotency[k] == s.idempotency[k] {
      assert k in t.idempotency;
    }
  }

  lemma {:induction false} HistoryIsLater(published: seq<PersistentState>, a: nat, b: nat)
    requires GoodHistory(published) && a <= b < |published|
    ensures Later(published[a], published[b])
  {
    if a == b {
      LaterReflexive(published[a]);
    } else {
      HistoryIsLater(published, a, b - 1);
      assert FollowsAt(published, b - 1);
      LaterStep(published[a], published[b - 1], published[b]);
    }
  }

  /** Snapshot `a` outlives every call unless a power loss finds it unsynced. */
  predicate Keeps(call: Call, r: Registry, a: nat) {
    a <= r.durable || (call.DoReopen? ==> !call.powerLoss)
  }

  lemma {:induction false} CallKeepsSnapshot(r: Registry, call: Call, a: nat)
    requires Sound(r) && Enabled(r, call) && a < |r.published| && Keeps(call, r, a)
    ensures a < |Apply(r, call).published| && Apply(r, call).published[a] == r.published[a]
    ensures Apply(r, call).durable >= r.durable
  {
    hide Submit, UpdateOwned, Close;
    if call.DoReopen? {
      OpenGrows(Crashed(r, call.k, call.powerLoss, call.policy), call.identify, call.now, call.io);
    } else {
      OnlyGrows(r, call);
    }
  }

  lemma {:induction false} OpenGrows(r: Registry, identify: Identify, now: u64, io: Io)
    requires r.published != [] && r.durable < |r.published|
    ensures r.published <= Open(r, identify, now, io).0.published
    ensures Open(r, identify, now, io).0.durable >= r.durable
  {
  }

  /** Snapshot `a` of moment `i` is still on disk at moment `j`. */
  ghost predicate Survives(run: Run, i: nat, j: nat, a: int)
    requires i <= j < |run.states| && |run.states| == |run.calls| + 1
  {
    0 <= a < |run.states[i].published| &&
    (a <= run.states[i].durable || forall n | i <= n < j :: run.calls[n].DoReopen? ==> !run.calls[n].powerLoss)
  }

  lemma {:induction false} SnapshotAfterCall(run: Run, n: nat, a: nat)
    requires SoundPath(run) && n < |run.calls| && a < |run.states[n].published| && Keeps(run.calls[n], run.states[n], a)
    ensures a < |run.states[n + 1].published| && run.states[n + 1].published[a] == run.states[n].published[a]
    ensures run.states[n + 1].durable >= run.states[n].durable
  {
    PathStaysSound(run, n);
    assert CallAt(run, n);
    CallKeepsSnapshot(run.states[n], run.calls[n], a);
  }

  lemma {:induction false} SnapshotSurvives(run: Run, i: nat, j: nat, a: int)
    requires SoundPath(run) && i <= j < |run.states| && Survives(run, i, j, a)
    ensures a < |run.states[j].published| && run.states[j].published[a] == run.states[i].published[a]
    ensures run.states[j].durable >= run.states[i].durable
  {
    if i < j {
      assert Survives(run, i, j - 1, a);
      SnapshotSurvives(run, i, j - 1, a);
      SnapshotAfterCall(run, j - 1, a);
    }
  }

  /** Memory at any later moment is later than every surviving snapshot. */
  lemma {:induction false} MemoryIsLater(run: Run, i: nat, j: nat, a: int)
    requires SoundPath(run) && i <= j < |run.states| && Survives(run, i, j, a) && run.states[j].up
    ensures Later(run.states[i].published[a], run.states[j].mem)
  {
    SnapshotSurvives(run, i, j, a);
    PathStaysSound(run, j);
    HistoryIsLater(run.states[j].published, a, |run.states[j].published| - 1);
  }

  // ----- Exactly-once submission -----

  /** Call `n` is a submit of this owner and key that answers with this job. */
  ghost predicate Acknowledges(run: Run, n: nat, owner: string, key: string, id: string)
    requires n < |run.calls| && |run.states| == |run.calls| + 1
  {
    && run.calls[n].DoSubmit? && run.calls[n].sub.owner == owner && run.calls[n].sub.key == key
    && var answer := Submit(run.states[n], run.calls[n].sub, run.calls[n].quota, run.calls[n].now, run.calls[n].io).1;
       answer.Success? && answer.value.jobId == id
  }

  ghost predicate AnswersFromIndex(r: Registry, k: string, id: string) {
    k in r.mem.idempotency && r.mem.idempotency[k] == id
  }

  /** An acknowledged submission is in the index; a fresh one is synced before it is acknowledged. */
  lemma {:induction false} AcknowledgedIsIndexed(r: Registry, sub: Submission, quota: nat, now: u64, io: Io)
    requires Sound(r) && r.up && Submit(r, sub, quota, now, io).1.Success?
    ensures AnswersFromIndex(Submit(r, sub, quota, now, io).0, MapKey(sub.owner, sub.key),
                             Submit(r, sub, quota, now, io).1.value.jobId)
    ensures !Submit(r, sub, quota, now, io).1.value.replay ==>
      Submit(r, sub, quota, now, io).0.durable == |Submit(r, sub, quota, now, io).0.published| - 1
    ensures MapKey(sub.owner, sub.key) in r.mem.idempotency ==>
      AnswersFromIndex(r, MapKey(sub.owner, sub.key), Submit(r, sub, quota, now, io).1.value.jobId)
  {
    MemIsGood(r);
    var k := MapKey(sub.owner, sub.key);
    if k in r.mem.idempotency {
      var id := r.mem.idempotency[k];
      assert ValidJob(id, r.mem.jobs[id]);
    } else {
      AdmitKeepsState(r.mem, sub, r.policy, now);
    }
  }

  /** Once a surviving snapshot holds the key, every later answer is the indexed job. */
  lemma {:induction false} AnsweredAgain(run: Run, i: nat, j: nat, a: int, owner: string, key: string, id: string,
                                         id': string)
    requires SoundPath(run) && i <= j < |run.calls| && run.states[i].up
    requires AnswersFromIndex(run.states[i], MapKey(owner, key), id)
    requires Survives(run, i, j, a) && MapKey(owner, key) in run.states[i].published[a].idempotency
    requires Acknowledges(run, j, owner, key, id')
    ensures id' == id
  {
    hide Submit, MapKey;
    AcknowledgedAt(run, j, owner, key, id');
    IndexSurvives(run, i, j, a, MapKey(owner, key), id);
  }

  /**
   All successful submits of one owner and key return the same job, across failures and restarts, when some
   snapshot that holds the key outlives the calls between them: a synced one always does, and without a
   power loss every one.
   */
  lemma {:induction false} SubmitIsExactlyOnce(run: Run, i: nat, n: nat, j: nat, a: int, owner: string, key: string,
                                               id: string, id': string)
    requires SoundPath(run) && i < j < |run.calls| && n == i + 1
    requires Acknowledges(run, i, owner, key, id) && Acknowledges(run, j, owner, key, id')
    requires Survives(run, n, j, a) && MapKey(owner, key) in run.states[n].published[a].idempotency
    ensures id' == id
  {
    hide Submit, AnswersFromIndex, MapKey;
    assert run.states[n].up && AnswersFromIndex(run.states[n], MapKey(owner, key), id) by {
      AcknowledgedAt(run, i, owner, key, id);
    }
    AnsweredAgain(run, n, j, a, owner, key, id, id');
  }

  /** The index of a surviving snapshot is part of the index from then on. */
  lemma {:induction false} IndexSurvives(run: Run, i: nat, j: nat, a: int, k: string, id: string)
    requires SoundPath(run) && i <= j < |run.states| && run.states[i].up && run.states[j].up
    requires AnswersFromIndex(run.states[i], k, id)
    requires Survives(run, i, j, a) && k in run.states[i].published[a].idempotency
    ensures AnswersFromIndex(run.states[j], k, id)
  {
    hide Sound, GoodHistory;
    MemoryIsLater(run, i, i, a);
    MemoryIsLater(run, i, j, a);
    assert k in run.states[i].mem.idempotency && k in run.states[j].mem.idempotency;
  }

  lemma {:induction false} AcknowledgedAt(run: Run, n: nat, owner: string, key: string, id: string)
    requires SoundPath(run) && n < |run.calls| && Acknowledges(run, n, owner, key, id)
    ensures run.states[n].up && run.states[n + 1].up
    ensures AnswersFromIndex(run.states[n + 1], MapKey(owner, key), id)
    ensures MapKey(owner, key) in run.states[n].mem.idempotency ==>
              AnswersFromIndex(run.states[n], MapKey(owner, key), id)
  {
    PathStaysSound(run, n);
    assert CallAt(run, n);
    var c := run.calls[n];
    AcknowledgedIsIndexed(run.states[n], c.sub, c.quota, c.now, c.io);
  }

  /** The snapshot behind a fresh acceptance survives everything. */
  lemma {:induction false} FreshAcceptanceSurvives(run: Run, i: nat, j: nat)
    requires SoundPath(run) && i < j < |run.states| && i < |run.calls| && run.calls[i].DoSubmit?
    requires var answer := Submit(run.states[i], run.calls[i].sub, run.calls[i].quota, run.calls[i].now,
                                  run.calls[i].io).1;
      answer.Success? && !answer.value.replay
    ensures Survives(run, i + 1, j, |run.states[i + 1].published| - 1)
    ensures MapKey(run.calls[i].sub.owner, run.calls[i].sub.key) in Newest(run.states[i + 1].published).idempotency
  {
    PathStaysSound(run, i);
    assert CallAt(run, i);
    var c := run.calls[i];
    AcknowledgedIsIndexed(run.states[i], c.sub, c.quota, c.now, c.io);
    PathStaysSound(run, i + 1);
  }

  // ----- Job lifecycle -----

  /** The outcome of a finished job never changes once a surviving snapshot shows it. */
  lemma {:induction false} TerminalIsFrozen(run: Run, i: nat, j: nat, a: int, id: string)
    requires SoundPath(run) && i <= j < |run.states| && run.states[j].up && Survives(run, i, j, a)
    requires id in run.states[i].published[a].jobs && run.states[i].published[a].jobs[id].state.IsTerminal()
    ensures id in run.states[j].mem.jobs
    ensures var shown, now := run.states[i].published[a].jobs[id], run.states[j].mem.jobs[id];
      now.state == shown.state && now.result == shown.result && now.error == shown.error && now.marker == shown.marker
  {
    MemoryIsLater(run, i, j, a);
    assert LaterJobAt(run.states[i].published[a], run.states[j].mem, id);
  }

  /** The job is on the synced part of the disk and no longer queued in memory. */
  ghost predicate Started(r: Registry, id: string) {
    && r.durable < |r.published|
    && id in r.published[r.durable].jobs
    && (r.up ==> id in r.mem.jobs && r.mem.jobs[id].state != Queued)
  }

  lemma {:induction false} FollowedJob(s: PersistentState, t: PersistentState, id: string)
    requires Later(s, t) && id in s.jobs
    ensures id in t.jobs && (s.jobs[id].state != Queued ==> t.jobs[id].state != Queued)
  {
    assert LaterJobAt(s, t, id);
  }

  lemma {:induction false} ReopenFinishesAll(r: Registry, call: Call)
    requires Sound(r) && Enabled(r, call) && call.DoReopen? && Apply(r, call).up
    ensures !HasNonterminal(Apply(r, call).mem)
  {
    CrashKeepsSound(r, call.k, call.powerLoss, call.policy);
    OpenKeepsSound(Crashed(r, call.k, call.powerLoss, call.policy), call.identify, call.now, call.io);
  }

  lemma {:induction false} GrownIsLater(r: Registry, r': Registry)
    requires Sound(r) && Sound(r') && r.up && Grows(r, r')
    ensures Later(r.mem, r'.mem)
  {
    HistoryIsLater(r'.published, |r.published| - 1, |r'.published| - 1);
  }

  lemma {:induction false} DurableJobStays(r: Registry, r': Registry, id: string)
    requires Sound(r) && Sound(r') && id in r.published[r.durable].jobs
    requires r.durable < |r'.published| && r'.published[r.durable] == r.published[r.durable] && r'.durable >= r.durable
    ensures id in r'.published[r'.durable].jobs
    ensures id in Newest(r'.published).jobs
  {
    HistoryIsLater(r'.published, r.durable, r'.durable);
    FollowedJob(r'.published[r.durable], r'.published[r'.durable], id);
    HistoryIsLater(r'.published, r'.durable, |r'.published| - 1);
    FollowedJob(r'.published[r'.durable], Newest(r'.published), id);
  }

  lemma {:induction false} StartedStays(r: Registry, call: Call, id: string)
    requires Sound(r) && Enabled(r, call) && Started(r, id)
    ensures Started(Apply(r, call), id)
  {
    hide Apply, Enabled;
    var r' := Apply(r, call);
    CallKeepsSound(r, call);
    CallKeepsSnapshot(r, call, r.durable);
    DurableJobStays(r, r', id);
    if r'.up {
      if call.DoReopen? {
        ReopenFinishesAll(r, call);
        assert r'.mem.jobs[id].state.IsTerminal();
      } else {
        OnlyGrows(r, call);
        GrownIsLater(r, r');
        FollowedJob(r.mem, r'.mem, id);
      }
    }
  }

  /** Call `n` moves the job from queued to running in live memory. */
  ghost predicate Enters(run: Run, n: nat, id: string)
    requires n + 1 < |run.states|
  {
    var r, r' := run.states[n], run.states[n + 1];
    && r.up && r'.up && id in r.mem.jobs && id in r'.mem.jobs
    && r.mem.jobs[id].state == Queued && r'.mem.jobs[id].state == Running
  }

  lemma {:induction false} EnteringStarts(run: Run, n: nat, id: string)
    requires SoundPath(run) && n < |run.calls| && Enters(run, n, id)
    ensures Started(run.states[n + 1], id)
  {
    PathStaysSound(run, n);
    assert CallAt(run, n);
    CallStarts(run.states[n], run.calls[n], id);
  }

  lemma {:induction false} CallStarts(r: Registry, call: Call, id: string)
    requires Sound(r) && Enabled(r, call) && r.up && Apply(r, call).up
    requires id in r.mem.jobs && r.mem.jobs[id].state == Queued
    requires id in Apply(r, call).mem.jobs && Apply(r, call).mem.jobs[id].state == Running
    ensures Started(Apply(r, call), id)
  {
    hide Apply, Enabled;
    assert HasNonterminal(Apply(r, call).mem);
    if call.DoReopen? {
      ReopenFinishesAll(r, call);
    } else {
      HealthyToEnter(r, call, id);
      assert HasNonterminal(r.mem);
      CallKeepsSound(r, call);
      CallKeepsSnapshot(r, call, r.durable);
      DurableJobStays(r, Apply(r, call), id);
    }
  }

  lemma {:induction false} HealthyToEnter(r: Registry, call: Call, id: string)
    requires Sound(r) && Enabled(r, call) && !call.DoReopen? && r.up
    requires id in r.mem.jobs && r.mem.jobs[id].state == Queued
    requires id in Apply(r, call).mem.jobs && Apply(r, call).mem.jobs[id].state == Running
    ensures r.healthy
  {
    if !r.healthy {
      if call.DoClose? {
        CloseNeverStarts(r, call.now, call.io, id);
      } else {
        UnhealthyRefuses(r, call);
      }
    }
  }

  lemma {:induction false} ClosedIsNotRunning(r: Registry, now: u64, id: string)
    requires Sound(r) && r.up && ClosesAll(r.mem, r.policy, now) && id in r.mem.jobs
    ensures var next := CloseState(r.mem, r.policy, now);
      TrimState(next, r.policy) == next && id in next.jobs && next.jobs[id].state != Running
  {
    hide GoodHistory, CloseJob;
    MemIsGood(r);
    CloseKeepsState(r.mem, r.policy, now);
    CloseGoodJob(r.mem, r.policy, now, id);
  }

  lemma {:induction false} CloseNeverStarts(r: Registry, now: u64, io: Io, id: string)
    requires Sound(r) && r.up && id in r.mem.jobs && r.mem.jobs[id].state == Queued
    ensures id in Close(r, now, io).0.mem.jobs ==> Close(r, now, io).0.mem.jobs[id].state != Running
  {
    hide Sound, Acceptable, CloseState, TrimState, ClosesAll;
    if ClosesAll(r.mem, r.policy, now) {
      ClosedIsNotRunning(r, now, id);
    }
  }

  lemma {:induction false} StartedAfterCall(run: Run, n: nat, id: string)
    requires SoundPath(run) && n < |run.calls| && Started(run.states[n], id)
    ensures Started(run.states[n + 1], id)
  {
    PathStaysSound(run, n);
    assert CallAt(run, n);
    StartedStays(run.states[n], run.calls[n], id);
  }

  lemma {:induction false} StartedForever(run: Run, i: nat, j: nat, id: string)
    requires SoundPath(run) && i <= j < |run.states| && Started(run.states[i], id)
    ensures Started(run.states[j], id)
  {
    if i < j {
      StartedForever(run, i, j - 1, id);
      StartedAfterCall(run, j - 1, id);
    }
  }

  /** No job enters Running twice, whatever failures, power losses and restarts lie in between. */
  lemma {:induction false} RunsAtMostOnce(run: Run, i: nat, j: nat, id: string)
    requires SoundPath(run) && i < j < |run.calls| && Enters(run, i, id)
    ensures !Enters(run, j, id)
  {
    EnteringStarts(run, i, id);
    StartedForever(run, i + 1, j, id);
  }

  // ----- Pack publication -----

  /**
   A completed Pack job was once on disk unfinished, with its output found absent before it ran and
   the identity of its archive already recorded: exactly the record it still carries.
   */
  lemma {:induction false} CompletedPackWasRecorded(published: seq<PersistentState>, n: nat, id: string)
    returns (m: nat)
    requires GoodHistory(published) && n < |published| && id in published[n].jobs
    requires published[n].jobs[id].state == Completed && published[n].jobs[id].operation.Pack?
    ensures m < n && id in published[m].jobs && !published[m].jobs[id].state.IsTerminal()
    ensures PublicationRecorded(published[m].jobs[id]) && published[m].jobs[id].marker == published[n].jobs[id].marker
    ensures published[m].jobs[id].operation == published[n].jobs[id].operation
  {
    assert n > 0;
    assert FollowsAt(published, n - 1);
    var s, t := published[n - 1], published[n];
    assert id !in s.jobs ==> StartsQueued(t, id);
    if id in s.jobs {
      assert JobFollows(s, t, id);
      if s.jobs[id].state == Completed {
        m := CompletedPackWasRecorded(published, n - 1, id);
      } else {
        m := n - 1;
      }
    }
  }

  /** The same for live memory at any moment of any run. */
  lemma {:induction false} CompletedPackIsOwned(run: Run, n: nat, id: string) returns (m: nat)
    requires SoundPath(run) && n < |run.states| && run.states[n].up && id in run.states[n].mem.jobs
    requires run.states[n].mem.jobs[id].state == Completed && run.states[n].mem.jobs[id].operation.Pack?
    ensures m + 1 < |run.states[n].published| && id in run.states[n].published[m].jobs
    ensures var recorded := run.states[n].published[m].jobs[id];
      && !recorded.state.IsTerminal() && recorded.marker == run.states[n].mem.jobs[id].marker
      && recorded.marker.Some? && recorded.marker.value.outputWasAbsent && recorded.marker.value.published.Some?
  {
    PathStaysSound(run, n);
    m := CompletedPackWasRecorded(run.states[n].published, |run.states[n].published| - 1, id);
  }
}
