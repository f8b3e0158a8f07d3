/**
 The persistent state of the job registry: its records, the validation every commit runs, and what
 each mutator does to one job or to the whole state.
 */
module JobStore {
  import opened Base
  import opened TaskGraph
  import opened JobIds

  const STORE_SCHEMA_VERSION: u16 := 1
  const PACK_PUBLICATION_MARKER_VERSION: u8 := 1

  datatype Policy = Policy(maxStoreBytes: u64, maxEvents: nat, maxJobs: nat) {
    predicate Valid() {
      maxStoreBytes > 0 && maxEvents > 0 && maxJobs > 0
    }
  }

  datatype JobState = Queued | Running | Cancelling | Completed | Failed | Cancelled {
    predicate IsTerminal() {
      Completed? || Failed? || Cancelled?
    }
  }

  datatype ErrorKind =
    | JobConflict | Internal | CancelledKind | ResourceLimitKind | InvalidParams | IntegrityMismatch | JobNotFound
      | OtherKind

  datatype RpcError = RpcError(kind: ErrorKind, message: string)

  type Outcome<T> = Result<T, RpcError>

  datatype RpcMethod = PackMethod | UnpackMethod | ListMethod | InspectMethod | ExtractMethod | ReadRangeMethod
    | VerifyMethod | OtherMethod

  datatype StoredOperation =
    | Pack(inputs: seq<string>, output: string, profile: string)
    | Unpack(archive: string, destination: string)
    | List(archive: string)
    | Inspect(archive: string)
    | Extract(archive: string, entry: string, destination: string)
    | ReadRange(archive: string, entry: string, offset: u64, length: u64)
    | Verify(archive: string)

  function OperationMethod(operation: StoredOperation): RpcMethod {
    match operation
    case Pack(_, _, _) => PackMethod
    case Unpack(_, _) => UnpackMethod
    case List(_) => ListMethod
    case Inspect(_) => InspectMethod
    case Extract(_, _, _) => ExtractMethod
    case ReadRange(_, _, _, _) => ReadRangeMethod
    case Verify(_) => VerifyMethod
  }

  datatype JobLimits = JobLimits(maxThreads: u64, maxMemory: u64, maxOutput: u64)

  datatype ArchiveIdentity = ArchiveIdentity(length: u64, hash: bytes)

  datatype Marker = Marker(
    version: u8,
    jobId: string,
    paramsHash: bytes,
    output: string,
    outputWasAbsent: bool,
    published: Option<ArchiveIdentity>)

  datatype ProgressEvent = ProgressEvent(jobId: string, sequence: u64, state: JobState, phase: string, at: u64)

  /** A result is kept as its JSON text. */
  datatype StoredJob = StoredJob(
    jobId: string,
    owner: string,
    rpcMethod: RpcMethod,
    priority: JobPriority,
    key: string,
    paramsHash: bytes,
    limits: JobLimits,
    operation: StoredOperation,
    state: JobState,
    createdAt: u64,
    updatedAt: u64,
    result: Option<string>,
    error: Option<RpcError>,
    events: seq<ProgressEvent>,
    nextSequence: u64,
    marker: Option<Marker>)

  datatype PersistentState = PersistentState(
    schema: u16,
    nextJob: u64,
    jobs: map<string, StoredJob>,
    idempotency: map<string, string>)

  function EmptyState(): PersistentState {
    PersistentState(STORE_SCHEMA_VERSION, 1, map[], map[])
  }

  // ----- validate_state -----

  predicate ValidResult(job: StoredJob) {
    match job.state
    case Completed => job.result.Some? && job.error.None?
    case Failed => job.result.None? && job.error.Some?
    case Cancelled => job.result.None?
    case _ => job.result.None? && job.error.None?
  }

  predicate ValidMarker(job: StoredJob) {
    job.marker.None? ||
    var m := job.marker.value;
    && job.operation.Pack?
    && m.version == PACK_PUBLICATION_MARKER_VERSION
    && m.jobId == job.jobId && m.paramsHash == job.paramsHash && m.output == job.operation.output
    && job.state != Queued
    && (m.published.Some? ==> m.outputWasAbsent)
  }

  /** Positive, strictly rising sequence numbers of one job. */
  predicate Rising(events: seq<ProgressEvent>, jobId: string) {
    && (forall i | 0 <= i < |events| :: events[i].jobId == jobId && events[i].sequence > 0)
    && (forall i | 0 < i < |events| :: events[i - 1].sequence < events[i].sequence)
  }

  predicate ValidEvents(job: StoredJob) {
    && job.events != []
    && Rising(job.events, job.jobId)
    && job.events[|job.events| - 1].sequence < U64_MAX
    && job.nextSequence == job.events[|job.events| - 1].sequence + 1
    && job.events[|job.events| - 1].state == job.state
  }

  predicate ValidIdentity(id: string, job: StoredJob) {
    && id == job.jobId
    && ValidIdentifier(job.owner, "session-")
    && job.rpcMethod == OperationMethod(job.operation)
    && job.limits.maxThreads != 0 && job.limits.maxMemory != 0 && job.limits.maxOutput != 0
    && ValidIdempotencyKey(job.key)
    && ParseJobNumber(id).Some?
  }

  predicate ValidJob(id: string, job: StoredJob) {
    ValidIdentity(id, job) && ValidEvents(job) && ValidResult(job) && ValidMarker(job)
  }

  predicate RetainedJob(job: StoredJob, policy: Policy) {
    |job.events| <= policy.maxEvents
  }

  predicate Indexed(state: PersistentState, id: string)
    requires id in state.jobs
  {
    var k := MapKey(state.jobs[id].owner, state.jobs[id].key);
    k in state.idempotency && state.idempotency[k] == id
  }

  predicate Counted(state: PersistentState, id: string) {
    ParseJobNumber(id).Some? && ParseJobNumber(id).value < state.nextJob
  }

  predicate BackIndexed(state: PersistentState, k: string)
    requires k in state.idempotency
  {
    var id := state.idempotency[k];
    id in state.jobs && k == MapKey(state.jobs[id].owner, state.jobs[id].key)
  }

  /** What `validate_state` accepts, apart from the retention limits. */
  predicate ValidState(state: PersistentState) {
    && state.schema == STORE_SCHEMA_VERSION
    && state.nextJob != 0
    && |state.idempotency| == |state.jobs|
    && (forall id {:trigger ValidJob(id, state.jobs[id])} | id in state.jobs :: ValidJob(id, state.jobs[id]))
    && (forall id {:trigger Indexed(state, id)} | id in state.jobs :: Indexed(state, id))
    && (forall id {:trigger Counted(state, id)} | id in state.jobs :: Counted(state, id))
    && (forall k {:trigger BackIndexed(state, k)} | k in state.idempotency :: BackIndexed(state, k))
  }

  predicate Retained(state: PersistentState, policy: Policy) {
    && |state.jobs| <= policy.maxJobs
    && forall id {:trigger RetainedJob(state.jobs[id], policy)} | id in state.jobs ::
         RetainedJob(state.jobs[id], policy)
  }

  // ----- append_event and trimming -----

  function LastN<T>(s: seq<T>, n: nat): (r: seq<T>)
    ensures |r| == if |s| <= n then |s| else n
  {
    if |s| <= n then s else s[|s| - n..]
  }

  function TrimJob(job: StoredJob, policy: Policy): StoredJob {
    job.(events := LastN(job.events, policy.maxEvents))
  }

  function TrimState(state: PersistentState, policy: Policy): PersistentState {
    state.(jobs := map id | id in state.jobs :: TrimJob(state.jobs[id], policy))
  }

  function AppendEvent(job: StoredJob, phase: string, policy: Policy, now: u64): Outcome<StoredJob> {
    if job.nextSequence == U64_MAX then Failure(RpcError(ResourceLimitKind, "job event sequence exhausted"))
    else
      var event := ProgressEvent(job.jobId, job.nextSequence, job.state, phase, now);
      Success(job.(nextSequence := job.nextSequence + 1, updatedAt := now,
                   events := LastN(job.events + [event], policy.maxEvents)))
  }

  // ----- What each mutator does to its job -----

  predicate ValidTransition(from: JobState, to: JobState) {
    match from
    case Queued => to == Running || to == JobState.Cancelled
    case Running => to == Cancelling || to == Completed || to == Failed
    case Cancelling => to == JobState.Cancelled || to == Failed
    case _ => false
  }

  function Conflict(message: string): RpcError {
    RpcError(JobConflict, message)
  }

  /** What looking at the pack output path shows. */
  datatype Probe = Present | Absent | Unreadable

  function PrepareMarker(job: StoredJob, probe: Probe): Outcome<Option<Marker>> {
    if !job.operation.Pack? then Success(None)
    else if probe == Unreadable then Failure(RpcError(Internal, "cannot inspect pack output before execution"))
    else Success(Some(Marker(PACK_PUBLICATION_MARKER_VERSION, job.jobId, job.paramsHash, job.operation.output,
                             probe == Absent, None)))
  }

  function TransitionJob(job: StoredJob, to: JobState, phase: string, probe: Probe, policy: Policy, now: u64):
    Outcome<StoredJob> {
    if !ValidTransition(job.state, to) then Failure(Conflict("invalid job state transition"))
    else if to == Running then
      var marker :- PrepareMarker(job, probe);
      AppendEvent(job.(marker := marker, state := to), phase, policy, now)
    else AppendEvent(job.(state := to), phase, policy, now)
  }

  function CancelJob(job: StoredJob, policy: Policy, now: u64): Outcome<StoredJob> {
    match job.state
    case Queued =>
      AppendEvent(job.(state := JobState.Cancelled, error := Some(RpcError(CancelledKind, "job cancelled"))),
                  "cancelled", policy, now)
    case Running => AppendEvent(job.(state := Cancelling), "cancelling", policy, now)
    case Cancelling => Success(job)
    case Cancelled => Success(job)
    case _ => Failure(Conflict("terminal job cannot be cancelled"))
  }

  function FinishCancelledJob(job: StoredJob, policy: Policy, now: u64): Outcome<StoredJob> {
    if job.state != Cancelling then Failure(Conflict("job is not cancelling"))
    else AppendEvent(job.(state := JobState.Cancelled, error := Some(RpcError(CancelledKind, "job cancelled"))),
                     "cancelled", policy, now)
  }

  predicate PublicationRecorded(job: StoredJob) {
    job.operation.Pack? ==> job.marker.Some? && job.marker.value.outputWasAbsent && job.marker.value.published.Some?
  }

  function CompleteJob(job: StoredJob, result: string, policy: Policy, now: u64): Outcome<StoredJob> {
    if job.state.IsTerminal() then Failure(Conflict("job cannot complete from current state"))
    else if !PublicationRecorded(job) then Failure(RpcError(Internal, "pack publication identity is not recorded"))
    else AppendEvent(job.(state := Completed, result := Some(result), error := None), "completed", policy, now)
  }

  function RecordJob(job: StoredJob, output: string, identity: ArchiveIdentity, policy: Policy, now: u64):
    Outcome<StoredJob> {
    if job.state != Running && job.state != Cancelling then
      Failure(Conflict("pack publication cannot be recorded from current state"))
    else if !job.operation.Pack? || job.operation.output != output then
      Failure(Conflict("pack operation changed while publication was verified"))
    else if job.marker.None? || !job.marker.value.outputWasAbsent then
      Failure(RpcError(Internal, "pack publication marker is missing"))
    else
      match job.marker.value.published
      case Some(expected) =>
        if expected == identity then Success(job)
        else Failure(RpcError(IntegrityMismatch, "pack output identity changed"))
      case None =>
        AppendEvent(job.(marker := Some(job.marker.value.(published := Some(identity)))), "pack_published", policy, now)
  }

  function FailJob(job: StoredJob, error: RpcError, policy: Policy, now: u64): Outcome<StoredJob> {
    if job.state.IsTerminal() then Failure(Conflict("terminal job is immutable"))
    else
      AppendEvent(job.(state := if error.kind == CancelledKind then JobState.Cancelled else Failed,
                       result := None, error := Some(error)),
                  "failed", policy, now)
  }

  /** The deadline and the shutdown leave terminal and cancelling jobs alone. */
  function ExpireJob(job: StoredJob, policy: Policy, now: u64): Outcome<StoredJob> {
    match job.state
    case Queued =>
      AppendEvent(job.(state := Failed, result := None,
                       error := Some(RpcError(ResourceLimitKind, "job deadline exceeded"))),
                  "deadline_exceeded", policy, now)
    case Running => AppendEvent(job.(state := Cancelling), "deadline_exceeded", policy, now)
    case _ => Success(job)
  }

  function CloseJob(job: StoredJob, policy: Policy, now: u64): Outcome<StoredJob> {
    match job.state
    case Queued =>
      AppendEvent(job.(state := JobState.Cancelled, result := None,
                       error := Some(RpcError(CancelledKind, "job cancelled during daemon shutdown"))),
                  "daemon_shutdown", policy, now)
    case Running => AppendEvent(job.(state := Cancelling), "daemon_shutdown", policy, now)
    case _ => Success(job)
  }

  /** What verifying the file at a path yields at restart: its identity when it is a sound archive. */
  type Identify = string -> Option<ArchiveIdentity>

  predicate RecoversCompleted(job: StoredJob, identify: Identify) {
    && job.operation.Pack? && job.marker.Some? && job.marker.value.published.Some?
    && job.marker.value.outputWasAbsent
    && identify(job.operation.output) == job.marker.value.published
  }

  function RecoverJob(job: StoredJob, identify: Identify, policy: Policy, now: u64): Outcome<StoredJob> {
    if job.state.IsTerminal() then Success(job)
    else if RecoversCompleted(job, identify) then
      AppendEvent(job.(state := Completed, result := Some(job.operation.output), error := None), "recovered_completed",
                  policy, now)
    else
      AppendEvent(job.(state := Failed, result := None,
                       error := Some(RpcError(Internal, "job interrupted by daemon restart"))),
                  "daemon_restarted", policy, now)
  }

  // ----- What a job may become -----

  function Level(s: JobState): nat {
    match s
    case Queued => 0
    case Running => 1
    case Cancelling => 2
    case _ => 3
  }

  /**
   One committed update of a job: its request is immutable, its state only advances, a terminal
   outcome is frozen, the publication record is written once and never changed, and a Pack job
   completes only with its publication already on record.
   */
  ghost predicate Evolves(a: StoredJob, b: StoredJob) {
    && SameRequest(a, b)
    && (a.state == b.state || (Level(a.state) < Level(b.state)))
    && (a.state.IsTerminal() ==> b.result == a.result && b.error == a.error && b.marker == a.marker)
    && (a.state != Queued ==> MarkerGrows(a.marker, b.marker))
    && (b.state == Completed && b.operation.Pack? && a.state != Completed ==>
        PublicationRecorded(a) && b.marker == a.marker)
    && a.nextSequence <= b.nextSequence
  }

  ghost predicate SameRequest(a: StoredJob, b: StoredJob) {
    && b.jobId == a.jobId && b.owner == a.owner && b.rpcMethod == a.rpcMethod && b.priority == a.priority
    && b.key == a.key
    && b.paramsHash == a.paramsHash && b.limits == a.limits && b.operation == a.operation && b.createdAt == a.createdAt
  }

  ghost predicate MarkerGrows(a: Option<Marker>, b: Option<Marker>) {
    b == a || (a.Some? && b.Some? && a.value.published.None? && b.value == a.value.(published := b.value.published))
  }

  /** Sequence numbers of the retained events run up to `nextSequence` without a gap. */
  ghost predicate Consecutive(job: StoredJob) {
    GapFree(job.events, job.nextSequence)
  }

  /** `f` maps a valid job to a valid, retained, evolved one with gap-free events. */
  ghost predicate GoodUpdate(id: string, a: StoredJob, b: StoredJob, policy: Policy) {
    && ValidJob(id, b) && RetainedJob(b, policy) && Evolves(a, b)
    && (Consecutive(a) ==> Consecutive(b))
  }

  lemma {:induction false} RisingLastN(events: seq<ProgressEvent>, jobId: string, n: nat)
    requires Rising(events, jobId)
    ensures Rising(LastN(events, n), jobId)
    ensures n > 0 && events != [] ==> LastN(events, n)[|LastN(events, n)| - 1] == events[|events| - 1]
  {
    var kept := LastN(events, n);
    var shift := |events| - |kept|;
    forall i | 0 < i < |kept| ensures kept[i - 1].sequence < kept[i].sequence {
      assert kept[i] == events[shift + i] && kept[i - 1] == events[shift + i - 1];
    }
  }

  ghost predicate GapFree(events: seq<ProgressEvent>, next: int) {
    && |events| < next
    && forall i | 0 <= i < |events| :: events[i].sequence == next - |events| + i
  }

  lemma {:induction false} GapFreeLastN(events: seq<ProgressEvent>, next: int, n: nat)
    requires GapFree(events, next)
    ensures GapFree(LastN(events, n), next)
  {
    var kept := LastN(events, n);
    forall i | 0 <= i < |kept| ensures kept[i].sequence == next - |kept| + i {
      assert kept[i] == events[|events| - |kept| + i];
    }
  }

  lemma {:induction false} AppendedRising(events: seq<ProgressEvent>, jobId: string, event: ProgressEvent)
    requires Rising(events, jobId) && event.jobId == jobId && event.sequence > 0
    requires events != [] ==> events[|events| - 1].sequence < event.sequence
    ensures Rising(events + [event], jobId)
  {
  }

  lemma {:induction false} AppendedGapFree(events: seq<ProgressEvent>, next: int, event: ProgressEvent)
    requires GapFree(events, next) && event.sequence == next
    ensures GapFree(events + [event], next + 1)
  {
  }

  lemma {:induction false} AppendKeepsEvents(job: StoredJob, phase: string, policy: Policy, now: u64)
    requires policy.Valid() && AppendEvent(job, phase, policy, now).Success?
    requires Rising(job.events, job.jobId) && job.nextSequence > 0
    requires job.events != [] ==> job.nextSequence == job.events[|job.events| - 1].sequence + 1
    ensures ValidEvents(AppendEvent(job, phase, policy, now).value)
    ensures RetainedJob(AppendEvent(job, phase, policy, now).value, policy)
    ensures Consecutive(job) ==> Consecutive(AppendEvent(job, phase, policy, now).value)
  {
    var event := ProgressEvent(job.jobId, job.nextSequence, job.state, phase, now);
    var all := job.events + [event];
    AppendedRising(job.events, job.jobId, event);
    RisingLastN(all, job.jobId, policy.maxEvents);
    if Consecutive(job) {
      AppendedGapFree(job.events, job.nextSequence, event);
      GapFreeLastN(all, job.nextSequence + 1, policy.maxEvents);
    }
  }

  // ----- Every mutator keeps a job valid -----

  /** Any update made of setting state, outcome and marker and then appending one event. */
  lemma {:induction false} AppendedUpdate(id: string, a: StoredJob, b: StoredJob, phase: string, policy: Policy,
                                          now: u64)
    requires policy.Valid() && ValidJob(id, a)
    requires b == a.(state := b.state, result := b.result, error := b.error, marker := b.marker)
    requires ValidResult(b) && ValidMarker(b) && Evolves(a, b)
    requires AppendEvent(b, phase, policy, now).Success?
    ensures GoodUpdate(id, a, AppendEvent(b, phase, policy, now).value, policy)
  {
    AppendKeepsEvents(b, phase, policy, now);
  }

  /** `transition` keeps a job valid exactly when the target is not one that needs an outcome. */
  lemma {:induction false} TransitionKeepsJob(id: string, job: StoredJob, to: JobState, phase: string, probe: Probe,
                                              policy: Policy, now: u64)
    requires policy.Valid() && ValidJob(id, job)
    requires TransitionJob(job, to, phase, probe, policy, now).Success?
    ensures var job' := TransitionJob(job, to, phase, probe, policy, now).value;
      && (to != Completed && to != Failed ==> GoodUpdate(id, job, job', policy))
      && (to == Completed || to == Failed ==> !ValidJob(id, job'))
  {
    var marker := if to == Running then PrepareMarker(job, probe).value else job.marker;
    var changed := job.(state := to, marker := marker);
    if to == Completed || to == Failed {
      assert !ValidResult(changed);
    } else {
      AppendedUpdate(id, job, changed, phase, policy, now);
    }
  }

  lemma {:induction false} UnchangedUpdate(id: string, job: StoredJob, policy: Policy)
    requires ValidJob(id, job) && RetainedJob(job, policy)
    ensures GoodUpdate(id, job, job, policy)
  {
  }

  lemma {:induction false} CancelKeepsJob(id: string, job: StoredJob, policy: Policy, now: u64)
    requires policy.Valid() && ValidJob(id, job) && RetainedJob(job, policy) && CancelJob(job, policy, now).Success?
    ensures GoodUpdate(id, job, CancelJob(job, policy, now).value, policy)
  {
    if job.state == Queued {
      AppendedUpdate(id, job, job.(state := JobState.Cancelled,
                                   error := Some(RpcError(CancelledKind, "job cancelled"))),
                     "cancelled", policy, now);
    } else if job.state == Running {
      AppendedUpdate(id, job, job.(state := Cancelling), "cancelling", policy, now);
    } else {
      UnchangedUpdate(id, job, policy);
    }
  }

  lemma {:induction false} FinishCancelledKeepsJob(id: string, job: StoredJob, policy: Policy, now: u64)
    requires policy.Valid() && ValidJob(id, job) && FinishCancelledJob(job, policy, now).Success?
    ensures GoodUpdate(id, job, FinishCancelledJob(job, policy, now).value, policy)
  {
    AppendedUpdate(id, job, job.(state := JobState.Cancelled, error := Some(RpcError(CancelledKind, "job cancelled"))),
                   "cancelled", policy, now);
  }

  lemma {:induction false} CompleteKeepsJob(id: string, job: StoredJob, result: string, policy: Policy, now: u64)
    requires policy.Valid() && ValidJob(id, job) && CompleteJob(job, result, policy, now).Success?
    ensures GoodUpdate(id, job, CompleteJob(job, result, policy, now).value, policy)
  {
    AppendedUpdate(id, job, job.(state := Completed, result := Some(result), error := None), "completed", policy, now);
  }

  lemma {:induction false} RecordKeepsJob(id: string, job: StoredJob, output: string, identity: ArchiveIdentity,
                                          policy: Policy, now: u64)
    requires policy.Valid() && ValidJob(id, job) && RetainedJob(job, policy)
    requires RecordJob(job, output, identity, policy, now).Success?
    ensures GoodUpdate(id, job, RecordJob(job, output, identity, policy, now).value, policy)
  {
    if job.marker.value.published.Some? {
      UnchangedUpdate(id, job, policy);
    } else {
      AppendedUpdate(id, job, job.(marker := Some(job.marker.value.(published := Some(identity)))), "pack_published",
                     policy, now);
    }
  }

  lemma {:induction false} FailKeepsJob(id: string, job: StoredJob, error: RpcError, policy: Policy, now: u64)
    requires policy.Valid() && ValidJob(id, job) && FailJob(job, error, policy, now).Success?
    ensures GoodUpdate(id, job, FailJob(job, error, policy, now).value, policy)
  {
    AppendedUpdate(id, job,
      job.(state := if error.kind == CancelledKind then JobState.Cancelled else Failed,
           result := None, error := Some(error)),
      "failed", policy, now);
  }

  lemma {:induction false} ExpireKeepsJob(id: string, job: StoredJob, policy: Policy, now: u64)
    requires policy.Valid() && ValidJob(id, job) && RetainedJob(job, policy) && ExpireJob(job, policy, now).Success?
    ensures GoodUpdate(id, job, ExpireJob(job, policy, now).value, policy)
  {
    if job.state == Queued {
      AppendedUpdate(id, job,
        job.(state := Failed, result := None, error := Some(RpcError(ResourceLimitKind, "job deadline exceeded"))),
        "deadline_exceeded", policy, now);
    } else if job.state == Running {
      AppendedUpdate(id, job, job.(state := Cancelling), "deadline_exceeded", policy, now);
    } else {
      UnchangedUpdate(id, job, policy);
    }
  }

  lemma {:induction false} CloseKeepsJob(id: string, job: StoredJob, policy: Policy, now: u64)
    requires policy.Valid() && ValidJob(id, job) && RetainedJob(job, policy) && CloseJob(job, policy, now).Success?
    ensures GoodUpdate(id, job, CloseJob(job, policy, now).value, policy)
    ensures CloseJob(job, policy, now).value.state.IsTerminal() || CloseJob(job, policy, now).value.state == Cancelling
  {
    if job.state == Queued {
      AppendedUpdate(id, job,
        job.(state := JobState.Cancelled, result := None,
             error := Some(RpcError(CancelledKind, "job cancelled during daemon shutdown"))),
        "daemon_shutdown", policy, now);
    } else if job.state == Running {
      AppendedUpdate(id, job, job.(state := Cancelling), "daemon_shutdown", policy, now);
    } else {
      UnchangedUpdate(id, job, policy);
    }
  }

  lemma {:induction false} TrimKeepsJob(id: string, job: StoredJob, policy: Policy)
    requires policy.Valid() && ValidJob(id, job)
    ensures GoodUpdate(id, job, TrimJob(job, policy), policy)
  {
    RisingLastN(job.events, job.jobId, policy.maxEvents);
    if Consecutive(job) {
      GapFreeLastN(job.events, job.nextSequence, policy.maxEvents);
    }
  }

  lemma {:induction false} RecoverKeepsJob(id: string, job: StoredJob, identify: Identify, policy: Policy, now: u64)
    requires policy.Valid() && ValidJob(id, job) && RetainedJob(job, policy)
    requires RecoverJob(job, identify, policy, now).Success?
    ensures GoodUpdate(id, job, RecoverJob(job, identify, policy, now).value, policy)
    ensures RecoverJob(job, identify, policy, now).value.state.IsTerminal()
  {
    if job.state.IsTerminal() {
      UnchangedUpdate(id, job, policy);
    } else if RecoversCompleted(job, identify) {
      AppendedUpdate(id, job, job.(state := Completed, result := Some(job.operation.output), error := None),
                     "recovered_completed", policy, now);
    } else {
      AppendedUpdate(id, job,
        job.(state := Failed, result := None, error := Some(RpcError(Internal, "job interrupted by daemon restart"))),
        "daemon_restarted", policy, now);
    }
  }

  // ----- Retained events are the newest part of the full history -----

  /** One event of a job's history: the state it reports, its phase and its time. */
  datatype Update = Update(state: JobState, phase: string, at: u64)

  /** Appends a whole history to a job, one commit after the other. */
  function AppendAll(job: StoredJob, history: seq<Update>, policy: Policy): Outcome<StoredJob>
    decreases |history|
  {
    if history == [] then Success(job)
    else
      var before :- AppendAll(job, history[..|history| - 1], policy);
      var last := history[|history| - 1];
      AppendEvent(before.(state := last.state), last.phase, policy, last.at)
  }

  /** The same history without retention. */
  function FullHistory(job: StoredJob, history: seq<Update>): seq<ProgressEvent>
    requires job.nextSequence + |history| <= U64_MAX
  {
    job.events + seq(|history|, i requires 0 <= i < |history| =>
      ProgressEvent(job.jobId, job.nextSequence + i, history[i].state, history[i].phase, history[i].at))
  }

  lemma {:induction false} LastNStep<T>(s: seq<T>, x: T, n: nat)
    ensures LastN(LastN(s, n) + [x], n) == LastN(s + [x], n)
  {
  }

  lemma {:induction false} FullHistoryStep(job: StoredJob, history: seq<Update>)
    requires history != [] && job.nextSequence + |history| <= U64_MAX
    ensures var n := |history| - 1;
      FullHistory(job, history) == FullHistory(job, history[..n])
                                   + [ProgressEvent(job.jobId, job.nextSequence + n, history[n].state, history[n].phase,
                                                    history[n].at)]
  {
  }

  function EventOf(job: StoredJob, history: seq<Update>, n: nat): ProgressEvent
    requires n < |history| && job.nextSequence + n <= U64_MAX
  {
    ProgressEvent(job.jobId, job.nextSequence + n, history[n].state, history[n].phase, history[n].at)
  }

  lemma {:induction false} AppendOneMore(job: StoredJob, history: seq<Update>, policy: Policy, n: nat,
                                         before: StoredJob)
    requires |history| == n + 1 && AppendAll(job, history[..n], policy) == Success(before)
    requires before.nextSequence < U64_MAX
    ensures AppendAll(job, history, policy).Success?
    ensures var job' := AppendAll(job, history, policy).value;
      && job'.events == LastN(before.events
                              + [ProgressEvent(before.jobId, before.nextSequence, history[n].state, history[n].phase,
                                               history[n].at)],
                              policy.maxEvents)
      && job'.nextSequence == before.nextSequence + 1 && job'.jobId == before.jobId
  {
  }

  /** Under one retention policy the kept events are exactly the last ones of the full history. */
  lemma {:induction false} RetainedIsNewest(job: StoredJob, history: seq<Update>, policy: Policy)
    requires policy.Valid() && |job.events| <= policy.maxEvents && job.nextSequence + |history| <= U64_MAX
    ensures AppendAll(job, history, policy).Success?
    ensures var job' := AppendAll(job, history, policy).value;
      && job'.events == LastN(FullHistory(job, history), policy.maxEvents)
      && job'.nextSequence == job.nextSequence + |history|
      && job'.jobId == job.jobId
  {
    if history == [] {
      assert FullHistory(job, history) == job.events;
    } else {
      var n := |history| - 1;
      var front := history[..n];
      RetainedIsNewest(job, front, policy);
      var before, full, event := AppendAll(job, front, policy).value, FullHistory(job, front), EventOf(job, history, n);
      AppendOneMore(job, history, policy, n, before);
      assert FullHistory(job, history) == full + [event] by {
        FullHistoryStep(job, history);
      }
      LastNStep(full, event, policy.maxEvents);
    }
  }
}
