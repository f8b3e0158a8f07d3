/**
 The engine's task scheduler: dispatch under a worker cap and a memory budget, with workers that
 finish in any order. The main loop, the workers and an outside cancellation are one transition
 system, so a statement about every run covers every schedule.
 */
module TaskScheduler {
  import opened Base
  import opened TaskGraph

  datatype Config = Config(workers: nat, memoryBudget: u64) {
    /** What the constructor of the configuration checks. */
    predicate Valid() {
      workers > 0 && memoryBudget > 0 && workers <= U64_MAX
    }

    function QueueCapacity(): nat {
      var doubled := if workers * 2 > U64_MAX then U64_MAX else workers * 2;
      if doubled < 4 then 4 else doubled
    }
  }

  datatype Spool = Spool(taskId: u64, payload: bytes)

  datatype Reserved = Reserved(task: Task, memory: u64)

  /** `task` is the position of the sender; the rest is what travels through the channel. */
  datatype WorkerResult = WorkerResult(task: nat, memory: u64, result: Result<Spool, PithosError>)

  /** What a worker sends for a task that never sees the cancellation. */
  function Outcome(t: Task): Result<Spool, PithosError> {
    match t.action
    case Failure(e) => Failure(e)
    case Success(payload) =>
      if |payload| > t.resources.outputBound
      then Failure(ResourceLimit("scheduled task exceeded reserved output bound"))
      else Success(Spool(t.id, payload))
  }

  // ----- next_ready_task -----

  predicate Ready(item: Option<Reserved>, completed: set<u64>, available: u64) {
    item.Some? && item.value.memory <= available && forall d | d in item.value.task.dependencies :: d in completed
  }

  predicate Before(a: Task, b: Task) {
    Rank(a.priority) < Rank(b.priority) || (Rank(a.priority) == Rank(b.priority) && a.id < b.id)
  }

  function NextReadyAmong(pending: seq<Option<Reserved>>, completed: set<u64>, available: u64, n: nat): (r: Option<nat>)
    requires n <= |pending|
    ensures r.None? <==> forall i | 0 <= i < n :: !Ready(pending[i], completed, available)
    ensures r.Some? ==> r.value < n && Ready(pending[r.value], completed, available)
    ensures r.Some? ==> forall i | 0 <= i < n && Ready(pending[i], completed, available) ::
      !Before(pending[i].value.task, pending[r.value].value.task)
  {
    if n == 0 then None
    else
      var best := NextReadyAmong(pending, completed, available, n - 1);
      if !Ready(pending[n - 1], completed, available) then best
      else if best.None? || Before(pending[n - 1].value.task, pending[best.value].value.task) then Some(n - 1)
      else best
  }

  function NextReady(pending: seq<Option<Reserved>>, completed: set<u64>, available: u64): (r: Option<nat>)
    ensures r.Some? ==> r.value < |pending|
  {
    NextReadyAmong(pending, completed, available, |pending|)
  }

  // ----- States -----

  /** Where a task is. */
  datatype Stage = Waiting | Executing | Sent | Completed | Failed

  /** Where the main loop is. */
  datatype Phase =
    | Head
    | Dispatching(dispatched: bool)
    | Settling(dispatched: bool)
    | Receiving
    | Done(result: Result<seq<Spool>, PithosError>)

  datatype State = State(
    pending: seq<Option<Reserved>>,
    availableMemory: u64,
    running: nat,
    completedIds: set<u64>,
    completed: seq<Spool>,
    channel: seq<WorkerResult>,
    stage: seq<Stage>,
    phase: Phase,
    cancelled: bool)

  /** The token is set by an outside caller; a failed run also sets it, but by then the loop has returned. */
  // (`cancelled` records only the outside caller.)

  /** The tasks a run starts from: validated, and each within the budget on its own. */
  ghost predicate Accepted(tasks: seq<Task>, config: Config) {
    && config.Valid()
    && UniqueIds(tasks) && SoundDependencies(tasks) && Acyclic(tasks)
    && forall t | t in tasks :: Fits(t, config)
  }

  predicate Fits(t: Task, config: Config) {
    t.resources.Total().Success? && t.resources.Total().value <= config.memoryBudget
  }

  function Memory(t: Task): u64 {
    if t.resources.Total().Success? then t.resources.Total().value else 0
  }

  function Start(tasks: seq<Task>, config: Config): State {
    State(
      seq(|tasks|, i requires 0 <= i < |tasks| => Some(Reserved(tasks[i], Memory(tasks[i])))),
      config.memoryBudget, 0, {}, [], [],
      seq(|tasks|, i => Waiting),
      Head, false)
  }

  // ----- Steps -----

  /** Top of the outer loop. */
  predicate BeginPass(s: State, s': State) {
    && s.phase == Head
    && s' == s.(phase :=
        if |s.completed| < |s.pending| then Dispatching(false) else Done(Success(SortById(s.completed))))
  }

  /** One turn of the inner dispatch loop. */
  predicate Dispatch(config: Config, s: State, s': State) {
    && s.phase.Dispatching? && s.running < config.workers && !s.cancelled
    && NextReady(s.pending, s.completedIds, s.availableMemory).Some?
    && var i := NextReady(s.pending, s.completedIds, s.availableMemory).value;
       && i < |s.stage|
       && s' == s.(
            pending := s.pending[i := None],
            availableMemory := s.availableMemory - s.pending[i].value.memory,
            running := s.running + 1,
            stage := s.stage[i := Executing],
            phase := Dispatching(true))
  }

  predicate EndDispatch(config: Config, s: State, s': State) {
    && s.phase.Dispatching?
    && (s.running >= config.workers || s.cancelled || NextReady(s.pending, s.completedIds, s.availableMemory).None?)
    && s' == s.(phase := Settling(s.phase.dispatched))
  }

  /** The decisions after the inner loop. */
  predicate Settle(config: Config, s: State, s': State) {
    && s.phase.Settling?
    && s' == s.(phase :=
        if s.running == 0 then Done(Failure(if s.cancelled then PithosError.Cancelled else DependencyCycle))
        else if !s.phase.dispatched || s.running >= config.workers then Receiving
        else Head)
  }

  predicate CanReceive(s: State) {
    && s.phase == Receiving && s.channel != [] && s.running > 0
    && s.channel[0].task < |s.stage| && s.availableMemory + s.channel[0].memory <= U64_MAX
  }

  /** Takes the oldest result, gives its reservation back and books the outcome. */
  function Booked(s: State): State
    requires CanReceive(s)
  {
    var message := s.channel[0];
    var taken := s.(
      running := s.running - 1,
      availableMemory := s.availableMemory + message.memory,
      channel := s.channel[1..]);
    match message.result
    case Success(spool) =>
      taken.(completedIds := s.completedIds + {spool.taskId},
             completed := s.completed + [spool],
             stage := s.stage[message.task := Completed],
             phase := Head)
    case Failure(error) =>
      taken.(stage := s.stage[message.task := Failed], phase := Done(Failure(error)))
  }

  predicate Receive(s: State, s': State) {
    CanReceive(s) && s' == Booked(s)
  }

  /** Worker `i` sends its result; with the token set it may also send any error it saw. */
  predicate Send(tasks: seq<Task>, config: Config, s: State, i: nat, result: Result<Spool, PithosError>, s': State) {
    && i < |s.stage| && i < |tasks| && s.stage[i] == Executing
    && |s.channel| < config.QueueCapacity()
    && (result == Outcome(tasks[i]) || (s.cancelled && result.Failure?))
    && s' == s.(
         channel := s.channel + [WorkerResult(i, Memory(tasks[i]), result)],
         stage := s.stage[i := Sent])
  }

  predicate Cancel(s: State, s': State) {
    !s.cancelled && !s.phase.Done? && s' == s.(cancelled := true)
  }

  /** A step of the main loop or of a worker. */
  ghost predicate SystemStep(tasks: seq<Task>, config: Config, s: State, s': State) {
    && !s.phase.Done?
    && (|| BeginPass(s, s') || Dispatch(config, s, s') || EndDispatch(config, s, s') || Settle(config, s, s')
        || Receive(s, s')
        || exists i, result :: Send(tasks, config, s, i, result, s'))
  }

  ghost predicate Step(tasks: seq<Task>, config: Config, s: State, s': State) {
    SystemStep(tasks, config, s, s') || Cancel(s, s')
  }

  ghost predicate IsRun(tasks: seq<Task>, config: Config, run: seq<State>) {
    && run != [] && run[0] == Start(tasks, config)
    && forall n {:trigger StepAt(tasks, config, run, n)} | 0 <= n < |run| - 1 :: StepAt(tasks, config, run, n)
  }

  ghost predicate StepAt(tasks: seq<Task>, config: Config, run: seq<State>, n: nat)
    requires n < |run| - 1
  {
    Step(tasks, config, run[n], run[n + 1])
  }

  // ----- Ordering the results -----

  predicate SortedById(spools: seq<Spool>) {
    forall i, j | 0 <= i < j < |spools| :: spools[i].taskId <= spools[j].taskId
  }

  function SortById(spools: seq<Spool>): (r: seq<Spool>)
    ensures SortedById(r) && multiset(r) == multiset(spools)
  {
    if spools == [] then []
    else
      var n := |spools| - 1;
      assert spools == spools[..n] + [spools[n]];
      var front := SortById(spools[..n]);
      InsertAdds(front, spools[n]);
      InsertKeepsOrder(front, spools[n]);
      InsertById(front, spools[n])
  }

  function InsertById(spools: seq<Spool>, x: Spool): seq<Spool> {
    if spools == [] || spools[|spools| - 1].taskId <= x.taskId then spools + [x]
    else InsertById(spools[..|spools| - 1], x) + [spools[|spools| - 1]]
  }

  lemma {:induction false} InsertAdds(spools: seq<Spool>, x: Spool)
    ensures multiset(InsertById(spools, x)) == multiset(spools) + multiset{x}
  {
    if spools != [] {
      var n := |spools| - 1;
      assert spools == spools[..n] + [spools[n]];
      InsertAdds(spools[..n], x);
    }
  }

  lemma {:induction false} InsertKeepsOrder(spools: seq<Spool>, x: Spool)
    requires SortedById(spools)
    ensures SortedById(InsertById(spools, x))
    ensures var r := InsertById(spools, x);
      r != [] && (r[|r| - 1] == x || (spools != [] && r[|r| - 1] == spools[|spools| - 1]))
  {
    if spools == [] || spools[|spools| - 1].taskId <= x.taskId {
      SortedAppend(spools, x);
    } else {
      var n := |spools| - 1;
      InsertKeepsOrder(spools[..n], x);
      SortedAppend(InsertById(spools[..n], x), spools[n]);
    }
  }

  lemma {:induction false} SortedAppend(spools: seq<Spool>, x: Spool)
    requires SortedById(spools) && (spools == [] || spools[|spools| - 1].taskId <= x.taskId)
    ensures SortedById(spools + [x])
  {
    forall i, j | 0 <= i < j < |spools + [x]| ensures (spools + [x])[i].taskId <= (spools + [x])[j].taskId {
      assert i < |spools| - 1 ==> spools[i].taskId <= spools[|spools| - 1].taskId;
    }
  }

  // ----- Counting stages -----

  ghost function Count(stage: seq<Stage>, x: Stage): nat {
    if stage == [] then 0 else Count(stage[..|stage| - 1], x) + (if stage[|stage| - 1] == x then 1 else 0)
  }

  lemma {:induction false} CountUpdate(stage: seq<Stage>, i: nat, y: Stage, x: Stage)
    requires i < |stage|
    ensures Count(stage[i := y], x) + (if stage[i] == x then 1 else 0) == Count(stage, x) + (if y == x then 1 else 0)
  {
    var n := |stage| - 1;
    if i == n {
      assert stage[i := y][..n] == stage[..n];
    } else {
      assert stage[i := y][..n] == stage[..n][i := y];
      CountUpdate(stage[..n], i, y, x);
    }
  }

  lemma {:induction false} CountZero(stage: seq<Stage>, x: Stage)
    ensures Count(stage, x) == 0 <==> x !in stage
    ensures Count(stage, x) <= |stage|
  {
    if stage != [] {
      var n := |stage| - 1;
      assert stage == stage[..n] + [stage[n]];
      CountZero(stage[..n], x);
    }
  }

  lemma {:induction false} CountFull(stage: seq<Stage>, x: Stage)
    requires Count(stage, x) == |stage|
    ensures forall i | 0 <= i < |stage| :: stage[i] == x
  {
    if stage != [] {
      var n := |stage| - 1;
      CountZero(stage[..n], x);
      CountFull(stage[..n], x);
    }
  }

  /** Memory reserved by tasks that are executing or whose result is not received yet. */
  ghost function Held(tasks: seq<Task>, stage: seq<Stage>): nat
    requires |stage| <= |tasks|
  {
    if stage == [] then 0
    else
      var n := |stage| - 1;
      Held(tasks, stage[..n]) + (if Holds(stage[n]) then Memory(tasks[n]) else 0)
  }

  predicate Holds(x: Stage) {
    x == Executing || x == Sent
  }

  lemma {:induction false} HeldUpdate(tasks: seq<Task>, stage: seq<Stage>, i: nat, y: Stage)
    requires i < |stage| <= |tasks|
    ensures Held(tasks, stage[i := y]) + (if Holds(stage[i]) then Memory(tasks[i]) else 0) ==
            Held(tasks, stage) + (if Holds(y) then Memory(tasks[i]) else 0)
  {
    var n := |stage| - 1;
    if i == n {
      assert stage[i := y][..n] == stage[..n];
    } else {
      assert stage[i := y][..n] == stage[..n][i := y];
      HeldUpdate(tasks, stage[..n], i, y);
    }
  }

  lemma {:induction false} HeldNone(tasks: seq<Task>, stage: seq<Stage>)
    requires |stage| <= |tasks| && Executing !in stage && Sent !in stage
    ensures Held(tasks, stage) == 0
  {
    if stage != [] {
      var n := |stage| - 1;
      assert stage[n] in stage;
      HeldNone(tasks, stage[..n]);
    }
  }

  // ----- The invariant of every reachable state -----

  ghost predicate Shaped(tasks: seq<Task>, s: State) {
    |s.pending| == |s.stage| == |tasks|
  }

  /** Running tasks and reserved memory are exactly accounted for, within the two caps. */
  ghost predicate Accounts(tasks: seq<Task>, config: Config, s: State)
    requires Shaped(tasks, s)
  {
    && s.running == Count(s.stage, Executing) + Count(s.stage, Sent)
    && s.running <= config.workers
    && s.availableMemory + Held(tasks, s.stage) == config.memoryBudget
  }

  /** A task waits in `pending` until its single dispatch, after all its dependencies completed. */
  ghost predicate Waits(tasks: seq<Task>, s: State)
    requires Shaped(tasks, s)
  {
    && (forall i {:trigger s.stage[i]} | 0 <= i < |tasks| ::
          s.pending[i] == if s.stage[i] == Waiting then Some(Reserved(tasks[i], Memory(tasks[i]))) else None)
    && (forall i {:trigger s.stage[i]} | 0 <= i < |tasks| && s.stage[i] != Waiting ::
          forall d | d in tasks[i].dependencies :: d in s.completedIds)
  }

  ghost predicate GoodMessage(tasks: seq<Task>, s: State, m: WorkerResult)
    requires Shaped(tasks, s)
  {
    && m.task < |tasks| && s.stage[m.task] == Sent
    && m.memory == Memory(tasks[m.task])
    && (m.result == Outcome(tasks[m.task]) || (s.cancelled && m.result.Failure?))
  }

  /** The channel holds one result of each task whose result is on its way. */
  ghost predicate Channels(tasks: seq<Task>, s: State)
    requires Shaped(tasks, s)
  {
    && |s.channel| == Count(s.stage, Sent)
    && (forall k | 0 <= k < |s.channel| :: GoodMessage(tasks, s, s.channel[k]))
    && (forall j, k | 0 <= j < k < |s.channel| :: s.channel[j].task != s.channel[k].task)
  }

  ghost predicate CompletedTask(tasks: seq<Task>, stage: seq<Stage>, id: u64) {
    exists i :: 0 <= i < |tasks| && i < |stage| && stage[i] == Completed && tasks[i].id == id
  }

  /** Completed tasks are the ones whose payload was collected. */
  ghost predicate Collects(tasks: seq<Task>, s: State)
    requires Shaped(tasks, s)
  {
    && |s.completed| == Count(s.stage, Completed)
    && (forall i {:trigger s.stage[i]} | 0 <= i < |tasks| && s.stage[i] == Completed ::
          && Outcome(tasks[i]).Success? && Outcome(tasks[i]).value in s.completed
          && tasks[i].id in s.completedIds)
    && (forall id {:trigger CompletedTask(tasks, s.stage, id)} | id in s.completedIds ::
        CompletedTask(tasks, s.stage, id))
  }

  ghost predicate Phased(tasks: seq<Task>, config: Config, s: State)
    requires Shaped(tasks, s)
  {
    && (Failed in s.stage ==> s.phase.Done?)
    && (s.phase == Receiving ==> s.running > 0)
    && (s.phase.Dispatching? || s.phase.Settling? ==> |s.completed| < |tasks|)
    && (s.phase.Settling? ==>
          s.running >= config.workers || s.cancelled || NextReady(s.pending, s.completedIds, s.availableMemory).None?)
    && (s.phase.Done? && s.phase.result.Success? ==>
          |s.completed| == |tasks| && s.phase.result.value == SortById(s.completed))
    && (s.phase.Done? && s.phase.result.Failure? && !s.cancelled ==> FailsWith(tasks, s.phase.result.error))
  }

  /** Some task's own action, or its output bound, produces this error. */
  ghost predicate FailsWith(tasks: seq<Task>, e: PithosError) {
    exists t :: t in tasks && Outcome(t) == Failure(e)
  }

  ghost predicate Invariant(tasks: seq<Task>, config: Config, s: State) {
    Shaped(tasks, s) && Accounts(tasks, config, s) && Waits(tasks, s) && Channels(tasks, s) && Collects(tasks, s)
    && Phased(tasks, config, s)
  }

  lemma {:induction false} AllWaiting(stage: seq<Stage>, x: Stage)
    requires forall i | 0 <= i < |stage| :: stage[i] == Waiting
    requires x != Waiting
    ensures Count(stage, x) == 0
  {
    CountZero(stage, x);
  }

  lemma {:induction false} StartHolds(tasks: seq<Task>, config: Config)
    requires config.Valid()
    ensures Invariant(tasks, config, Start(tasks, config))
  {
    var s := Start(tasks, config);
    AllWaiting(s.stage, Executing);
    AllWaiting(s.stage, Sent);
    AllWaiting(s.stage, Completed);
    HeldNone(tasks, s.stage);
  }

  lemma {:induction false} DispatchKeeps(tasks: seq<Task>, config: Config, s: State, s': State)
    requires Accepted(tasks, config) && Invariant(tasks, config, s) && Dispatch(config, s, s')
    ensures Invariant(tasks, config, s')
  {
    var i := NextReady(s.pending, s.completedIds, s.availableMemory).value;
    assert Ready(s.pending[i], s.completedIds, s.availableMemory);
    assert s.stage[i] == Waiting;
    assert tasks[i] in tasks && Fits(tasks[i], config);
    CountUpdate(s.stage, i, Executing, Executing);
    CountUpdate(s.stage, i, Executing, Sent);
    CountUpdate(s.stage, i, Executing, Completed);
    HeldUpdate(tasks, s.stage, i, Executing);
    CompletedTasksStay(tasks, s.stage, i, Executing);
  }

  /** A task that is not completed can change stage without losing a completed one. */
  lemma {:induction false} CompletedTasksStay(tasks: seq<Task>, stage: seq<Stage>, i: nat, y: Stage)
    requires i < |stage| == |tasks| && stage[i] != Completed
    ensures forall id {:trigger CompletedTask(tasks, stage[i := y], id)} ::
      CompletedTask(tasks, stage, id) ==> CompletedTask(tasks, stage[i := y], id)
  {
    forall id | CompletedTask(tasks, stage, id) ensures CompletedTask(tasks, stage[i := y], id) {
      var k :| 0 <= k < |tasks| && stage[k] == Completed && tasks[k].id == id;
      assert stage[i := y][k] == Completed;
    }
  }

  lemma {:induction false} SendKeeps(tasks: seq<Task>, config: Config, s: State, i: nat, result: Result<Spool,
                                     PithosError>, s': State)
    requires Invariant(tasks, config, s) && Send(tasks, config, s, i, result, s')
    ensures Invariant(tasks, config, s')
  {
    CountUpdate(s.stage, i, Sent, Executing);
    CountUpdate(s.stage, i, Sent, Sent);
    CountUpdate(s.stage, i, Sent, Completed);
    HeldUpdate(tasks, s.stage, i, Sent);
    CompletedTasksStay(tasks, s.stage, i, Sent);
    forall k | 0 <= k < |s'.channel| ensures GoodMessage(tasks, s', s'.channel[k]) {
      if k < |s.channel| {
        assert GoodMessage(tasks, s, s.channel[k]);
      }
    }
    forall j, k | 0 <= j < k < |s'.channel| ensures s'.channel[j].task != s'.channel[k].task {
      assert GoodMessage(tasks, s, s.channel[j]);
    }
  }

  lemma {:induction false} ReceiveKeepsAccounts(tasks: seq<Task>, config: Config, s: State, s': State)
    requires Shaped(tasks, s) && Accounts(tasks, config, s) && Channels(tasks, s) && Receive(s, s')
    ensures Shaped(tasks, s') && Accounts(tasks, config, s')
    ensures |s'.channel| == Count(s'.stage, Sent)
    ensures Count(s'.stage, Completed) == Count(s.stage, Completed) + if s.channel[0].result.Success? then 1 else 0
  {
    var m := s.channel[0];
    assert GoodMessage(tasks, s, m);
    var y := if m.result.Success? then Completed else Failed;
    CountUpdate(s.stage, m.task, y, Executing);
    CountUpdate(s.stage, m.task, y, Sent);
    CountUpdate(s.stage, m.task, y, Completed);
    HeldUpdate(tasks, s.stage, m.task, y);
  }

  lemma {:induction false} ReceiveKeepsChannels(tasks: seq<Task>, s: State, s': State)
    requires Shaped(tasks, s) && Channels(tasks, s) && Receive(s, s')
    requires Shaped(tasks, s') && |s'.channel| == Count(s'.stage, Sent)
    ensures Channels(tasks, s')
  {
    assert GoodMessage(tasks, s, s.channel[0]);
    forall k | 0 <= k < |s'.channel| ensures GoodMessage(tasks, s', s'.channel[k]) {
      assert GoodMessage(tasks, s, s.channel[k + 1]);
      assert s.channel[0].task != s.channel[k + 1].task;
    }
  }

  lemma {:induction false} ReceiveKeepsCollects(tasks: seq<Task>, s: State, s': State)
    requires Shaped(tasks, s) && Channels(tasks, s) && Collects(tasks, s) && Receive(s, s')
    requires Shaped(tasks, s')
    requires Count(s'.stage, Completed) == Count(s.stage, Completed) + if s.channel[0].result.Success? then 1 else 0
    ensures Collects(tasks, s')
  {
    var m := s.channel[0];
    assert GoodMessage(tasks, s, m);
    CompletedTasksStay(tasks, s.stage, m.task, if m.result.Success? then Completed else Failed);
    if m.result.Success? {
      assert s'.stage[m.task] == Completed;
      assert CompletedTask(tasks, s'.stage, tasks[m.task].id);
    }
  }

  lemma {:induction false} ReceiveKeepsWaits(tasks: seq<Task>, s: State, s': State)
    requires Shaped(tasks, s) && Channels(tasks, s) && Waits(tasks, s) && Receive(s, s')
    requires Shaped(tasks, s')
    ensures Waits(tasks, s')
  {
    assert GoodMessage(tasks, s, s.channel[0]);
    forall i | 0 <= i < |tasks|
      ensures s'.pending[i] == if s'.stage[i] == Waiting then Some(Reserved(tasks[i], Memory(tasks[i]))) else None
      ensures s'.stage[i] != Waiting ==> forall d | d in tasks[i].dependencies :: d in s'.completedIds
    {
      assert s.stage[i] == Waiting <==> s'.stage[i] == Waiting;
    }
  }

  lemma {:induction false} ReceiveKeeps(tasks: seq<Task>, config: Config, s: State, s': State)
    requires Invariant(tasks, config, s) && Receive(s, s')
    ensures Invariant(tasks, config, s')
  {
    ReceiveKeepsAccounts(tasks, config, s, s');
    ReceiveKeepsChannels(tasks, s, s');
    ReceiveKeepsCollects(tasks, s, s');
    ReceiveKeepsWaits(tasks, s, s');
    var m := s.channel[0];
    assert GoodMessage(tasks, s, m);
    assert tasks[m.task] in tasks;
    assert m.result.Success? ==> Failed !in s'.stage;
  }

  lemma {:induction false} StepKeeps(tasks: seq<Task>, config: Config, s: State, s': State)
    requires Accepted(tasks, config) && Invariant(tasks, config, s) && Step(tasks, config, s, s')
    ensures Invariant(tasks, config, s')
  {
    if BeginPass(s, s') {
      CountZero(s.stage, Completed);
    } else if Dispatch(config, s, s') {
      DispatchKeeps(tasks, config, s, s');
    } else if EndDispatch(config, s, s') {
    } else if Settle(config, s, s') {
      if s.running == 0 && !s.cancelled {
        SomethingIsReady(tasks, config, s);
      }
    } else if Receive(s, s') {
      ReceiveKeeps(tasks, config, s, s');
    } else if Cancel(s, s') {
      forall k | 0 <= k < |s'.channel| ensures GoodMessage(tasks, s', s'.channel[k]) {
        assert GoodMessage(tasks, s, s.channel[k]);
      }
    } else {
      var i, result :| Send(tasks, config, s, i, result, s');
      SendKeeps(tasks, config, s, i, result, s');
    }
  }

  // ----- Deadlock freedom -----

  /** With nothing running and something incomplete, a waiting task of least rank is ready. */
  lemma {:induction false} SomethingIsReady(tasks: seq<Task>, config: Config, s: State)
    requires Accepted(tasks, config) && Invariant(tasks, config, s)
    requires !s.phase.Done? && s.running == 0 && |s.completed| < |tasks|
    ensures NextReady(s.pending, s.completedIds, s.availableMemory).Some?
  {
    CountZero(s.stage, Executing);
    CountZero(s.stage, Sent);
    HeldNone(tasks, s.stage);
    if forall i | 0 <= i < |tasks| :: s.stage[i] == Completed {
      AllCompleted(s.stage);
    }
    var i :| 0 <= i < |tasks| && s.stage[i] != Completed;
    assert s.stage[i] in s.stage;
    var rank: map<u64, nat> :| Ranks(tasks, rank);
    IdOfTask(tasks, tasks[i]);
    ReadyBelow(tasks, config, s, rank, i);
  }

  lemma {:induction false} AllCompleted(stage: seq<Stage>)
    requires forall i | 0 <= i < |stage| :: stage[i] == Completed
    ensures Count(stage, Completed) == |stage|
  {
    if stage != [] {
      AllCompleted(stage[..|stage| - 1]);
    }
  }

  lemma {:induction false} ReadyBelow(tasks: seq<Task>, config: Config, s: State, rank: map<u64, nat>, i: nat)
    requires Accepted(tasks, config) && Invariant(tasks, config, s) && Ranks(tasks, rank)
    requires Executing !in s.stage && Sent !in s.stage && Failed !in s.stage && s.availableMemory == config.memoryBudget
    requires i < |tasks| && s.stage[i] == Waiting && tasks[i].id in rank
    ensures NextReady(s.pending, s.completedIds, s.availableMemory).Some?
    decreases rank[tasks[i].id]
  {
    assert tasks[i] in tasks && Fits(tasks[i], config);
    if d :| d in tasks[i].dependencies && d !in s.completedIds {
      assert SoundTask(tasks[i], Ids(tasks)) && DependsOn(tasks, tasks[i].id, d);
      var t := TaskOfId(tasks, d);
      var k :| 0 <= k < |tasks| && tasks[k] == t;
      assert s.stage[k] in s.stage;
      ReadyBelow(tasks, config, s, rank, k);
    } else {
      assert Ready(s.pending[i], s.completedIds, s.availableMemory);
    }
  }

  /** No worker ever waits for room in the result channel. */
  lemma {:induction false} NoWorkerBlocks(tasks: seq<Task>, config: Config, s: State, i: nat)
    requires config.Valid() && |tasks| <= U64_MAX && Invariant(tasks, config, s)
    requires i < |tasks| && s.stage[i] == Executing
    ensures |s.channel| < config.QueueCapacity()
  {
    CountZero(s.stage, Executing);
    CountZero(s.stage, Sent);
    assert s.stage[i] in s.stage;
  }

  /** The system itself, without help from the outside, can always move until it is done. */
  lemma {:induction false} NeverStuck(tasks: seq<Task>, config: Config, s: State) returns (s': State)
    requires Accepted(tasks, config) && |tasks| <= U64_MAX && Invariant(tasks, config, s) && !s.phase.Done?
    ensures SystemStep(tasks, config, s, s')
  {
    match s.phase
    case Head =>
      s' := s.(phase := if |s.completed| < |s.pending| then Dispatching(false)
               else Done(Success(SortById(s.completed))));
    case Dispatching(dispatched) =>
      var next := NextReady(s.pending, s.completedIds, s.availableMemory);
      if s.running < config.workers && !s.cancelled && next.Some? {
        s' := s.(pending := s.pending[next.value := None],
                 availableMemory := s.availableMemory - s.pending[next.value].value.memory,
                 running := s.running + 1,
                 stage := s.stage[next.value := Executing],
                 phase := Dispatching(true));
        assert Dispatch(config, s, s');
      } else {
        s' := s.(phase := Settling(dispatched));
        assert EndDispatch(config, s, s');
      }
    case Settling(dispatched) =>
      s' := s.(phase :=
        if s.running == 0 then Done(Failure(if s.cancelled then PithosError.Cancelled else DependencyCycle))
        else if !dispatched || s.running >= config.workers then Receiving
        else Head);
      assert Settle(config, s, s');
    case Receiving =>
      if s.channel == [] {
        CountZero(s.stage, Executing);
        var i :| 0 <= i < |s.stage| && s.stage[i] == Executing;
        NoWorkerBlocks(tasks, config, s, i);
        s' := s.(channel := s.channel + [WorkerResult(i, Memory(tasks[i]), Outcome(tasks[i]))],
                 stage := s.stage[i := Sent]);
        assert Send(tasks, config, s, i, Outcome(tasks[i]), s');
      } else {
        ResultCanBeTaken(tasks, config, s);
        s' := Booked(s);
      }
  }

  lemma {:induction false} ResultCanBeTaken(tasks: seq<Task>, config: Config, s: State)
    requires Invariant(tasks, config, s) && s.phase == Receiving && s.channel != []
    ensures CanReceive(s)
  {
    assert GoodMessage(tasks, s, s.channel[0]);
    HeldUpdate(tasks, s.stage, s.channel[0].task, Completed);
  }

  // ----- Termination -----

  function PhaseRank(p: Phase): nat {
    match p
    case Done(_) => 0
    case Receiving => 1
    case Settling(dispatched) => if dispatched then 5 else 2
    case Dispatching(dispatched) => if dispatched then 6 else 3
    case Head => 4
  }

  /** Work left: three moves per waiting task, two per executing one, one per result on its way. */
  ghost function Measure(s: State): nat {
    6 * (3 * Count(s.stage, Waiting) + 2 * Count(s.stage, Executing) + Count(s.stage, Sent))
    + PhaseRank(s.phase) + if s.cancelled then 0 else 1
  }

  lemma {:induction false} DispatchDescends(tasks: seq<Task>, config: Config, s: State, s': State)
    requires Invariant(tasks, config, s) && Dispatch(config, s, s')
    ensures Measure(s') < Measure(s)
  {
    var i := NextReady(s.pending, s.completedIds, s.availableMemory).value;
    assert Ready(s.pending[i], s.completedIds, s.availableMemory);
    assert s.stage[i] == Waiting;
    MoveCounts(s.stage, i, Executing);
  }

  lemma {:induction false} ReceiveDescends(tasks: seq<Task>, config: Config, s: State, s': State)
    requires Invariant(tasks, config, s) && Receive(s, s')
    ensures Measure(s') < Measure(s)
  {
    var m := s.channel[0];
    assert GoodMessage(tasks, s, m);
    MoveCounts(s.stage, m.task, if m.result.Success? then Completed else Failed);
  }

  lemma {:induction false} QuietDescends(config: Config, s: State, s': State)
    requires BeginPass(s, s') || EndDispatch(config, s, s') || Settle(config, s, s') || Cancel(s, s')
    ensures Measure(s') < Measure(s)
  {
    hide Count;
    assert s'.stage == s.stage;
  }

  lemma {:induction false} SendDescends(tasks: seq<Task>, config: Config, s: State, i: nat, result: Result<Spool,
                                        PithosError>, s': State)
    requires Send(tasks, config, s, i, result, s')
    ensures Measure(s') < Measure(s)
  {
    MoveCounts(s.stage, i, Sent);
  }

  lemma {:induction false} StepDescends(tasks: seq<Task>, config: Config, s: State, s': State)
    requires Invariant(tasks, config, s) && Step(tasks, config, s, s')
    ensures Measure(s') < Measure(s)
  {
    if Dispatch(config, s, s') {
      DispatchDescends(tasks, config, s, s');
    } else if Receive(s, s') {
      ReceiveDescends(tasks, config, s, s');
    } else if i, result :| Send(tasks, config, s, i, result, s') {
      SendDescends(tasks, config, s, i, result, s');
    } else {
      QuietDescends(config, s, s');
    }
  }

  lemma {:induction false} MoveCounts(stage: seq<Stage>, i: nat, y: Stage)
    requires i < |stage| && y != stage[i]
    ensures forall x | x != stage[i] && x != y :: Count(stage[i := y], x) == Count(stage, x)
    ensures Count(stage[i := y], y) == Count(stage, y) + 1
    ensures Count(stage[i := y], stage[i]) == Count(stage, stage[i]) - 1
  {
    forall x ensures Count(stage[i := y], x) + (if stage[i] == x then 1 else 0)
        == Count(stage, x) + (if y == x then 1 else 0) {
      CountUpdate(stage, i, y, x);
    }
  }

  // ----- Whole runs -----

  lemma {:induction false} ReachableInvariant(tasks: seq<Task>, config: Config, run: seq<State>, n: nat)
    requires Accepted(tasks, config) && IsRun(tasks, config, run) && n < |run|
    ensures Invariant(tasks, config, run[n])
    ensures Measure(run[n]) + n <= Measure(run[0])
  {
    if n == 0 {
      StartHolds(tasks, config);
    } else {
      ReachableInvariant(tasks, config, run, n - 1);
      assert StepAt(tasks, config, run, n - 1);
      StepKeeps(tasks, config, run[n - 1], run[n]);
      StepDescends(tasks, config, run[n - 1], run[n]);
    }
  }

  /** Every run is finite: at most eighteen steps per task and five more. */
  lemma {:induction false} RunsAreBounded(tasks: seq<Task>, config: Config, run: seq<State>)
    requires Accepted(tasks, config) && IsRun(tasks, config, run)
    ensures |run| <= 18 * |tasks| + 6
  {
    ReachableInvariant(tasks, config, run, |run| - 1);
    var stage := run[0].stage;
    CountZero(stage, Waiting);
    AllWaiting(stage, Executing);
    AllWaiting(stage, Sent);
  }

  /** What the scheduler promises: one payload per task, in the order of the ids. */
  ghost predicate Expected(tasks: seq<Task>, spools: seq<Spool>) {
    && |spools| == |tasks| && SortedById(spools)
    && forall t | t in tasks :: Outcome(t).Success? && Outcome(t).value in spools
  }

  lemma {:induction false} AllCollected(tasks: seq<Task>, config: Config, s: State)
    requires Invariant(tasks, config, s) && |s.completed| == |tasks|
    ensures Expected(tasks, SortById(s.completed))
  {
    CountFull(s.stage, Completed);
    assert |SortById(s.completed)| == |multiset(s.completed)| == |s.completed| by {
      assert |multiset(SortById(s.completed))| == |SortById(s.completed)|;
    }
    forall t | t in tasks ensures Outcome(t).Success? && Outcome(t).value in SortById(s.completed) {
      var i :| 0 <= i < |tasks| && tasks[i] == t;
      assert s.stage[i] == Completed;
      assert Outcome(t).value in multiset(s.completed);
    }
  }

  /** Neither the main loop nor a worker can move. */
  ghost predicate Halted(tasks: seq<Task>, config: Config, s: State) {
    forall s' {:trigger SystemStep(tasks, config, s, s')} :: !SystemStep(tasks, config, s, s')
  }

  /**
   The outcome of every run that can go no further. Without an outside cancellation the answer is the
   expected list when every action succeeds within its bound, and otherwise the error of one of
   the tasks; the cycle error of the loop is never reached.
   */
  lemma {:induction false} RunsEndWell(tasks: seq<Task>, config: Config, run: seq<State>)
    requires Accepted(tasks, config) && |tasks| <= U64_MAX && IsRun(tasks, config, run)
    requires Halted(tasks, config, run[|run| - 1])
    ensures run[|run| - 1].phase.Done?
    ensures var r := run[|run| - 1].phase.result;
      && (r.Success? ==> Expected(tasks, r.value))
      && (!run[|run| - 1].cancelled && (forall t | t in tasks :: Outcome(t).Success?) ==> r.Success?)
      && (!run[|run| - 1].cancelled && r.Failure? ==> FailsWith(tasks, r.error))
  {
    var s := run[|run| - 1];
    ReachableInvariant(tasks, config, run, |run| - 1);
    if !s.phase.Done? {
      var s' := NeverStuck(tasks, config, s);
    } else if s.phase.result.Success? {
      AllCollected(tasks, config, s);
    } else if !s.cancelled {
      var t :| t in tasks && Outcome(t) == Failure(s.phase.result.error);
    }
  }

  /** The answer of the loop is the same for every schedule. */
  lemma {:induction false} ScheduleIndependence(tasks: seq<Task>, config: Config, run1: seq<State>, run2: seq<State>)
    requires Accepted(tasks, config) && IsRun(tasks, config, run1) && IsRun(tasks, config, run2)
    requires run1[|run1| - 1].phase.Done? && run1[|run1| - 1].phase.result.Success?
    requires run2[|run2| - 1].phase.Done? && run2[|run2| - 1].phase.result.Success?
    ensures run1[|run1| - 1].phase.result == run2[|run2| - 1].phase.result
  {
    ReachableInvariant(tasks, config, run1, |run1| - 1);
    ReachableInvariant(tasks, config, run2, |run2| - 1);
    AllCollected(tasks, config, run1[|run1| - 1]);
    AllCollected(tasks, config, run2[|run2| - 1]);
    ExpectedIsUnique(tasks, run1[|run1| - 1].phase.result.value, run2[|run2| - 1].phase.result.value);
  }

  ghost function OutcomeSet(tasks: seq<Task>): set<Spool>
    requires forall t | t in tasks :: Outcome(t).Success?
  {
    if tasks == [] then {} else OutcomeSet(tasks[..|tasks| - 1]) + {Outcome(tasks[|tasks| - 1]).value}
  }

  lemma {:induction false} OutcomeNamesTask(t: Task)
    ensures Outcome(t).Success? ==> Outcome(t).value.taskId == t.id
  {
  }

  lemma {:induction false} OutcomeSetSize(tasks: seq<Task>)
    requires UniqueIds(tasks) && forall t | t in tasks :: Outcome(t).Success?
    ensures |OutcomeSet(tasks)| == |tasks|
    ensures forall x | x in OutcomeSet(tasks) :: exists t :: t in tasks && Outcome(t) == Success(x)
  {
    if tasks != [] {
      var n := |tasks| - 1;
      var front, last := tasks[..n], tasks[n];
      assert tasks == front + [last];
      OutcomeSetSize(front);
      var x := Outcome(last).value;
      forall t | t in front ensures Outcome(t) != Success(x) {
        assert t.id != last.id;
        OutcomeNamesTask(t);
        OutcomeNamesTask(last);
      }
      forall y | y in OutcomeSet(tasks) ensures exists t :: t in tasks && Outcome(t) == Success(y) {
        if y == x {
          assert last in tasks;
        } else {
          var t :| t in front && Outcome(t) == Success(y);
          assert t in tasks;
        }
      }
    }
  }

  lemma {:induction false} ExpectedSet(tasks: seq<Task>, spools: seq<Spool>)
    requires UniqueIds(tasks) && Expected(tasks, spools)
    ensures SetOf(spools) == OutcomeSet(tasks) && NoDuplicates(spools)
    ensures forall x | x in spools :: exists t :: t in tasks && Outcome(t) == Success(x)
  {
    OutcomeSetSize(tasks);
    SetOfSize(spools);
    forall x | x in OutcomeSet(tasks) ensures x in SetOf(spools) {
      var t :| t in tasks && Outcome(t) == Success(x);
    }
    assert SetOf(spools) == OutcomeSet(tasks) + (SetOf(spools) - OutcomeSet(tasks));
    assert forall x | x in spools :: x in SetOf(spools);
  }

  lemma {:induction false} ExpectedContents(tasks: seq<Task>, spools: seq<Spool>)
    requires UniqueIds(tasks) && Expected(tasks, spools)
    ensures SetOf(spools) == OutcomeSet(tasks) && StrictlySortedById(spools)
  {
    ExpectedSet(tasks, spools);
    forall i, j | 0 <= i < j < |spools| ensures spools[i].taskId < spools[j].taskId {
      var t :| t in tasks && Outcome(t) == Success(spools[i]);
      var u :| u in tasks && Outcome(u) == Success(spools[j]);
      if t.id == u.id {
        SameIdSameTask(tasks, t, u);
      }
    }
  }

  lemma {:induction false} ExpectedIsUnique(tasks: seq<Task>, a: seq<Spool>, b: seq<Spool>)
    requires UniqueIds(tasks) && Expected(tasks, a) && Expected(tasks, b)
    ensures a == b
  {
    ExpectedContents(tasks, a);
    ExpectedContents(tasks, b);
    SameSetSameOrder(a, b);
  }

  ghost predicate StrictlySortedById(spools: seq<Spool>) {
    forall i, j | 0 <= i < j < |spools| :: spools[i].taskId < spools[j].taskId
  }

  lemma {:induction false} SameLast(a: seq<Spool>, b: seq<Spool>)
    requires SetOf(a) == SetOf(b) && StrictlySortedById(a) && StrictlySortedById(b) && a != [] && b != []
    ensures a[|a| - 1] == b[|b| - 1]
  {
    var x, y := a[|a| - 1], b[|b| - 1];
    assert x in SetOf(b) && y in SetOf(a);
    var j :| 0 <= j < |b| && b[j] == x;
    var k :| 0 <= k < |a| && a[k] == y;
  }

  lemma {:induction false} SetOfFront(a: seq<Spool>)
    requires a != [] && StrictlySortedById(a)
    ensures SetOf(a[..|a| - 1]) == SetOf(a) - {a[|a| - 1]}
    ensures StrictlySortedById(a[..|a| - 1])
  {
    var n := |a| - 1;
    assert a == a[..n] + [a[n]];
  }

  lemma {:induction false} SameSetSameOrder(a: seq<Spool>, b: seq<Spool>)
    requires SetOf(a) == SetOf(b) && StrictlySortedById(a) && StrictlySortedById(b)
    ensures a == b
    decreases |a|
  {
    SetOfSize(a);
    SetOfSize(b);
    if a != [] {
      SameLast(a, b);
      SetOfFront(a);
      SetOfFront(b);
      SameSetSameOrder(a[..|a| - 1], b[..|b| - 1]);
      assert a == a[..|a| - 1] + [a[|a| - 1]] && b == b[..|b| - 1] + [b[|b| - 1]];
    }
  }

  lemma {:induction false} LeftPendingStays(tasks: seq<Task>, config: Config, s: State, s': State, i: nat)
    requires Invariant(tasks, config, s) && Step(tasks, config, s, s') && i < |tasks|
    ensures |s'.pending| == |tasks| && (s.pending[i] == None ==> s'.pending[i] == None)
  {
  }

  lemma {:induction false} LeftPending(tasks: seq<Task>, config: Config, run: seq<State>, m: nat, n: nat, i: nat)
    requires Accepted(tasks, config) && IsRun(tasks, config, run) && m <= n < |run| && i < |tasks|
    requires i < |run[m].pending| && run[m].pending[i] == None
    ensures i < |run[n].pending| && run[n].pending[i] == None
  {
    if m < n {
      LeftPending(tasks, config, run, m, n - 1, i);
      ReachableInvariant(tasks, config, run, n - 1);
      assert StepAt(tasks, config, run, n - 1);
      LeftPendingStays(tasks, config, run[n - 1], run[n], i);
    }
  }

  /** A task leaves `pending` once and for all, and only when its dependencies have completed. */
  lemma {:induction false} DispatchedOnce(tasks: seq<Task>, config: Config, run: seq<State>, m: nat, n: nat, i: nat)
    requires Accepted(tasks, config) && IsRun(tasks, config, run) && m <= n < |run| && i < |tasks|
    requires i < |run[m].pending| && run[m].pending[i] == None
    ensures i < |run[n].pending| && run[n].pending[i] == None
    ensures forall d | d in tasks[i].dependencies :: CompletedTask(tasks, run[m].stage, d)
  {
    LeftPending(tasks, config, run, m, n, i);
    ReachableInvariant(tasks, config, run, m);
    assert run[m].stage[i] != Waiting;
  }

  // ----- execute_scheduled -----

  /** The run ends in this state. */
  ghost predicate Reaches(tasks: seq<Task>, config: Config, run: seq<State>, s: State) {
    IsRun(tasks, config, run) && run[|run| - 1] == s
  }

  lemma {:induction false} Extended(tasks: seq<Task>, config: Config, run: seq<State>, s: State, s': State)
    requires Reaches(tasks, config, run, s) && Step(tasks, config, s, s')
    ensures Reaches(tasks, config, run + [s'], s')
  {
    hide Step;
    var longer := run + [s'];
    forall n | 0 <= n < |longer| - 1 ensures StepAt(tasks, config, longer, n) {
      if n < |run| - 1 {
        assert StepAt(tasks, config, run, n);
      }
    }
  }

  /** One step further. */
  lemma {:induction false} Advance(tasks: seq<Task>, config: Config, run: seq<State>, s: State, s': State)
    returns (run': seq<State>)
    requires Accepted(tasks, config) && Invariant(tasks, config, s) && Reaches(tasks, config, run, s)
    requires Step(tasks, config, s, s')
    ensures Invariant(tasks, config, s') && Reaches(tasks, config, run', s') && Measure(s') < Measure(s)
  {
    hide Reaches;
    StepKeeps(tasks, config, s, s');
    StepDescends(tasks, config, s, s');
    Extended(tasks, config, run, s, s');
    run' := run + [s'];
  }

  /** The error of the first task whose reservation overflows or exceeds the budget. */
  function FirstMisfit(tasks: seq<Task>, config: Config): Option<PithosError> {
    if tasks == [] then None
    else if tasks[0].resources.Total().Failure? then Some(tasks[0].resources.Total().error)
    else if tasks[0].resources.Total().value > config.memoryBudget then Some(MemoryLimit)
    else FirstMisfit(tasks[1..], config)
  }

  /** Every task must fit the budget on its own. */
  method CheckBudgets(tasks: seq<Task>, config: Config) returns (misfit: Option<PithosError>)
    ensures misfit == FirstMisfit(tasks, config)
  {
    for i := 0 to |tasks|
      invariant FirstMisfit(tasks, config) == FirstMisfit(tasks[i..], config)
    {
      assert tasks[i..][0] == tasks[i] && tasks[i..][1..] == tasks[i + 1..];
      var total := tasks[i].resources.Total();
      if total.Failure? {
        return Some(total.error);
      }
      if total.value > config.memoryBudget {
        return Some(MemoryLimit);
      }
    }
    return None;
  }

  lemma {:induction false} FirstMisfitNone(tasks: seq<Task>, config: Config)
    ensures FirstMisfit(tasks, config).None? <==> forall t | t in tasks :: Fits(t, config)
  {
    if tasks != [] {
      assert tasks[0] in tasks && forall t | t in tasks :: t == tasks[0] || t in tasks[1..];
      FirstMisfitNone(tasks[1..], config);
    }
  }

  /** The outside may set the token, and workers may finish, between any two steps of the loop. */
  method LetOthersRun(tasks: seq<Task>, config: Config, s: State, mayCancel: bool, ghost run: seq<State>)
    returns (s': State, ghost run': seq<State>)
    requires Accepted(tasks, config) && |tasks| <= U64_MAX && Invariant(tasks, config, s) && !s.phase.Done?
    requires Reaches(tasks, config, run, s)
    ensures Invariant(tasks, config, s') && Reaches(tasks, config, run', s') && Measure(s') <= Measure(s)
    ensures s' == s.(channel := s'.channel, stage := s'.stage, cancelled := s'.cancelled)
    ensures !mayCancel ==> s'.cancelled == s.cancelled
  {
    hide Reaches;
    s', run' := s, run;
    if * {
      if mayCancel && !s'.cancelled {
        run' := Advance(tasks, config, run', s', s'.(cancelled := true));
        s' := s'.(cancelled := true);
      }
    }
    while exists i :: 0 <= i < |s'.stage| && s'.stage[i] == Executing
      invariant Invariant(tasks, config, s') && Reaches(tasks, config, run', s') && Measure(s') <= Measure(s)
      invariant s' == s.(channel := s'.channel, stage := s'.stage, cancelled := s'.cancelled)
      invariant !mayCancel ==> s'.cancelled == s.cancelled
      decreases Measure(s')
    {
      if * {
        break;
      }
      s', run' := FinishSomeWorker(tasks, config, s', run');
    }
  }

  lemma {:induction false} SendIsStep(tasks: seq<Task>, config: Config, s: State, i: nat, result: Result<Spool,
                                      PithosError>, s': State)
    requires Send(tasks, config, s, i, result, s') && !s.phase.Done?
    ensures Step(tasks, config, s, s')
  {
  }

  /** Some worker sends its result; once the token is set, that may be any error its action came back with. */
  method FinishSomeWorker(tasks: seq<Task>, config: Config, s: State, ghost run: seq<State>)
    returns (s': State, ghost run': seq<State>)
    requires Accepted(tasks, config) && |tasks| <= U64_MAX && Invariant(tasks, config, s) && !s.phase.Done?
    requires Reaches(tasks, config, run, s)
    requires exists i :: 0 <= i < |s.stage| && s.stage[i] == Executing
    ensures Invariant(tasks, config, s') && Reaches(tasks, config, run', s') && Measure(s') < Measure(s)
    ensures s' == s.(channel := s'.channel, stage := s'.stage) && s'.channel != []
  {
    var i :| 0 <= i < |s.stage| && s.stage[i] == Executing;
    var result := Outcome(tasks[i]);
    if * {
      if s.cancelled {
        var error: PithosError := *;
        result := Failure(error);
      }
    }
    NoWorkerBlocks(tasks, config, s, i);
    hide Invariant, Step, Accepted, Measure, Memory, Outcome, Reaches;
    s' := s.(channel := s.channel + [WorkerResult(i, Memory(tasks[i]), result)], stage := s.stage[i := Sent]);
    SendIsStep(tasks, config, s, i, result, s');
    run' := Advance(tasks, config, run, s, s');
  }

  /** The inner loop: dispatch ready tasks while a worker is free and the token is clear. */
  method DispatchReady(tasks: seq<Task>, config: Config, s: State, mayCancel: bool, ghost run: seq<State>)
    returns (s': State, ghost run': seq<State>)
    requires Accepted(tasks, config) && |tasks| <= U64_MAX && Invariant(tasks, config, s) && s.phase.Dispatching?
    requires Reaches(tasks, config, run, s)
    ensures Invariant(tasks, config, s') && s'.phase.Settling? && Measure(s') < Measure(s)
    ensures Reaches(tasks, config, run', s')
    ensures !mayCancel ==> s'.cancelled == s.cancelled
  {
    hide Reaches;
    s', run' := LetOthersRun(tasks, config, s, mayCancel, run);
    while s'.running < config.workers && !s'.cancelled
      invariant Invariant(tasks, config, s') && s'.phase.Dispatching? && Measure(s') <= Measure(s)
      invariant Reaches(tasks, config, run', s')
      invariant !mayCancel ==> s'.cancelled == s.cancelled
      decreases Measure(s')
    {
      var next := NextReady(s'.pending, s'.completedIds, s'.availableMemory);
      if next.None? {
        break;
      }
      var index := next.value;
      var item := s'.pending[index].value;
      ghost var before := s';
      s' := s'.(pending := s'.pending[index := None],
                availableMemory := s'.availableMemory - item.memory,
                running := s'.running + 1,
                stage := s'.stage[index := Executing],
                phase := Dispatching(true));
      assert Dispatch(config, before, s');
      run' := Advance(tasks, config, run', before, s');
      s', run' := LetOthersRun(tasks, config, s', mayCancel, run');
    }
    ghost var before := s';
    s' := s'.(phase := Settling(s'.phase.dispatched));
    run' := Advance(tasks, config, run', before, s');
    s', run' := LetOthersRun(tasks, config, s', mayCancel, run');
  }

  /** Waits for a result and books it. */
  method ReceiveOne(tasks: seq<Task>, config: Config, s: State, mayCancel: bool, ghost run: seq<State>)
    returns (s': State, ghost run': seq<State>)
    requires Accepted(tasks, config) && |tasks| <= U64_MAX && Invariant(tasks, config, s) && s.phase == Receiving
    requires Reaches(tasks, config, run, s)
    ensures Invariant(tasks, config, s') && Reaches(tasks, config, run', s') && Measure(s') < Measure(s)
    ensures s'.phase == Head || (s'.phase.Done? && s'.phase.result.Failure?)
    ensures !mayCancel ==> s'.cancelled == s.cancelled
  {
    hide Count, Reaches;
    s', run' := LetOthersRun(tasks, config, s, mayCancel, run);
    if s'.channel == [] {
      CountZero(s'.stage, Executing);
      s', run' := FinishSomeWorker(tasks, config, s', run');
    }
    ResultCanBeTaken(tasks, config, s');
    ghost var before := s';
    s' := Booked(s');
    run' := Advance(tasks, config, run', before, s');
  }

  /**
   Runs the tasks. `cancelled` says whether an outside caller set the token, which it can only when it `mayCancel`;
   which worker finishes next, and when the token is set, is left open, so the contract holds for every schedule. Once
   the loop starts, `run` is a run of the transition system from its start to this answer.
   */
  method ExecuteScheduled(tasks: seq<Task>, config: Config, mayCancel: bool)
    returns (r: Result<seq<Spool>, PithosError>, cancelled: bool, ghost run: seq<State>)
    requires config.Valid() && |tasks| <= U64_MAX
    ensures !UniqueIds(tasks) ==> r == Failure(InvalidMetadata("duplicate scheduler task ID"))
    ensures UniqueIds(tasks) && !SoundDependencies(tasks) ==>
              r == Failure(InvalidMetadata("invalid scheduler dependency"))
    ensures UniqueIds(tasks) && SoundDependencies(tasks) && !Acyclic(tasks) ==> r == Failure(DependencyCycle)
    ensures UniqueIds(tasks) && SoundDependencies(tasks) && Acyclic(tasks) && !cancelled
            && FirstMisfit(tasks, config).Some? ==>
      r == Failure(FirstMisfit(tasks, config).value)
    ensures r.Success? ==> Accepted(tasks, config) && Expected(tasks, r.value)
    ensures Accepted(tasks, config) && !cancelled && (forall t | t in tasks :: Outcome(t).Success?) ==> r.Success?
    ensures Accepted(tasks, config) && !cancelled && r.Failure? ==> FailsWith(tasks, r.error)
    ensures cancelled ==> mayCancel
    ensures r.Success? || (Accepted(tasks, config) && !cancelled) ==> run != []
    ensures run != [] ==> Accepted(tasks, config) && IsRun(tasks, config, run)
                          && run[|run| - 1].phase == Done(r) && run[|run| - 1].cancelled == cancelled
  {
    cancelled, run := false, [];
    var validated := ValidateDag(tasks);
    if validated.Failure? {
      return Failure(validated.error), false, [];
    }
    if * {
      if mayCancel {
        return Failure(PithosError.Cancelled), true, [];
      }
    }
    var misfit := CheckBudgets(tasks, config);
    FirstMisfitNone(tasks, config);
    if misfit.Some? {
      return Failure(misfit.value), false, [];
    }
    r, cancelled, run := MainLoop(tasks, config, mayCancel);
  }

  lemma {:induction false} StartIsRun(tasks: seq<Task>, config: Config)
    requires Accepted(tasks, config)
    ensures Invariant(tasks, config, Start(tasks, config))
    ensures Reaches(tasks, config, [Start(tasks, config)], Start(tasks, config))
    ensures Start(tasks, config).phase == Head && !Start(tasks, config).cancelled
  {
    StartHolds(tasks, config);
  }

  lemma {:induction false} BeginIsStep(tasks: seq<Task>, config: Config, s: State, s': State)
    requires Invariant(tasks, config, s) && s.phase == Head
    requires s' == s.(phase :=
      if |s.completed| < |tasks| then Dispatching(false) else Done(Success(SortById(s.completed))))
    ensures Step(tasks, config, s, s')
  {
    hide SortById, Dispatch, EndDispatch, Settle, Receive, Send, Accounts, Waits, Channels, Collects, Phased;
    assert BeginPass(s, s');
  }

  lemma {:induction false} SettleIsStep(tasks: seq<Task>, config: Config, s: State, s': State)
    requires s.phase.Settling?
    requires s' == s.(phase :=
      if s.running == 0 then Done(Failure(if s.cancelled then PithosError.Cancelled else DependencyCycle))
      else if !s.phase.dispatched || s.running >= config.workers then Receiving
      else Head)
    ensures Step(tasks, config, s, s')
  {
    assert Settle(config, s, s');
  }

  /** Nothing runs and nothing was dispatched only after a cancellation. */
  lemma {:induction false} OnlyCancellationIdles(tasks: seq<Task>, config: Config, s: State)
    requires Accepted(tasks, config) && Invariant(tasks, config, s) && s.phase.Settling? && s.running == 0
    ensures s.cancelled
  {
    if !s.cancelled {
      SomethingIsReady(tasks, config, s);
      assert false;
    }
  }

  /** What the answer of the loop is, where a run has reached it. */
  lemma {:induction false} LoopIsDone(tasks: seq<Task>, config: Config, run: seq<State>, s: State)
    requires Accepted(tasks, config) && |tasks| <= U64_MAX && Reaches(tasks, config, run, s) && s.phase.Done?
    ensures run != [] && IsRun(tasks, config, run) && run[|run| - 1] == s
    ensures s.phase.result.Success? ==> Expected(tasks, s.phase.result.value)
    ensures !s.cancelled && (forall t | t in tasks :: Outcome(t).Success?) ==> s.phase.result.Success?
    ensures !s.cancelled && s.phase.result.Failure? ==> FailsWith(tasks, s.phase.result.error)
  {
    assert run != [];
    hide SystemStep, Expected, Step, IsRun;
    assert Halted(tasks, config, s) by {
      DoneHalts(tasks, config, s);
    }
    RunsEndWell(tasks, config, run);
  }

  lemma {:induction false} DoneHalts(tasks: seq<Task>, config: Config, s: State)
    requires s.phase.Done?
    ensures Halted(tasks, config, s)
  {
  }

  method MainLoop(tasks: seq<Task>, config: Config, mayCancel: bool)
    returns (r: Result<seq<Spool>, PithosError>, cancelled: bool, ghost run: seq<State>)
    requires Accepted(tasks, config) && |tasks| <= U64_MAX
    ensures r.Success? ==> Expected(tasks, r.value)
    ensures !cancelled && (forall t | t in tasks :: Outcome(t).Success?) ==> r.Success?
    ensures !cancelled && r.Failure? ==> FailsWith(tasks, r.error)
    ensures cancelled ==> mayCancel
    ensures run != [] && IsRun(tasks, config, run)
    ensures run[|run| - 1].phase == Done(r) && run[|run| - 1].cancelled == cancelled
  {
    hide *;
    var s := Start(tasks, config);
    StartIsRun(tasks, config);
    run := [s];
    while |s.completed| < |tasks|
      invariant Invariant(tasks, config, s) && s.phase == Head && (s.cancelled ==> mayCancel)
      invariant Reaches(tasks, config, run, s)
      decreases Measure(s)
    {
      ghost var top := s;
      s := s.(phase := Dispatching(false));
      BeginIsStep(tasks, config, top, s);
      run := Advance(tasks, config, run, top, s);
      s, run := DispatchReady(tasks, config, s, mayCancel, run);
      ghost var settled := s;
      if s.running == 0 {
        OnlyCancellationIdles(tasks, config, s);
        // Without a cancellation the source answers `DependencyCycle` here.
        s := s.(phase := Done(Failure(if s.cancelled then PithosError.Cancelled else DependencyCycle)));
        SettleIsStep(tasks, config, settled, s);
        run := Advance(tasks, config, run, settled, s);
        LoopIsDone(tasks, config, run, s);
        return s.phase.result, s.cancelled, run;
      }
      if !s.phase.dispatched || s.running >= config.workers {
        s := s.(phase := Receiving);
        SettleIsStep(tasks, config, settled, s);
        run := Advance(tasks, config, run, settled, s);
        s, run := ReceiveOne(tasks, config, s, mayCancel, run);
        if s.phase.Done? {
          LoopIsDone(tasks, config, run, s);
          return s.phase.result, s.cancelled, run;
        }
      } else {
        s := s.(phase := Head);
        SettleIsStep(tasks, config, settled, s);
        run := Advance(tasks, config, run, settled, s);
      }
    }
    ghost var top := s;
    s := s.(phase := Done(Success(SortById(s.completed))));
    BeginIsStep(tasks, config, top, s);
    run := Advance(tasks, config, run, top, s);
    LoopIsDone(tasks, config, run, s);
    return s.phase.result, s.cancelled, run;
  }
}
