/** Encoding the solid groups as tasks of the engine scheduler. */
module GroupTasks {
  import opened Base
  import opened LittleEndian
  import opened TaskGraph
  import opened SolidGroups
  import opened ArchiveFormat
  import S = TaskScheduler

  // ----- What a task hands to the writer -----

  /** The codec's number and the encoded bytes. */
  function Envelope(codec: CodecId, payload: bytes): bytes {
    Le(CodecNumber(codec), 2) + payload
  }

  lemma {:induction false} EnvelopeParts(codec: CodecId, payload: bytes)
    ensures FromLe(Envelope(codec, payload)[..2]) == CodecNumber(codec) && Envelope(codec, payload)[2..] == payload
  {
    Widths();
    LeRoundTrip(CodecNumber(codec), 2);
    assert Envelope(codec, payload)[..2] == Le(CodecNumber(codec), 2);
  }

  /** Takes an envelope apart; fails on bytes that are none. */
  method OpenEnvelope(envelope: bytes) returns (r: Result<(CodecId, bytes), PithosError>)
    ensures forall codec, payload :: envelope == Envelope(codec, payload) ==> r == Success((codec, payload))
  {
    forall codec, payload | envelope == Envelope(codec, payload)
      ensures |envelope| >= 2 && FromLe(envelope[..2]) == CodecNumber(codec) && envelope[2..] == payload
    {
      EnvelopeParts(codec, payload);
    }
    if |envelope| < 2 {
      return Failure(InvalidMetadata("encoded group envelope"));
    }
    match CodecFromNumber(FromLe(envelope[..2])) {
      case None => return Failure(UnsupportedCodec);
      case Some(codec) => return Success((codec, envelope[2..]));
    }
  }

  // ----- What a task reserves -----

  /** The most scratch memory any candidate needs for an input. */
  function CodecMemory(candidates: seq<CodecId>, inputLen: nat): Result<u64, PithosError> {
    if candidates == [] then Success(0)
    else
      var n := |candidates| - 1;
      var before :- CodecMemory(candidates[..n], inputLen);
      var bound :- MemoryBound(candidates[n], DefaultLevel(candidates[n]), inputLen);
      Success(if before < bound then bound else before)
  }

  /** No candidate needs more, and one needs as much. */
  lemma {:induction false} CodecMemoryIsMost(candidates: seq<CodecId>, inputLen: nat, c: CodecId)
    requires CodecMemory(candidates, inputLen).Success? && c in candidates
    ensures MemoryBound(c, DefaultLevel(c), inputLen).Success?
    ensures MemoryBound(c, DefaultLevel(c), inputLen).value <= CodecMemory(candidates, inputLen).value
  {
    var n := |candidates| - 1;
    if c != candidates[n] {
      CodecMemoryIsMost(candidates[..n], inputLen, c);
    }
  }

  const OUTPUT_SLACK: nat := MIB + 2

  /** The reservation for a group of this length fits the budget. */
  predicate FitsMemory(candidates: seq<CodecId>, inputLen: nat, budget: nat) {
    var memory := CodecMemory(candidates, inputLen);
    memory.Success? && memory.value + inputLen + OUTPUT_SLACK <= budget
  }

  /** Task `k` encodes group `k` into an envelope. */
  predicate IsGroupTask(t: Task, candidates: seq<CodecId>, inputLen: nat, k: nat, codec: CodecId, payload: bytes) {
    && CodecMemory(candidates, inputLen).Success?
    && t.id == k && t.dependencies == []
    && t.resources.inputBytes == 0 && t.resources.scratchBytes == CodecMemory(candidates, inputLen).value
    && t.resources.outputBound == inputLen + OUTPUT_SLACK
    && t.action == Success(Envelope(codec, payload))
  }

  /** The task of group `k`, or the overflow that keeps it from being built. */
  method GroupTask(k: u64, candidates: seq<CodecId>, inputLen: u64, codec: CodecId, payload: bytes)
    returns (r: Result<Task, PithosError>)
    ensures r.Success? ==> IsGroupTask(r.value, candidates, inputLen, k, codec, payload)
    ensures r.Failure? ==> forall budget: u64 :: !FitsMemory(candidates, inputLen, budget)
  {
    var bound := CheckedAdd(inputLen, OUTPUT_SLACK);
    if bound.Failure? {
      return Failure(bound.error);
    }
    var memory := CodecMemory(candidates, inputLen);
    if memory.Failure? {
      return Failure(memory.error);
    }
    return Success(Task(k, PackForeground, [], ResourceEstimate(0, memory.value, bound.value),
                        Success(Envelope(codec, payload))));
  }

  lemma {:induction false} GroupTaskFits(t: Task, candidates: seq<CodecId>, inputLen: nat, k: nat, codec: CodecId,
                                         payload: bytes, config: S.Config)
    requires IsGroupTask(t, candidates, inputLen, k, codec, payload)
    ensures S.Fits(t, config) <==> FitsMemory(candidates, inputLen, config.memoryBudget)
  {
  }

  /** A payload no longer than its group stays within the task's output bound. */
  lemma {:induction false} GroupTaskSucceeds(t: Task, candidates: seq<CodecId>, inputLen: nat, k: u64, codec: CodecId,
                                             payload: bytes)
    requires IsGroupTask(t, candidates, inputLen, k, codec, payload) && |payload| <= inputLen
    ensures S.Outcome(t) == Success(S.Spool(k, Envelope(codec, payload)))
  {
  }

  // ----- What the scheduler makes of them -----

  ghost predicate NumberedTasks(tasks: seq<Task>) {
    |tasks| <= U64_MAX && forall k | 0 <= k < |tasks| ::
      tasks[k].id == k && tasks[k].dependencies == [] && S.Outcome(tasks[k]).Success?
  }

  lemma {:induction false} NumberedAreSound(tasks: seq<Task>)
    requires NumberedTasks(tasks)
    ensures UniqueIds(tasks) && SoundDependencies(tasks) && Acyclic(tasks)
  {
    forall t | t in tasks ensures SoundTask(t, Ids(tasks)) {
    }
    var rank: map<u64, nat> := map id | id in Ids(tasks) :: 0;
    assert Ranks(tasks, rank);
  }

  /** The payload list of the scheduler is the tasks' own results, in order. */
  lemma {:induction false} SpoolsInOrder(tasks: seq<Task>, spools: seq<S.Spool>)
    requires NumberedTasks(tasks) && S.Expected(tasks, spools)
    ensures |spools| == |tasks| && forall k | 0 <= k < |tasks| :: spools[k] == S.Outcome(tasks[k]).value
  {
    var own := seq(|tasks|, k requires 0 <= k < |tasks| => S.Outcome(tasks[k]).value);
    forall t | t in tasks ensures S.Outcome(t).Success? && S.Outcome(t).value in own {
      var k :| 0 <= k < |tasks| && tasks[k] == t;
      assert own[k] == S.Outcome(t).value;
    }
    forall i, j | 0 <= i < j < |own| ensures own[i].taskId <= own[j].taskId {
      S.OutcomeNamesTask(tasks[i]);
      S.OutcomeNamesTask(tasks[j]);
    }
    NumberedAreSound(tasks);
    S.ExpectedIsUnique(tasks, spools, own);
  }

  /**
   Running numbered tasks that all succeed: their results in order, exactly when every reservation fits the budget.
   */
  method RunGroupTasks(tasks: seq<Task>, config: S.Config) returns (r: Result<seq<S.Spool>, PithosError>)
    requires config.Valid() && NumberedTasks(tasks)
    ensures r.Success? <==> forall t | t in tasks :: S.Fits(t, config)
    ensures r.Success? ==>
              |r.value| == |tasks| && forall k | 0 <= k < |tasks| :: r.value[k] == S.Outcome(tasks[k]).value
  {
    NumberedAreSound(tasks);
    var spools, cancelled, run := S.ExecuteScheduled(tasks, config, false);
    if spools.Success? {
      SpoolsInOrder(tasks, spools.value);
    }
    return spools;
  }
}
