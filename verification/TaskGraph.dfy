/** The dependency graph of the engine scheduler and its validation by Kahn's algorithm. */
module TaskGraph {
  import opened Base

  datatype JobPriority =
    | InteractiveRead
    | InteractiveExtract
    | VerifyRequested
    | PackForeground
    | PackBackground
    | Benchmark

  function Rank(p: JobPriority): u8 {
    match p
    case InteractiveRead => 0
    case InteractiveExtract => 1
    case VerifyRequested => 2
    case PackForeground => 3
    case PackBackground => 4
    case Benchmark => 5
  }

  datatype ResourceEstimate = ResourceEstimate(inputBytes: u64, scratchBytes: u64, outputBound: u64) {
    function Total(): Result<u64, PithosError> {
      if inputBytes + scratchBytes > U64_MAX || inputBytes + scratchBytes + outputBound > U64_MAX
      then Failure(IntegerOverflow)
      else Success(inputBytes + scratchBytes + outputBound)
    }
  }

  /** `action` is what the task's closure returns when it is run without being cancelled. */
  datatype Task = Task(
    id: u64,
    priority: JobPriority,
    dependencies: seq<u64>,
    resources: ResourceEstimate,
    action: Result<bytes, PithosError>)

  // ----- What a valid graph is -----

  ghost predicate UniqueIds(tasks: seq<Task>) {
    forall i, j | 0 <= i < j < |tasks| :: tasks[i].id != tasks[j].id
  }

  ghost function Ids(tasks: seq<Task>): set<u64> {
    if tasks == [] then {} else Ids(tasks[..|tasks| - 1]) + {tasks[|tasks| - 1].id}
  }

  ghost predicate SoundTask(t: Task, ids: set<u64>) {
    NoDuplicates(t.dependencies) && forall d | d in t.dependencies :: d in ids
  }

  ghost predicate SoundDependencies(tasks: seq<Task>) {
    forall t | t in tasks :: SoundTask(t, Ids(tasks))
  }

  /** The task called `id` names `dependency`. */
  ghost predicate DependsOn(tasks: seq<Task>, id: u64, dependency: u64) {
    exists t :: t in tasks && t.id == id && dependency in t.dependencies
  }

  /** Every dependency ranks strictly below the task that names it. */
  ghost predicate Ranks(tasks: seq<Task>, rank: map<u64, nat>) {
    && Ids(tasks) <= rank.Keys
    && forall id, d | DependsOn(tasks, id, d) :: id in rank && d in rank && rank[d] < rank[id]
  }

  ghost predicate Acyclic(tasks: seq<Task>) {
    exists rank: map<u64, nat> :: Ranks(tasks, rank)
  }

  lemma {:induction false} IdOfTask(tasks: seq<Task>, t: Task)
    requires t in tasks
    ensures t.id in Ids(tasks)
  {
    var n := |tasks| - 1;
    if t != tasks[n] {
      assert t in tasks[..n];
      IdOfTask(tasks[..n], t);
    }
  }

  lemma {:induction false} TaskOfId(tasks: seq<Task>, id: u64) returns (t: Task)
    requires id in Ids(tasks)
    ensures t in tasks && t.id == id
  {
    var n := |tasks| - 1;
    if tasks[n].id == id {
      t := tasks[n];
    } else {
      t := TaskOfId(tasks[..n], id);
    }
  }

  lemma {:induction false} SameIdSameTask(tasks: seq<Task>, s: Task, t: Task)
    requires UniqueIds(tasks) && s in tasks && t in tasks && s.id == t.id
    ensures s == t
  {
  }

  /** The dependencies of `t` that are not in `done`. */
  ghost function Open(t: Task, done: set<u64>): set<u64> {
    SetOf(t.dependencies) - done
  }

  /** A set of tasks each of which waits on a member of the set. */
  ghost predicate Stuck(tasks: seq<Task>, stuck: set<u64>) {
    && stuck != {}
    && stuck <= Ids(tasks)
    && forall id {:trigger WaitsWithin(tasks, stuck, id)} | id in stuck :: WaitsWithin(tasks, stuck, id)
  }

  ghost predicate WaitsWithin(tasks: seq<Task>, stuck: set<u64>, id: u64) {
    exists d :: d in stuck && DependsOn(tasks, id, d)
  }

  /** No rank function exists as soon as some set of tasks is stuck. */
  lemma {:induction false} StuckSetIsCyclic(tasks: seq<Task>, stuck: set<u64>, rank: map<u64, nat>)
    requires Stuck(tasks, stuck)
    ensures !Ranks(tasks, rank)
  {
    if Ranks(tasks, rank) {
      var id :| id in stuck;
      Descend(tasks, stuck, rank, id);
    }
  }

  lemma {:induction false} Descend(tasks: seq<Task>, stuck: set<u64>, rank: map<u64, nat>, id: u64)
    requires Stuck(tasks, stuck) && id in stuck && Ranks(tasks, rank)
    ensures false
    decreases rank[id]
  {
    assert WaitsWithin(tasks, stuck, id);
    var d :| d in stuck && DependsOn(tasks, id, d);
    Descend(tasks, stuck, rank, d);
  }

  // ----- validate_dag -----

  ghost function DependentsOf(dependents: map<u64, seq<u64>>, id: u64): seq<u64> {
    if id in dependents then dependents[id] else []
  }

  /** `dependents` lists, once each, the tasks among `seen` that name a dependency. */
  ghost predicate Indexes(dependents: map<u64, seq<u64>>, seen: seq<Task>) {
    forall d {:trigger DependentsOf(dependents, d)} ::
      && NoDuplicates(DependentsOf(dependents, d))
      && forall c :: c in DependentsOf(dependents, d) <==> DependsOn(seen, c, d)
  }

  /** Each counter is the number of dependencies not yet visited. */
  ghost predicate Counts(tasks: seq<Task>, indegree: map<u64, nat>, done: set<u64>) {
    && indegree.Keys == Ids(tasks)
    && forall t {:trigger Open(t, done)} | t in tasks :: t.id in indegree && indegree[t.id] == |Open(t, done)|
  }

  /** The queue holds, once each, the unvisited tasks without open dependencies. */
  ghost predicate Queues(tasks: seq<Task>, ready: seq<u64>, done: set<u64>) {
    && NoDuplicates(ready)
    && (forall id | id in ready :: id in Ids(tasks) && id !in done)
    && forall t {:trigger Open(t, done)} | t in tasks :: Open(t, done) == {} <==> t.id in done || t.id in ready
  }

  /** The visiting order is a rank function on the visited part. */
  ghost predicate Orders(tasks: seq<Task>, done: set<u64>, rank: map<u64, nat>) {
    && done <= Ids(tasks)
    && rank.Keys == done
    && (forall id | id in done :: rank[id] < |done|)
    && forall id, d {:trigger DependsOn(tasks, id, d)} | id in done
    && DependsOn(tasks, id, d) :: d in done && rank[d] < rank[id]
  }

  lemma {:induction false} UniqueIdsBySize(tasks: seq<Task>)
    ensures |Ids(tasks)| <= |tasks|
    ensures |Ids(tasks)| == |tasks| <==> UniqueIds(tasks)
  {
    if tasks != [] {
      var n := |tasks| - 1;
      var front, last := tasks[..n], tasks[n];
      UniqueIdsBySize(front);
      if last.id in Ids(front) {
        assert Ids(tasks) == Ids(front);
        var t := TaskOfId(front, last.id);
        var i :| 0 <= i < n && tasks[i] == t;
        assert tasks[i].id == tasks[n].id;
      } else {
        forall i | 0 <= i < n ensures tasks[i].id != last.id {
          IdOfTask(front, tasks[i]);
        }
        assert forall i, j | 0 <= i < j < n :: front[i].id == tasks[i].id && front[j].id == tasks[j].id;
      }
    }
  }

  lemma {:induction false} IdsAreIds(tasks: seq<Task>)
    ensures (set t | t in tasks :: t.id) == Ids(tasks)
  {
    var ids := set t | t in tasks :: t.id;
    forall id | id in ids ensures id in Ids(tasks) {
      var t :| t in tasks && t.id == id;
      IdOfTask(tasks, t);
    }
    forall id | id in Ids(tasks) ensures id in ids {
      var t := TaskOfId(tasks, id);
    }
  }

  lemma {:induction false} IdsExtend(tasks: seq<Task>, i: nat)
    requires i < |tasks|
    ensures Ids(tasks[..i + 1]) == Ids(tasks[..i]) + {tasks[i].id}
  {
    assert tasks[..i + 1][..i] == tasks[..i];
  }

  /** Ids whose counter drops to zero when each of `children` is decremented once, in order. */
  ghost function Zeroed(children: seq<u64>, indegree: map<u64, nat>): (r: seq<u64>)
    requires forall c | c in children :: c in indegree
    ensures forall c :: c in r <==> c in children && indegree[c] == 1
    ensures NoDuplicates(children) ==> NoDuplicates(r)
  {
    if children == [] then []
    else
      var n := |children| - 1;
      var front := Zeroed(children[..n], indegree);
      assert children == children[..n] + [children[n]];
      if indegree[children[n]] == 1 then front + [children[n]] else front
  }

  ghost function Added(dependents: map<u64, seq<u64>>, id: u64, dependencies: seq<u64>, d: u64): seq<u64> {
    DependentsOf(dependents, d) + if d in dependencies then [id] else []
  }

  lemma {:induction false} IndexesExtend(tasks: seq<Task>, i: nat, dependents: map<u64, seq<u64>>,
                                         r: map<u64, seq<u64>>)
    requires i < |tasks| && UniqueIds(tasks) && Indexes(dependents, tasks[..i])
    requires forall d {:trigger DependentsOf(r, d)} ::
      DependentsOf(r, d) == Added(dependents, tasks[i].id, tasks[i].dependencies, d)
    ensures Indexes(r, tasks[..i + 1])
  {
    var task := tasks[i];
    forall d
      ensures NoDuplicates(DependentsOf(r, d))
      ensures forall c :: c in DependentsOf(r, d) <==> DependsOn(tasks[..i + 1], c, d)
    {
      var before := DependentsOf(dependents, d);
      assert !DependsOn(tasks[..i], task.id, d);
      forall c ensures c in DependentsOf(r, d) <==> DependsOn(tasks[..i + 1], c, d) {
        DependsOnExtends(tasks, i, c, d);
      }
    }
  }

  lemma {:induction false} DependsOnExtends(tasks: seq<Task>, i: nat, c: u64, d: u64)
    requires i < |tasks|
    ensures DependsOn(tasks[..i + 1], c, d) <==>
            DependsOn(tasks[..i], c, d) || (c == tasks[i].id && d in tasks[i].dependencies)
  {
    assert tasks[..i + 1] == tasks[..i] + [tasks[i]];
    if DependsOn(tasks[..i], c, d) {
      var t :| t in tasks[..i] && t.id == c && d in t.dependencies;
      assert t in tasks[..i + 1];
    } else if c == tasks[i].id && d in tasks[i].dependencies {
      assert tasks[i] in tasks[..i + 1];
    }
  }

  lemma {:induction false} AddedExtends(dependents: map<u64, seq<u64>>, r: map<u64, seq<u64>>, id: u64,
                                        dependencies: seq<u64>, j: nat, r': map<u64, seq<u64>>)
    requires j < |dependencies| && NoDuplicates(dependencies)
    requires forall d {:trigger DependentsOf(r, d)} :: DependentsOf(r, d) == Added(dependents, id, dependencies[..j], d)
    requires r' == r[dependencies[j] := DependentsOf(r, dependencies[j]) + [id]]
    ensures forall d {:trigger DependentsOf(r', d)} ::
              DependentsOf(r', d) == Added(dependents, id, dependencies[..j + 1], d)
  {
    var now := dependencies[j];
    assert now !in dependencies[..j];
    forall d ensures DependentsOf(r', d) == Added(dependents, id, dependencies[..j + 1], d) {
      assert DependentsOf(r, d) == Added(dependents, id, dependencies[..j], d);
      assert d in dependencies[..j + 1] <==> d in dependencies[..j] || d == now;
    }
  }

  /** The inner loop of the index construction: one entry per dependency of task `i`. */
  method AddDependent(tasks: seq<Task>, i: nat, dependents: map<u64, seq<u64>>) returns (r: map<u64, seq<u64>>)
    requires i < |tasks| && UniqueIds(tasks) && NoDuplicates(tasks[i].dependencies)
    requires Indexes(dependents, tasks[..i])
    ensures Indexes(r, tasks[..i + 1])
  {
    var task := tasks[i];
    r := dependents;
    for j := 0 to |task.dependencies|
      invariant forall d {:trigger DependentsOf(r, d)} ::
                  DependentsOf(r, d) == Added(dependents, task.id, task.dependencies[..j], d)
    {
      var d := task.dependencies[j];
      ghost var r0 := r;
      r := r[d := (if d in r then r[d] else []) + [task.id]];
      AddedExtends(dependents, r0, task.id, task.dependencies, j, r);
    }
    assert task.dependencies[..|task.dependencies|] == task.dependencies;
    IndexesExtend(tasks, i, dependents, r);
  }

  /** The initial queue: the ids with counter zero, in the map's ascending order. */
  method ZeroIndegree(indegree: map<u64, nat>) returns (ready: seq<u64>)
    ensures NoDuplicates(ready)
    ensures forall id :: id in ready <==> id in indegree && indegree[id] == 0
  {
    ready := [];
    var todo := indegree.Keys;
    while todo != {}
      invariant todo <= indegree.Keys
      invariant NoDuplicates(ready)
      invariant forall id :: id in ready <==> id in indegree && id !in todo && indegree[id] == 0
      decreases todo
    {
      var id := Least(todo);
      if indegree[id] == 0 {
        ready := ready + [id];
      }
      todo := todo - {id};
    }
  }

  method Least(s: set<u64>) returns (least: u64)
    requires s != {}
    ensures least in s && forall x | x in s :: least <= x
  {
    least :| least in s;
    var todo := s - {least};
    while todo != {}
      invariant least in s && todo <= s
      invariant forall x | x in s :: x in todo || least <= x
      decreases todo
    {
      var x :| x in todo;
      if x < least {
        least := x;
      }
      todo := todo - {x};
    }
  }

  lemma {:induction false} KahnStarts(tasks: seq<Task>, indegree: map<u64, nat>, ready: seq<u64>)
    requires SoundDependencies(tasks) && indegree.Keys == Ids(tasks) && NoDuplicates(ready)
    requires forall t | t in tasks :: t.id in indegree && indegree[t.id] == |t.dependencies|
    requires forall id :: id in ready <==> id in indegree && indegree[id] == 0
    ensures KahnState(tasks, indegree, ready, {}, map[])
  {
    forall t | t in tasks ensures indegree[t.id] == |Open(t, {})| && (Open(t, {}) == {} <==> t.id in ready) {
      assert Open(t, {}) == SetOf(t.dependencies) && SoundTask(t, Ids(tasks));
      SetOfSize(t.dependencies);
      assert t.dependencies != [] ==> t.dependencies[0] in Open(t, {});
    }
  }

  /** The dependents of a queued task are exactly the tasks for which it is still open. */
  lemma {:induction false} OpenAfterVisit(tasks: seq<Task>, done: set<u64>, dependents: map<u64, seq<u64>>, id: u64,
                                          t: Task)
    requires UniqueIds(tasks) && Indexes(dependents, tasks) && t in tasks && id !in done
    ensures Open(t, done + {id}) == Open(t, done) - {id}
    ensures id in Open(t, done) <==> t.id in DependentsOf(dependents, id)
  {
    if t.id in DependentsOf(dependents, id) {
      assert DependsOn(tasks, t.id, id);
      var s :| s in tasks && s.id == t.id && id in s.dependencies;
      SameIdSameTask(tasks, s, t);
    } else {
      assert !DependsOn(tasks, t.id, id);
    }
  }

  lemma {:induction false} ChildIsOpen(tasks: seq<Task>, indegree: map<u64, nat>, done: set<u64>,
                                       dependents: map<u64, seq<u64>>, id: u64, c: u64)
    requires UniqueIds(tasks) && Counts(tasks, indegree, done) && Indexes(dependents, tasks)
    requires id !in done && c in DependentsOf(dependents, id)
    ensures c in indegree && indegree[c] >= 1
  {
    assert DependsOn(tasks, c, id);
    var t :| t in tasks && t.id == c && id in t.dependencies;
    assert id in Open(t, done);
  }

  /** What one visit does to the counters. */
  ghost predicate Decrements(indegree: map<u64, nat>, children: seq<u64>, indegree': map<u64, nat>) {
    && (forall c | c in children :: c in indegree && indegree[c] >= 1)
    && indegree'.Keys == indegree.Keys
    && (forall c | c in indegree :: indegree'[c] == if c in children then indegree[c] - 1 else indegree[c])
  }

  lemma {:induction false} CountsAfterVisit(tasks: seq<Task>, indegree: map<u64, nat>, done: set<u64>,
                                            dependents: map<u64, seq<u64>>, id: u64, indegree': map<u64, nat>)
    requires UniqueIds(tasks) && Counts(tasks, indegree, done) && Indexes(dependents, tasks)
    requires id !in done && Decrements(indegree, DependentsOf(dependents, id), indegree')
    ensures Counts(tasks, indegree', done + {id})
  {
    forall t | t in tasks ensures t.id in indegree' && indegree'[t.id] == |Open(t, done + {id})| {
      OpenAfterVisit(tasks, done, dependents, id, t);
      assert id !in Open(t, done) ==> Open(t, done) - {id} == Open(t, done);
    }
  }

  lemma {:induction false} ChildIsNew(tasks: seq<Task>, ready: seq<u64>, done: set<u64>, dependents: map<u64, seq<u64>>,
                                      id: u64, c: u64)
    requires UniqueIds(tasks) && Queues(tasks, ready, done) && Indexes(dependents, tasks)
    requires id !in done && c in DependentsOf(dependents, id)
    ensures c in Ids(tasks) && c !in done && c !in ready
  {
    assert DependsOn(tasks, c, id);
    var t :| t in tasks && t.id == c && id in t.dependencies;
    IdOfTask(tasks, t);
    assert id in Open(t, done);
  }

  lemma {:induction false} QueuedAfterVisit(tasks: seq<Task>, indegree: map<u64, nat>, ready: seq<u64>, done: set<u64>,
                         dependents: map<u64, seq<u64>>, children: seq<u64>, t: Task)
    requires UniqueIds(tasks) && Counts(tasks, indegree, done) && Queues(tasks, ready, done)
    requires Indexes(dependents, tasks)
    requires ready != [] && children == DependentsOf(dependents, ready[0]) && t in tasks
    requires forall c | c in children :: c in indegree
    ensures Open(t, done + {ready[0]}) == {} <==>
            t.id in done + {ready[0]} || t.id in ready[1..] + Zeroed(children, indegree)
  {
    var id := ready[0];
    OpenAfterVisit(tasks, done, dependents, id, t);
    assert ready == [id] + ready[1..];
    if id in Open(t, done) {
      assert |Open(t, done + {id})| == |Open(t, done)| - 1;
      ChildIsNew(tasks, ready, done, dependents, id, t.id);
    } else {
      assert Open(t, done + {id}) == Open(t, done);
    }
  }

  lemma {:induction false} QueuesAfterVisit(tasks: seq<Task>, indegree: map<u64, nat>, ready: seq<u64>, done: set<u64>,
                                            dependents: map<u64, seq<u64>>)
    requires UniqueIds(tasks) && Counts(tasks, indegree, done) && Queues(tasks, ready, done)
    requires Indexes(dependents, tasks)
    requires ready != [] && forall c | c in DependentsOf(dependents, ready[0]) :: c in indegree
    ensures Queues(tasks, ready[1..] + Zeroed(DependentsOf(dependents, ready[0]), indegree), done + {ready[0]})
  {
    var id, children := ready[0], DependentsOf(dependents, ready[0]);
    forall c | c in children ensures c in Ids(tasks) && c !in done && c !in ready {
      ChildIsNew(tasks, ready, done, dependents, id, c);
    }
    assert NoDuplicates(children);
    ConcatNoDuplicates(ready[1..], Zeroed(children, indegree));
    forall t | t in tasks
      ensures Open(t, done + {id}) == {} <==> t.id in done + {id} || t.id in ready[1..] + Zeroed(children, indegree)
    {
      QueuedAfterVisit(tasks, indegree, ready, done, dependents, children, t);
    }
  }

  lemma {:induction false} OrdersAfterVisit(tasks: seq<Task>, ready: seq<u64>, done: set<u64>, rank: map<u64, nat>)
    requires Queues(tasks, ready, done) && Orders(tasks, done, rank) && ready != []
    ensures Orders(tasks, done + {ready[0]}, rank[ready[0] := |done|])
  {
    var next, rank' := ready[0], rank[ready[0] := |done|];
    forall id, d | id in done + {next} && DependsOn(tasks, id, d) ensures d in done + {next} && rank'[d] < rank'[id] {
      if id == next {
        var t :| t in tasks && t.id == id && d in t.dependencies;
        assert Open(t, done) == {};
        assert d in SetOf(t.dependencies);
      }
    }
  }

  ghost predicate KahnState(tasks: seq<Task>, indegree: map<u64, nat>, ready: seq<u64>, done: set<u64>,
                            rank: map<u64, nat>) {
    Counts(tasks, indegree, done) && Queues(tasks, ready, done) && Orders(tasks, done, rank)
  }

  lemma {:induction false} VisitKeepsState(tasks: seq<Task>, indegree: map<u64, nat>, ready: seq<u64>, done: set<u64>,
                                           rank: map<u64, nat>, dependents: map<u64, seq<u64>>,
                                           indegree': map<u64, nat>)
    requires UniqueIds(tasks) && KahnState(tasks, indegree, ready, done, rank) && Indexes(dependents, tasks)
    requires ready != [] && Decrements(indegree, DependentsOf(dependents, ready[0]), indegree')
    ensures KahnState(tasks, indegree', ready[1..] + Zeroed(DependentsOf(dependents, ready[0]), indegree),
                      done + {ready[0]}, rank[ready[0] := |done|])
    ensures ready[0] in Ids(tasks) && ready[0] !in done
  {
    CountsAfterVisit(tasks, indegree, done, dependents, ready[0], indegree');
    QueuesAfterVisit(tasks, indegree, ready, done, dependents);
    OrdersAfterVisit(tasks, ready, done, rank);
  }

  /** With an empty queue, everything was visited exactly when the graph is acyclic. */
  lemma {:induction false} KahnEnds(tasks: seq<Task>, indegree: map<u64, nat>, done: set<u64>, rank: map<u64, nat>)
    requires UniqueIds(tasks) && SoundDependencies(tasks) && KahnState(tasks, indegree, [], done, rank)
    ensures |done| == |tasks| <==> Acyclic(tasks)
  {
    UniqueIdsBySize(tasks);
    if |done| == |tasks| {
      SubsetOfSameSize(done, Ids(tasks));
      forall id, d | DependsOn(tasks, id, d) ensures id in rank && d in rank && rank[d] < rank[id] {
        var t :| t in tasks && t.id == id && d in t.dependencies;
        IdOfTask(tasks, t);
      }
      assert Ranks(tasks, rank);
    } else {
      var stuck := Ids(tasks) - done;
      if stuck == {} {
        SameElements(done, Ids(tasks));
      }
      forall id | id in stuck ensures WaitsWithin(tasks, stuck, id) {
        var t := TaskOfId(tasks, id);
        var d :| d in Open(t, done);
        assert SoundTask(t, Ids(tasks));
        assert DependsOn(tasks, id, d);
      }
      forall r: map<u64, nat> ensures !Ranks(tasks, r) {
        StuckSetIsCyclic(tasks, stuck, r);
      }
    }
  }

  lemma {:induction false} SameElements<T>(a: set<T>, b: set<T>)
    requires a <= b && b - a == {}
    ensures a == b
  {
    assert b == a + (b - a);
  }

  /** The inner loop of a visit. Its two error returns are unreachable for the children of a queued task. */
  method Release(indegree: map<u64, nat>, ready: seq<u64>, children: seq<u64>)
    returns (indegree': map<u64, nat>, ready': seq<u64>, failed: Option<PithosError>)
    requires NoDuplicates(children)
    requires forall c | c in children :: c in indegree && indegree[c] >= 1
    ensures failed == None
    ensures Decrements(indegree, children, indegree')
    ensures ready' == ready + Zeroed(children, indegree)
  {
    indegree', ready' := indegree, ready;
    for j := 0 to |children|
      invariant Decrements(indegree, children[..j], indegree')
      invariant ready' == ready + Zeroed(children[..j], indegree)
    {
      var child := children[j];
      assert child !in children[..j];
      assert children[..j + 1] == children[..j] + [child];
      assert children[..j + 1][..j] == children[..j];
      if child !in indegree' {
        return indegree', ready', Some(InvalidMetadata("invalid scheduler dependency"));
      }
      if indegree'[child] == 0 {
        return indegree', ready', Some(IntegerOverflow);
      }
      indegree' := indegree'[child := indegree'[child] - 1];
      if indegree'[child] == 0 {
        ready' := ready' + [child];
      }
    }
    assert children[..|children|] == children;
    failed := None;
  }

  method Visit(tasks: seq<Task>, indegree: map<u64, nat>, ready: seq<u64>, dependents: map<u64, seq<u64>>,
               ghost done: set<u64>, ghost rank: map<u64, nat>)
    returns (indegree': map<u64, nat>, ready': seq<u64>)
    requires UniqueIds(tasks) && KahnState(tasks, indegree, ready, done, rank) && Indexes(dependents, tasks)
    requires ready != []
    ensures KahnState(tasks, indegree', ready', done + {ready[0]}, rank[ready[0] := |done|])
    ensures ready[0] in Ids(tasks) && ready[0] !in done
  {
    var id := ready[0];
    var children := if id in dependents then dependents[id] else [];
    assert children == DependentsOf(dependents, id);
    forall c | c in children ensures c in indegree && indegree[c] >= 1 {
      ChildIsOpen(tasks, indegree, done, dependents, id, c);
    }
    var failed;
    indegree', ready', failed := Release(indegree, ready[1..], children);
    assert failed == None;
    VisitKeepsState(tasks, indegree, ready, done, rank, dependents, indegree');
  }

  /** The loop of `validate_dag` that checks every task and fills `indegree` and `dependents`. */
  method IndexTasks(tasks: seq<Task>, ids: set<u64>)
    returns (sound: bool, indegree: map<u64, nat>, dependents: map<u64, seq<u64>>)
    requires UniqueIds(tasks) && ids == Ids(tasks)
    ensures sound == SoundDependencies(tasks)
    ensures sound ==> indegree.Keys == Ids(tasks) && Indexes(dependents, tasks)
    ensures sound ==> forall t | t in tasks :: t.id in indegree && indegree[t.id] == |t.dependencies|
  {
    sound, indegree, dependents := true, map[], map[];
    for i := 0 to |tasks|
      invariant sound && indegree.Keys == Ids(tasks[..i])
      invariant forall t | t in tasks[..i] ::
                  SoundTask(t, ids) && t.id in indegree && indegree[t.id] == |t.dependencies|
      invariant Indexes(dependents, tasks[..i])
    {
      hide Indexes, Ids, NoDuplicates, UniqueIds;
      var task := tasks[i];
      var unique := set d | d in task.dependencies;
      assert unique == SetOf(task.dependencies);
      SetOfSize(task.dependencies);
      if |unique| != |task.dependencies| || exists d | d in unique :: d !in ids {
        assert task in tasks && !SoundTask(task, ids);
        return false, map[], map[];
      }
      indegree := indegree[task.id := |unique|];
      dependents := AddDependent(tasks, i, dependents);
      IdsExtend(tasks, i);
      assert tasks[..i + 1] == tasks[..i] + [task];
    }
    assert tasks[..|tasks|] == tasks;
  }

  method ValidateDag(tasks: seq<Task>) returns (r: Result<(), PithosError>)
    ensures r ==
      if !UniqueIds(tasks) then Failure(InvalidMetadata("duplicate scheduler task ID"))
      else if !SoundDependencies(tasks) then Failure(InvalidMetadata("invalid scheduler dependency"))
      else if !Acyclic(tasks) then Failure(DependencyCycle)
      else Success(())
  {
    var ids := set t | t in tasks :: t.id;
    IdsAreIds(tasks);
    UniqueIdsBySize(tasks);
    if |ids| != |tasks| {
      return Failure(InvalidMetadata("duplicate scheduler task ID"));
    }
    var sound, indegree, dependents := IndexTasks(tasks, ids);
    if !sound {
      return Failure(InvalidMetadata("invalid scheduler dependency"));
    }
    var ready := ZeroIndegree(indegree);
    var visited := 0;
    ghost var done: set<u64>, rank: map<u64, nat> := {}, map[];
    KahnStarts(tasks, indegree, ready);
    while ready != []
      invariant KahnState(tasks, indegree, ready, done, rank)
      invariant visited == |done|
      decreases Ids(tasks) - done
    {
      var id := ready[0];
      visited := visited + 1;
      indegree, ready := Visit(tasks, indegree, ready, dependents, done, rank);
      rank := rank[id := |done|];
      done := done + {id};
    }
    KahnEnds(tasks, indegree, done, rank);
    if visited != |tasks| {
      return Failure(DependencyCycle);
    }
    return Success(());
  }

  // ----- DependencyCycle means a cycle -----

  /** Each id of the walk names a dependency of the one before it. */
  ghost predicate Walk(tasks: seq<Task>, walk: seq<u64>) {
    forall i | 0 <= i < |walk| - 1 :: DependsOn(tasks, walk[i], walk[i + 1])
  }

  ghost predicate Cycle(tasks: seq<Task>, walk: seq<u64>) {
    |walk| >= 2 && walk[0] == walk[|walk| - 1] && Walk(tasks, walk)
  }

  /** `DependencyCycle` is answered exactly for graphs with a closed walk of dependencies. */
  lemma {:induction false} AcyclicMeansNoCycle(tasks: seq<Task>)
    requires UniqueIds(tasks) && SoundDependencies(tasks)
    ensures Acyclic(tasks) <==> !exists walk: seq<u64> :: Cycle(tasks, walk)
  {
    if Acyclic(tasks) {
      var rank: map<u64, nat> :| Ranks(tasks, rank);
      forall walk: seq<u64> ensures !Cycle(tasks, walk) {
        if Cycle(tasks, walk) {
          WalkDescends(tasks, rank, walk);
        }
      }
    } else {
      var stuck := StuckSet(tasks, {}, map[]);
      var walk := LongWalk(tasks, stuck, |stuck| + 1);
      var i, j := Repetition(walk, stuck);
      SubWalk(tasks, walk, i, j);
    }
  }

  lemma {:induction false} SubWalk(tasks: seq<Task>, walk: seq<u64>, i: nat, j: nat)
    requires Walk(tasks, walk) && i < j < |walk| && walk[i] == walk[j]
    ensures Cycle(tasks, walk[i..j + 1])
  {
    var sub := walk[i..j + 1];
    forall k | 0 <= k < |sub| - 1 ensures DependsOn(tasks, sub[k], sub[k + 1]) {
      assert DependsOn(tasks, walk[i + k], walk[i + k + 1]);
    }
  }

  lemma {:induction false} WalkDescends(tasks: seq<Task>, rank: map<u64, nat>, walk: seq<u64>)
    requires Ranks(tasks, rank) && |walk| >= 2 && Walk(tasks, walk)
    ensures walk[0] in rank && walk[|walk| - 1] in rank && rank[walk[|walk| - 1]] < rank[walk[0]]
  {
    assert DependsOn(tasks, walk[0], walk[1]);
    if |walk| > 2 {
      var rest := walk[1..];
      forall i | 0 <= i < |rest| - 1 ensures DependsOn(tasks, rest[i], rest[i + 1]) {
        assert DependsOn(tasks, walk[i + 1], walk[i + 2]);
      }
      WalkDescends(tasks, rank, rest);
    }
  }

  lemma {:induction false} RankedIsAcyclic(tasks: seq<Task>, rank: map<u64, nat>)
    requires rank.Keys == Ids(tasks)
    requires forall id, d | id in rank && DependsOn(tasks, id, d) :: d in rank && rank[d] < rank[id]
    ensures Acyclic(tasks)
  {
    forall id, d | DependsOn(tasks, id, d) ensures id in rank {
      var t :| t in tasks && t.id == id;
      IdOfTask(tasks, t);
    }
    assert Ranks(tasks, rank);
  }

  /** Kahn's algorithm itself finds the stuck set of a graph without a rank function. */
  lemma {:induction false} StuckSet(tasks: seq<Task>, done: set<u64>, rank: map<u64, nat>) returns (stuck: set<u64>)
    requires UniqueIds(tasks) && SoundDependencies(tasks) && !Acyclic(tasks)
    requires done <= Ids(tasks) && rank.Keys == done && forall id | id in done :: rank[id] < |done|
    requires forall id, d | id in done && DependsOn(tasks, id, d) :: d in done && rank[d] < rank[id]
    ensures Stuck(tasks, stuck)
    decreases Ids(tasks) - done
  {
    if next :| next in Ids(tasks) - done && forall d | DependsOn(tasks, next, d) :: d in done {
      stuck := StuckSet(tasks, done + {next}, rank[next := |done|]);
    } else {
      stuck := Ids(tasks) - done;
      if stuck == {} {
        SameElements(done, Ids(tasks));
        RankedIsAcyclic(tasks, rank);
      }
      forall id | id in stuck ensures WaitsWithin(tasks, stuck, id) {
        var d :| DependsOn(tasks, id, d) && d !in done;
        var t :| t in tasks && t.id == id && d in t.dependencies;
        assert SoundTask(t, Ids(tasks));
      }
    }
  }

  lemma {:induction false} LongWalk(tasks: seq<Task>, stuck: set<u64>, n: nat) returns (walk: seq<u64>)
    requires Stuck(tasks, stuck) && n >= 1
    ensures |walk| == n && Walk(tasks, walk) && forall id | id in walk :: id in stuck
  {
    if n == 1 {
      var id :| id in stuck;
      walk := [id];
    } else {
      var front := LongWalk(tasks, stuck, n - 1);
      assert WaitsWithin(tasks, stuck, front[n - 2]);
      var d :| d in stuck && DependsOn(tasks, front[n - 2], d);
      walk := front + [d];
      forall i | 0 <= i < |walk| - 1 ensures DependsOn(tasks, walk[i], walk[i + 1]) {
        if i < n - 2 {
          assert DependsOn(tasks, front[i], front[i + 1]);
        }
      }
    }
  }

  lemma {:induction false} Repetition(walk: seq<u64>, stuck: set<u64>) returns (i: nat, j: nat)
    requires |walk| > |stuck| && forall id | id in walk :: id in stuck
    ensures i < j < |walk| && walk[i] == walk[j]
  {
    SetOfSize(walk);
    assert SetOf(walk) <= stuck;
    assert |SetOf(walk)| <= |stuck| by {
      assert stuck == SetOf(walk) + (stuck - SetOf(walk));
    }
    i, j :| 0 <= i < j < |walk| && walk[i] == walk[j];
  }
}
