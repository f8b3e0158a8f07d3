/** Contiguous partitions of a list of sizes, and why the greedy one uses the fewest parts. */
module GreedyPartition {

  /** Sum of items `i` up to but not including `j`. */
  function SumRange(s: seq<nat>, i: nat, j: nat): nat
    requires j <= |s|
  {
    if j <= i then 0 else SumRange(s, i, j - 1) + s[j - 1]
  }

  lemma {:induction false} SumSplits(s: seq<nat>, i: nat, m: nat, j: nat)
    requires i <= m <= j <= |s|
    ensures SumRange(s, i, j) == SumRange(s, i, m) + SumRange(s, m, j)
  {
    if m < j {
      SumSplits(s, i, m, j - 1);
    }
  }

  lemma {:induction false} SumWithin(s: seq<nat>, from: nat, left: nat, right: nat, until: nat)
    requires from <= left <= right <= until <= |s|
    ensures SumRange(s, left, right) <= SumRange(s, from, until)
  {
    SumSplits(s, from, left, until);
    SumSplits(s, left, right, until);
  }

  /** Part `k` runs from `Start(ends, k)` to `ends[k]`. */
  function Start(ends: seq<nat>, k: nat): nat
    requires k <= |ends|
  {
    if k == 0 then 0 else ends[k - 1]
  }

  predicate PartAt(ends: seq<nat>, n: nat, k: nat)
    requires k < |ends|
  {
    Start(ends, k) < ends[k] <= n
  }

  /** The parts are nonempty, in order, and cover the first `n` items exactly. */
  ghost predicate Partition(ends: seq<nat>, n: nat) {
    && (forall k | 0 <= k < |ends| :: PartAt(ends, n, k))
    && Start(ends, |ends|) == n
  }

  lemma {:induction false} PartsAtMost(ends: seq<nat>, n: nat, k: nat)
    requires Partition(ends, n) && k < |ends|
    ensures k < ends[k]
  {
    assert PartAt(ends, n, k);
    if k > 0 {
      PartsAtMost(ends, n, k - 1);
    }
  }

  /** There are no more parts than items. */
  lemma {:induction false} NoMorePartsThanItems(ends: seq<nat>, n: nat)
    requires Partition(ends, n)
    ensures |ends| <= n
  {
    if ends != [] {
      PartsAtMost(ends, n, |ends| - 1);
    }
  }

  /** Part `k` fits the target, or is a single item. */
  predicate Fits(sizes: seq<nat>, target: nat, ends: seq<nat>, k: nat)
    requires k < |ends| && PartAt(ends, |sizes|, k)
  {
    ends[k] == Start(ends, k) + 1 || SumRange(sizes, Start(ends, k), ends[k]) <= target
  }

  /** Part `k` could not have taken the next item. */
  predicate Full(sizes: seq<nat>, target: nat, ends: seq<nat>, k: nat)
    requires k < |ends| && PartAt(ends, |sizes|, k)
  {
    ends[k] < |sizes| && SumRange(sizes, Start(ends, k), ends[k] + 1) > target
  }

  /** A partition of the first `n` items within the target. */
  ghost predicate Admissible(sizes: seq<nat>, target: nat, n: nat, ends: seq<nat>)
    requires n <= |sizes|
  {
    Partition(ends, n) && forall k | 0 <= k < |ends| :: FitsAt(sizes, target, n, ends, k)
  }

  predicate FitsAt(sizes: seq<nat>, target: nat, n: nat, ends: seq<nat>, k: nat)
    requires k < |ends| && n <= |sizes|
  {
    PartAt(ends, n, k) && Fits(sizes, target, ends, k)
  }

  /** What greedy filling makes of the first `n` items: within the target, and every part but the last is full. */
  ghost predicate Greedy(sizes: seq<nat>, target: nat, n: nat, ends: seq<nat>)
    requires n <= |sizes|
  {
    Start(ends, |ends|) == n && forall k | 0 <= k < |ends| :: GreedyAt(sizes, target, n, ends, k)
  }

  predicate GreedyAt(sizes: seq<nat>, target: nat, n: nat, ends: seq<nat>, k: nat)
    requires k < |ends| && n <= |sizes|
  {
    FitsAt(sizes, target, n, ends, k) && (k < |ends| - 1 ==> Full(sizes, target, ends, k))
  }

  lemma {:induction false} GreedyIsAdmissible(sizes: seq<nat>, target: nat, n: nat, ends: seq<nat>)
    requires n <= |sizes| && Greedy(sizes, target, n, ends)
    ensures Admissible(sizes, target, n, ends)
  {
    forall k | 0 <= k < |ends| ensures PartAt(ends, n, k) && FitsAt(sizes, target, n, ends, k) {
      assert GreedyAt(sizes, target, n, ends, k);
    }
  }

  /** If a greedy part and a part starting no later are given, the other part ends no later. */
  lemma {:induction false} PartStaysAhead(sizes: seq<nat>, target: nat, n: nat, greedy: seq<nat>, other: seq<nat>,
                                          k: nat)
    requires n <= |sizes| && k < |greedy| && k < |other|
    requires GreedyAt(sizes, target, n, greedy, k) && FitsAt(sizes, target, n, other, k)
    requires Start(other, k) <= Start(greedy, k) && (k == |greedy| - 1 ==> greedy[k] == n)
    ensures other[k] <= greedy[k]
  {
    if other[k] > greedy[k] {
      SumWithin(sizes, Start(other, k), Start(greedy, k), greedy[k] + 1, other[k]);
    }
  }

  lemma {:induction false} GreedyStaysAhead(sizes: seq<nat>, target: nat, n: nat, greedy: seq<nat>, other: seq<nat>,
                                            k: nat)
    requires n <= |sizes| && Greedy(sizes, target, n, greedy) && Admissible(sizes, target, n, other)
    requires k < |greedy| && k < |other|
    ensures other[k] <= greedy[k]
  {
    if k > 0 {
      GreedyStaysAhead(sizes, target, n, greedy, other, k - 1);
    }
    assert GreedyAt(sizes, target, n, greedy, k) && FitsAt(sizes, target, n, other, k);
    PartStaysAhead(sizes, target, n, greedy, other, k);
  }

  /** No partition of the same items within the same target has fewer parts. */
  lemma {:induction false} GreedyIsOptimal(sizes: seq<nat>, target: nat, n: nat, greedy: seq<nat>, other: seq<nat>)
    requires n <= |sizes| && Greedy(sizes, target, n, greedy) && Admissible(sizes, target, n, other)
    ensures |greedy| <= |other|
  {
    var m := |other|;
    if m < |greedy| {
      assert GreedyAt(sizes, target, n, greedy, m);
      if m > 0 {
        GreedyStaysAhead(sizes, target, n, greedy, other, m - 1);
      }
    }
  }

  /** There is only one greedy partition. */
  lemma {:induction false} GreedyIsUnique(sizes: seq<nat>, target: nat, n: nat, a: seq<nat>, b: seq<nat>)
    requires n <= |sizes| && Greedy(sizes, target, n, a) && Greedy(sizes, target, n, b)
    ensures a == b
  {
    GreedyIsAdmissible(sizes, target, n, a);
    GreedyIsAdmissible(sizes, target, n, b);
    GreedyIsOptimal(sizes, target, n, a, b);
    GreedyIsOptimal(sizes, target, n, b, a);
    forall k | 0 <= k < |a| ensures a[k] == b[k] {
      GreedyStaysAhead(sizes, target, n, a, b, k);
      GreedyStaysAhead(sizes, target, n, b, a, k);
    }
  }

  lemma {:induction false} GreedyFirst(sizes: seq<nat>, target: nat)
    requires sizes != []
    ensures Greedy(sizes, target, 1, [1]) && SumRange(sizes, 0, 1) == sizes[0]
  {
    assert GreedyAt(sizes, target, 1, [1], 0);
  }

  /** The next item joins the last part. */
  lemma {:induction false} GreedyJoins(sizes: seq<nat>, target: nat, n: nat, ends: seq<nat>, ends': seq<nat>)
    requires n < |sizes| && Greedy(sizes, target, n, ends) && ends != []
    requires SumRange(sizes, Start(ends, |ends| - 1), n) + sizes[n] <= target
    requires |ends'| == |ends| && ends'[|ends| - 1] == n + 1 && forall k | 0 <= k < |ends| - 1 :: ends'[k] == ends[k]
    ensures Greedy(sizes, target, n + 1, ends')
  {
    var m, next := |ends| - 1, n + 1;
    assert GreedyAt(sizes, target, n, ends, m) && GreedyAt(sizes, target, next, ends', m);
    forall k | 0 <= k < m ensures GreedyAt(sizes, target, next, ends', k) {
      assert GreedyAt(sizes, target, n, ends, k);
      assert Start(ends', k) == Start(ends, k);
    }
  }

  /** The next item opens a part of its own. */
  lemma {:induction false} GreedyOpens(sizes: seq<nat>, target: nat, n: nat, ends: seq<nat>, ends': seq<nat>)
    requires n < |sizes| && Greedy(sizes, target, n, ends) && ends != []
    requires SumRange(sizes, Start(ends, |ends| - 1), n) + sizes[n] > target
    requires |ends'| == |ends| + 1 && ends'[|ends|] == n + 1 && forall k | 0 <= k < |ends| :: ends'[k] == ends[k]
    ensures Greedy(sizes, target, n + 1, ends')
  {
    var m, next := |ends|, n + 1;
    forall k | 0 <= k < m ensures GreedyAt(sizes, target, next, ends', k) {
      assert GreedyAt(sizes, target, n, ends, k);
      assert Start(ends', k) == Start(ends, k);
    }
    assert GreedyAt(sizes, target, next, ends', m);
  }
}

/** The planner: how file lengths become solid groups, and what a candidate encoding costs. */
module SolidGroups {
  import opened Base
  import opened GreedyPartition

  datatype CompressionProfile = Raw | Stream | Random | Balanced | ArchiveMax

  function SolidGroupTarget(profile: CompressionProfile): nat {
    match profile
    case Raw => 0
    case Stream => 4 * MIB
    case Random => 8 * MIB
    case Balanced => 64 * MIB
    case ArchiveMax => 512 * MIB
  }

  datatype SolidGroupPlan = SolidGroupPlan(firstItem: nat, itemCount: nat, uncompressedLen: nat)

  /** The plan of part `k` of a partition. */
  function PlanOf(lengths: seq<nat>, ends: seq<nat>, k: nat): SolidGroupPlan
    requires k < |ends| && PartAt(ends, |lengths|, k)
  {
    SolidGroupPlan(Start(ends, k), ends[k] - Start(ends, k), SumRange(lengths, Start(ends, k), ends[k]))
  }

  predicate PlanAt(plans: seq<SolidGroupPlan>, lengths: seq<nat>, ends: seq<nat>, k: nat)
    requires k < |ends| == |plans|
  {
    PartAt(ends, |lengths|, k) && plans[k] == PlanOf(lengths, ends, k)
  }

  ghost predicate PlansParts(plans: seq<SolidGroupPlan>, lengths: seq<nat>, ends: seq<nat>) {
    |plans| == |ends| && forall k | 0 <= k < |ends| :: PlanAt(plans, lengths, ends, k)
  }

  /** Length of the group that is open when item `i` is looked at. */
  function OpenLength(target: nat, lengths: seq<nat>, i: nat): nat
    requires 0 < i <= |lengths|
  {
    if i == 1 then lengths[0]
    else
      var combined := OpenLength(target, lengths, i - 1) + lengths[i - 1];
      if combined <= target then combined else lengths[i - 1]
  }

  /** Adding item `i` to the open group exceeds 64 bits. */
  predicate OverflowsAt(profile: CompressionProfile, lengths: seq<nat>, i: nat)
    requires 0 < i < |lengths|
  {
    OpenLength(SolidGroupTarget(profile), lengths, i) + lengths[i] > U64_MAX
  }

  ghost predicate Overflows(profile: CompressionProfile, lengths: seq<nat>) {
    profile != Raw && exists i | 0 < i < |lengths| :: OverflowsAt(profile, lengths, i)
  }

  /** The parts a plan consists of: one per item for RAW, the greedy filling of the target otherwise. */
  ghost predicate PlannedParts(profile: CompressionProfile, lengths: seq<nat>, ends: seq<nat>) {
    && Partition(ends, |lengths|)
    && (profile == Raw ==> |ends| == |lengths|)
    && (profile != Raw ==> Greedy(lengths, SolidGroupTarget(profile), |lengths|, ends))
  }

  method PlanSolidGroups(profile: CompressionProfile, lengths: seq<u64>)
    returns (r: Result<seq<SolidGroupPlan>, PithosError>, ghost ends: seq<nat>)
    ensures r.Success? <==> !Overflows(profile, lengths)
    ensures r.Success? ==> PlannedParts(profile, lengths, ends) && PlansParts(r.value, lengths, ends)
    ensures r.Failure? ==> r.error == IntegerOverflow
  {
    if profile == Raw {
      ends := seq(|lengths|, k => k + 1);
      var plans := seq(|lengths|, k requires 0 <= k < |lengths| => SolidGroupPlan(k, 1, lengths[k]));
      forall k | 0 <= k < |ends| ensures PartAt(ends, |lengths|, k) && PlanAt(plans, lengths, ends, k) {
        assert SumRange(lengths, k, k + 1) == lengths[k];
      }
      return Success(plans), ends;
    }
    var target := SolidGroupTarget(profile);
    var groups: seq<SolidGroupPlan> := [];
    if lengths == [] {
      ends := [];
      return Success(groups), ends;
    }
    var current := SolidGroupPlan(0, 1, lengths[0]);
    ends := [1];
    GreedyFirst(lengths, target);
    assert PlanAt([] + [current], lengths, ends, 0);
    for index := 1 to |lengths|
      invariant PlanningState(lengths, target, index, groups, current, ends)
      invariant forall i | 0 < i < index :: !OverflowsAt(profile, lengths, i)
    {
      var combined := current.uncompressedLen + lengths[index];
      if combined > U64_MAX {
        assert OverflowsAt(profile, lengths, index);
        return Failure(IntegerOverflow), ends;
      }
      if combined <= target {
        ends := PlanGrows(lengths, target, index, groups, current, ends);
        current := current.(itemCount := current.itemCount + 1, uncompressedLen := combined);
      } else {
        ends := PlanOpens(lengths, target, index, groups, current, ends);
        groups := groups + [current];
        current := SolidGroupPlan(index, 1, lengths[index]);
      }
    }
    GreedyIsPartition(lengths, target, ends);
    r := Success(groups + [current]);
  }

  /** The closed groups and the open one hold exactly the first `n` items. */
  ghost predicate PlanningState(lengths: seq<nat>, target: nat, n: nat, groups: seq<SolidGroupPlan>,
                                current: SolidGroupPlan, ends: seq<nat>) {
    && 0 < n <= |lengths|
    && Greedy(lengths, target, n, ends)
    && PlansParts(groups + [current], lengths, ends)
    && current.uncompressedLen == OpenLength(target, lengths, n)
  }

  lemma {:induction false} GreedyIsPartition(lengths: seq<nat>, target: nat, ends: seq<nat>)
    requires Greedy(lengths, target, |lengths|, ends)
    ensures Partition(ends, |lengths|)
  {
    GreedyIsAdmissible(lengths, target, |lengths|, ends);
  }

  lemma {:induction false} LastPlan(lengths: seq<nat>, target: nat, n: nat, groups: seq<SolidGroupPlan>,
                                    current: SolidGroupPlan, ends: seq<nat>)
    requires PlanningState(lengths, target, n, groups, current, ends)
    ensures |ends| == |groups| + 1 && ends[|groups|] == n && PartAt(ends, |lengths|, |groups|)
    ensures current == PlanOf(lengths, ends, |groups|)
  {
    assert PlanAt(groups + [current], lengths, ends, |groups|);
    assert (groups + [current])[|groups|] == current;
  }

  lemma {:induction false} PlanGrows(lengths: seq<nat>, target: nat, n: nat, groups: seq<SolidGroupPlan>,
                                     current: SolidGroupPlan, ends: seq<nat>)
    returns (ends': seq<nat>)
    requires n < |lengths| && PlanningState(lengths, target, n, groups, current, ends)
    requires current.uncompressedLen + lengths[n] <= target
    ensures PlanningState(lengths, target, n + 1, groups,
                          current.(itemCount := current.itemCount + 1,
                                   uncompressedLen := current.uncompressedLen + lengths[n]), ends')
  {
    var m := |groups|;
    LastPlan(lengths, target, n, groups, current, ends);
    ends' := ends[m := n + 1];
    GreedyJoins(lengths, target, n, ends, ends');
    var current' := current.(itemCount := current.itemCount + 1,
                             uncompressedLen := current.uncompressedLen + lengths[n]);
    forall k | 0 <= k < m ensures PlanAt(groups + [current'], lengths, ends', k) {
      assert PlanAt(groups + [current], lengths, ends, k);
      assert Start(ends', k) == Start(ends, k);
    }
    assert PlanAt(groups + [current'], lengths, ends', m);
  }

  lemma {:induction false} PlanOpens(lengths: seq<nat>, target: nat, n: nat, groups: seq<SolidGroupPlan>,
                                     current: SolidGroupPlan, ends: seq<nat>)
    returns (ends': seq<nat>)
    requires n < |lengths| && PlanningState(lengths, target, n, groups, current, ends)
    requires current.uncompressedLen + lengths[n] > target
    ensures PlanningState(lengths, target, n + 1, groups + [current], SolidGroupPlan(n, 1, lengths[n]), ends')
  {
    var m := |ends|;
    LastPlan(lengths, target, n, groups, current, ends);
    ends' := ends + [n + 1];
    GreedyOpens(lengths, target, n, ends, ends');
    var next := SolidGroupPlan(n, 1, lengths[n]);
    forall k | 0 <= k < m ensures PlanAt(groups + [current] + [next], lengths, ends', k) {
      assert PlanAt(groups + [current], lengths, ends, k);
      assert Start(ends', k) == Start(ends, k);
    }
    assert SumRange(lengths, n, n + 1) == lengths[n];
    assert PlanAt(groups + [current] + [next], lengths, ends', m);
  }

  /** The planner never fails on lengths whose total fits in 64 bits. */
  lemma {:induction false} NoOverflowWithin64Bits(profile: CompressionProfile, lengths: seq<nat>)
    requires SumRange(lengths, 0, |lengths|) <= U64_MAX
    ensures !Overflows(profile, lengths)
  {
    forall i | 0 < i < |lengths| ensures !OverflowsAt(profile, lengths, i) {
      OpenLengthBound(SolidGroupTarget(profile), lengths, i);
      SumWithin(lengths, 0, 0, i + 1, |lengths|);
    }
  }

  lemma {:induction false} OpenLengthBound(target: nat, lengths: seq<nat>, i: nat)
    requires 0 < i <= |lengths|
    ensures OpenLength(target, lengths, i) <= SumRange(lengths, 0, i)
  {
    if i > 1 {
      OpenLengthBound(target, lengths, i - 1);
    }
  }

  // ----- Candidate costs -----

  datatype CandidateCost = CandidateCost(payload: u64, codecDescriptor: u64, groupDescriptor: u64, indexDelta: u64,
                                         integrity: u64, padding: u64)
  {
    function Exact(): nat {
      payload + codecDescriptor + groupDescriptor + indexDelta + integrity + padding
    }

    /** Checked addition of the six parts: exact, or an overflow error and never a wrapped value. */
    function Total(): (r: Result<u64, PithosError>)
      ensures Exact() <= U64_MAX ==> r == Success(Exact())
      ensures Exact() > U64_MAX ==> r == Failure(IntegerOverflow)
    {
      var b :- CheckedAdd(payload, codecDescriptor);
      var c :- CheckedAdd(b, groupDescriptor);
      var d :- CheckedAdd(c, indexDelta);
      var e :- CheckedAdd(d, integrity);
      CheckedAdd(e, padding)
    }
  }

  function CheckedAdd(a: u64, b: u64): Result<u64, PithosError> {
    if a + b <= U64_MAX then Success(a + b) else Failure(IntegerOverflow)
  }

  function CheckedMul(a: u64, b: u64): Result<u64, PithosError> {
    if a * b <= U64_MAX then Success(a * b) else Failure(IntegerOverflow)
  }
}
