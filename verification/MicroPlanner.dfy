/** The planner as a whole, and what its plans guarantee. */
module MicroPlanner {
  import opened Base
  import opened MergeSort
  import opened GreedyPartition
  import opened ChunkingPolicy
  import opened MicroPack
  import opened MicroValidate
  import opened MicroPlan

  // ----- The plan passes its own validation -----

  /** The pack lists exactly the ids and bytes of part `k`. */
  predicate PartListed(e: seq<MicroFileInput>, ends: seq<nat>, k: nat, pack: MicroFilePack)
    requires k < |ends|
  {
    && PartAt(ends, |e|, k)
    && MemberIds(pack.members) == InputIds(e[Start(ends, k)..ends[k]])
    && pack.uncompressedLen == SumRange(Sizes(e), Start(ends, k), ends[k])
  }

  lemma {:induction false} PartMembers(e: seq<MicroFileInput>, ends: seq<nat>, k: nat, pack: MicroFilePack)
    requires k < |ends| && PartPacked(e, ends, k, pack)
    ensures PartListed(e, ends, k, pack)
  {
    MemberIdsOfPart(PartInputs(e, ends, k), k, pack);
    PartTotal(e, Start(ends, k), ends[k]);
  }

  lemma {:induction false} PlanMembers(e: seq<MicroFileInput>, ends: seq<nat>, packs: seq<MicroFilePack>, n: nat)
    requires n <= |packs| == |ends| && forall k | 0 <= k < |ends| :: PartListed(e, ends, k, packs[k])
    ensures Start(ends, n) <= |e| && PackedIds(packs, n) == InputIds(e[..Start(ends, n)])
    ensures ContentLength(packs, n) == SumRange(Sizes(e), 0, Start(ends, n))
  {
    if n > 0 {
      PlanMembers(e, ends, packs, n - 1);
      assert PartListed(e, ends, n - 1, packs[n - 1]);
      IdsJoin(e, Start(ends, n - 1), ends[n - 1]);
      SumSplits(Sizes(e), 0, Start(ends, n - 1), ends[n - 1]);
    } else {
      assert e[..0] == [];
    }
  }

  lemma {:induction false} MemberIdsOfPart(part: seq<MicroFileInput>, packId: nat, pack: MicroFilePack)
    requires PackHolds(part, packId, pack)
    ensures MemberIds(pack.members) == InputIds(part)
  {
    forall i | 0 <= i < |part| ensures MemberIds(pack.members)[i] == InputIds(part)[i] {
      assert RowHolds(part, pack, i);
    }
  }

  lemma {:induction false} IdsJoin(e: seq<MicroFileInput>, i: nat, j: nat)
    requires i <= j <= |e|
    ensures InputIds(e[..i]) + InputIds(e[i..j]) == InputIds(e[..j])
  {
  }

  lemma {:induction false} PlannedTotals(config: ChunkingConfig, o: seq<MicroFileInput>, e: seq<MicroFileInput>,
                                         ends: seq<nat>, plan: PackPlan)
    requires e == Eligible(config, o) && Start(ends, |ends|) == |e| && |plan.packs| == |ends|
    requires plan.excluded == Exclusions(config, o)
    requires forall k | 0 <= k < |ends| :: PartPacked(e, ends, k, plan.packs[k])
    ensures multiset(PlanIds(plan)) == multiset(InputIds(o))
    ensures ContentLength(plan.packs, |plan.packs|) == SumRange(Sizes(e), 0, |e|)
  {
    forall k | 0 <= k < |ends| ensures PartListed(e, ends, k, plan.packs[k]) {
      assert PartPacked(e, ends, k, plan.packs[k]);
      PartMembers(e, ends, k, plan.packs[k]);
    }
    PlanMembers(e, ends, plan.packs, |ends|);
    assert e[..|e|] == e;
    EveryInputOnce(config, o);
  }

  /** The ids of the plan are those of the inputs, each once. */
  lemma {:induction false} PlanCoversInputs(config: ChunkingConfig, inputs: seq<MicroFileInput>, ends: seq<nat>,
                                            plan: PackPlan)
    requires InputsOk(config, inputs) && PlanHolds(config, inputs, ends, plan)
    ensures NoDuplicates(PlanIds(plan)) && |PlanIds(plan)| == |inputs|
    ensures forall id :: id in PlanIds(plan) <==> exists i :: 0 <= i < |inputs| && inputs[i].entryId == id
    ensures ContentLength(plan.packs, |plan.packs|) == EligibleTotal(config, Ordered(inputs))
  {
    var o := Ordered(inputs);
    EligibleInputs(config, inputs, Eligible(config, o));
    PlannedTotals(config, o, Eligible(config, o), ends, plan);
    OrderedIsPermutation(inputs);
    SameIds(InputIds(o), PlanIds(plan), o, inputs);
  }

  lemma {:induction false} SameIds(ids: seq<u64>, planned: seq<u64>, o: seq<MicroFileInput>,
                                   inputs: seq<MicroFileInput>)
    requires ids == InputIds(o) && multiset(planned) == multiset(ids) && UniqueInputs(o)
    requires multiset(o) == multiset(inputs)
    ensures NoDuplicates(planned) && |planned| == |ids|
    ensures forall id :: id in planned <==> exists i :: 0 <= i < |inputs| && inputs[i].entryId == id
  {
    assert |multiset(planned)| == |planned| && |multiset(ids)| == |ids|;
    forall i, j | 0 <= i < j < |planned| ensures planned[i] != planned[j] {
      TwoCopies(planned, planned[i]);
      TwoCopies(ids, planned[i]);
    }
    forall id ensures id in planned <==> exists i :: 0 <= i < |inputs| && inputs[i].entryId == id {
      assert id in planned <==> id in multiset(planned);
      assert id in ids <==> id in multiset(ids);
      if id in ids {
        var j :| 0 <= j < |ids| && ids[j] == id;
        assert o[j] in multiset(o) && o[j] in multiset(inputs) && o[j] in inputs;
      }
      if i :| 0 <= i < |inputs| && inputs[i].entryId == id {
        assert inputs[i] in multiset(inputs) && inputs[i] in multiset(o) && inputs[i] in o;
        var j :| 0 <= j < |o| && o[j] == inputs[i];
        assert ids[j] == id;
      }
    }
  }

  /** The packs of a plan always have the required shape, and fit exactly when their sizes do. */
  lemma {:induction false} PlannedPackIsValid(config: ChunkingConfig, e: seq<MicroFileInput>, ends: seq<nat>, k: nat,
                                              pack: MicroFilePack)
    requires ConfigOk(config) && UniqueInputs(e) && AllUsable(config, e) && |e| <= config.maxChunks
    requires SumRange(Sizes(e), 0, |e|) <= config.maxLogicalBytes
    requires Greedy(Sizes(e), config.microPackTarget, |e|, ends) && k < |ends| && PartPacked(e, ends, k, pack)
    ensures PackShape(config, pack) && pack.packId == k
    ensures PackFits(config, pack) <==> PartSized(config, e, ends, k)
  {
    PartIsPackInputs(config, e, ends, k);
    BuiltPackIsValid(config, PartInputs(e, ends, k), k, pack);
  }

  /** No greedy filling needs more packs than there are inputs. */
  lemma {:induction false} NoMorePacksThanInputs(sizes: seq<nat>, target: nat, ends: seq<nat>)
    requires Greedy(sizes, target, |sizes|, ends)
    ensures |ends| <= |sizes|
  {
    GreedyIsAdmissible(sizes, target, |sizes|, ends);
    NoMorePartsThanItems(ends, |sizes|);
  }

  ghost predicate AllPartsSized(config: ChunkingConfig, e: seq<MicroFileInput>, ends: seq<nat>) {
    forall k | 0 <= k < |ends| :: PartAt(ends, |e|, k) && PartSized(config, e, ends, k)
  }

  lemma {:induction false} PlannedPacksAreValid(config: ChunkingConfig, e: seq<MicroFileInput>, ends: seq<nat>,
                                                plan: PackPlan)
    requires ConfigOk(config) && UniqueInputs(e) && AllUsable(config, e) && |e| <= config.maxChunks
    requires SumRange(Sizes(e), 0, |e|) <= config.maxLogicalBytes
    requires Greedy(Sizes(e), config.microPackTarget, |e|, ends) && |plan.packs| == |ends|
    requires forall k | 0 <= k < |ends| :: PartPacked(e, ends, k, plan.packs[k])
    ensures forall k | 0 <= k < |plan.packs| :: PackShapeAt(config, plan, k)
    ensures (forall k | 0 <= k < |plan.packs| :: PackFits(config, plan.packs[k])) <==> AllPartsSized(config, e, ends)
  {
    forall k | 0 <= k < |ends|
      ensures PackShapeAt(config, plan, k) && PartAt(ends, |e|, k)
      ensures PackFits(config, plan.packs[k]) <==> PartSized(config, e, ends, k)
    {
      assert PartPacked(e, ends, k, plan.packs[k]);
      PlannedPackIsValid(config, e, ends, k, plan.packs[k]);
    }
  }

  /**
   The plan of accepted inputs is never invalid: its shape always holds, so the final validation can only report a
   limit, and it does so exactly when the metadata of some pack is too large.
   */
  lemma {:induction false} PlanPassesValidation(config: ChunkingConfig, inputs: seq<MicroFileInput>, ends: seq<nat>,
                                                plan: PackPlan)
    requires ConfigOk(config) && InputsOk(config, inputs) && PlanHolds(config, inputs, ends, plan)
    requires EligibleTotal(config, Ordered(inputs)) <= config.maxLogicalBytes
    ensures PlanShape(config, plan)
    ensures PlanFits(config, plan) <==> AllPartsSized(config, Eligible(config, Ordered(inputs)), ends)
  {
    var e := Eligible(config, Ordered(inputs));
    EligibleInputs(config, inputs, e);
    PlanCoversInputs(config, inputs, ends, plan);
    NoMorePacksThanInputs(Sizes(e), config.microPackTarget, ends);
    PlannedPacksAreValid(config, e, ends, plan);
  }

  // ----- The planner -----

  /**
   Planning succeeds exactly on plannable inputs and returns their plan; on accepted inputs no failure is reported as
   invalid metadata.
   */
  method PlanMicroFilePacks(config: ChunkingConfig, inputs: seq<MicroFileInput>)
    returns (r: Result<PackPlan, PithosError>, ghost ends: seq<nat>)
    ensures r.Success? ==> Plannable(config, inputs, ends) && PlanHolds(config, inputs, ends, r.value)
    ensures r.Failure? ==> forall other :: !Plannable(config, inputs, other)
    ensures r.Failure? && ConfigOk(config) && InputsOk(config, inputs) ==> !r.error.InvalidMetadata?
  {
    ends := [];
    if !ConfigOk(config) {
      return Failure(InvalidMetadata("chunking configuration")), ends;
    }
    if |inputs| > config.maxChunks {
      return Failure(ResourceLimit("chunk count")), ends;
    }
    var valid := ValidateUniqueInputs(config, inputs);
    if valid.Failure? {
      return Failure(valid.error), ends;
    }
    CanonicalIsTotal();
    var ordered := SortList(inputs, CanonicalCompare());
    var selected := SelectEligible(config, ordered);
    if selected.Failure? {
      return Failure(selected.error), ends;
    }
    EligibleInputs(config, inputs, selected.value.0);
    r, ends := PlanEligible(config, inputs, selected.value.0, selected.value.1);
  }

  /** Filling, building and the final validation, for accepted inputs. */
  method PlanEligible(config: ChunkingConfig, ghost inputs: seq<MicroFileInput>, eligible: seq<MicroFileInput>,
                      excluded: seq<Exclusion>)
    returns (r: Result<PackPlan, PithosError>, ghost ends: seq<nat>)
    requires ConfigOk(config) && InputsOk(config, inputs)
    requires EligibleTotal(config, Ordered(inputs)) <= config.maxLogicalBytes
    requires eligible == Eligible(config, Ordered(inputs)) && excluded == Exclusions(config, Ordered(inputs))
    ensures r.Success? ==> Plannable(config, inputs, ends) && PlanHolds(config, inputs, ends, r.value)
    ensures r.Failure? ==> (forall other :: !Plannable(config, inputs, other)) && !r.error.InvalidMetadata?
  {
    var count;
    count, ends := RequiredPackCount(eligible, config.microPackTarget);
    NoMorePacksThanInputs(Sizes(eligible), config.microPackTarget, ends);
    NoOtherEnds(config, inputs, eligible, ends);
    if count > config.maxChunks {
      return Failure(ResourceLimit("chunk count")), ends;
    }
    var packs := FillPacks(config, eligible, config.microPackTarget, ends);
    if packs.Failure? {
      NotPackable(config, inputs, eligible, ends);
      return Failure(packs.error), ends;
    }
    var plan := PackPlan(packs.value, excluded);
    PlanPassesValidation(config, inputs, ends, plan);
    var checked := ValidatePlan(config, plan);
    if checked.Failure? {
      NotSized(config, inputs, eligible, ends);
      return Failure(checked.error), ends;
    }
    AllPossible(config, eligible, ends);
    return Success(plan), ends;
  }

  lemma {:induction false} NotPackable(config: ChunkingConfig, inputs: seq<MicroFileInput>, e: seq<MicroFileInput>,
                                       ends: seq<nat>)
    requires e == Eligible(config, Ordered(inputs)) && Greedy(Sizes(e), config.microPackTarget, |e|, ends)
    requires exists k :: 0 <= k < |ends| && !PartPackable(e, ends, k)
    ensures forall other :: !Plannable(config, inputs, other)
  {
    NoOtherEnds(config, inputs, e, ends);
    var k :| 0 <= k < |ends| && !PartPackable(e, ends, k);
    assert !PartPossible(config, e, ends, k);
  }

  lemma {:induction false} NotSized(config: ChunkingConfig, inputs: seq<MicroFileInput>, e: seq<MicroFileInput>,
                                    ends: seq<nat>)
    requires e == Eligible(config, Ordered(inputs)) && Greedy(Sizes(e), config.microPackTarget, |e|, ends)
    requires !AllPartsSized(config, e, ends)
    ensures forall other :: !Plannable(config, inputs, other)
  {
    NoOtherEnds(config, inputs, e, ends);
    var k :| 0 <= k < |ends| && !(PartAt(ends, |e|, k) && PartSized(config, e, ends, k));
    assert !PartPossible(config, e, ends, k);
  }

  lemma {:induction false} AllPossible(config: ChunkingConfig, e: seq<MicroFileInput>, ends: seq<nat>)
    requires (forall k | 0 <= k < |ends| :: PartPackable(e, ends, k)) && AllPartsSized(config, e, ends)
    ensures forall k | 0 <= k < |ends| :: PartPossible(config, e, ends, k)
  {
  }

  lemma {:induction false} NoOtherEnds(config: ChunkingConfig, inputs: seq<MicroFileInput>, e: seq<MicroFileInput>,
                                       ends: seq<nat>)
    requires e == Eligible(config, Ordered(inputs)) && Greedy(Sizes(e), config.microPackTarget, |e|, ends)
    ensures forall other | Plannable(config, inputs, other) :: other == ends
  {
    forall other | Plannable(config, inputs, other) ensures other == ends {
      GreedyIsUnique(Sizes(e), config.microPackTarget, |e|, other, ends);
    }
  }

  // ----- Order independence and optimality -----

  lemma {:induction false} TakeOut<T>(s: seq<T>, i: nat)
    requires i < |s|
    ensures multiset(s[..i] + s[i + 1..]) == multiset(s) - multiset{s[i]}
  {
    assert s == s[..i] + ([s[i]] + s[i + 1..]);
    assert multiset(s) == multiset(s[..i]) + (multiset{s[i]} + multiset(s[i + 1..]));
  }

  /** Taking the last element of one list out of a permutation of it. */
  lemma {:induction false} WithoutLast<T>(a: seq<T>, b: seq<T>) returns (i: nat)
    requires multiset(a) == multiset(b) && a != []
    ensures i < |b| && b[i] == a[|a| - 1] && multiset(a[..|a| - 1]) == multiset(b[..i] + b[i + 1..])
  {
    var n := |a| - 1;
    assert a[n] in multiset(a);
    TwoCopies(b, a[n]);
    i :| 0 <= i < |b| && b[i] == a[n];
    TakeOut(b, i);
    TakeOut(a, n);
    assert a[..n] + a[n + 1..] == a[..n];
  }

  lemma {:induction false} KeyTotalIsOrderFree(a: seq<MicroFileInput>, b: seq<MicroFileInput>)
    requires multiset(a) == multiset(b)
    ensures KeyTotal(a, |a|) == KeyTotal(b, |b|)
    decreases |a|
  {
    assert |multiset(a)| == |a| && |multiset(b)| == |b|;
    if a != [] {
      var n := |a| - 1;
      var i := WithoutLast(a, b);
      KeyTotalIsOrderFree(a[..n], b[..i] + b[i + 1..]);
      KeyTotalWithout(b, i);
      KeyTotalOfPrefix(a, n, n);
    }
  }

  lemma {:induction false} KeyTotalOfPrefix(s: seq<MicroFileInput>, m: nat, n: nat)
    requires n <= m <= |s|
    ensures KeyTotal(s[..m], n) == KeyTotal(s, n)
  {
    if n > 0 {
      KeyTotalOfPrefix(s, m, n - 1);
    }
  }

  function KeyLength(x: MicroFileInput): nat {
    |x.path| + |x.pathPrefixKey| + |x.extensionKey|
  }

  lemma {:induction false} KeyTotalWithout(b: seq<MicroFileInput>, i: nat)
    requires i < |b|
    ensures KeyTotal(b, |b|) == KeyTotal(b[..i] + b[i + 1..], |b| - 1) + KeyLength(b[i])
    decreases |b|
  {
    var n := |b| - 1;
    var rest := b[..i] + b[i + 1..];
    if i == n {
      assert rest == b[..n];
      KeyTotalOfPrefix(b, n, n);
    } else {
      var front := b[..n];
      KeyTotalWithout(front, i);
      assert front[..i] + front[i + 1..] == rest[..n - 1] && rest[n - 1] == b[n];
      KeyTotalOfPrefix(rest, n - 1, n - 1);
      KeyTotalOfPrefix(b, n, n);
    }
  }

  lemma {:induction false} InputsOkIsOrderFree(config: ChunkingConfig, a: seq<MicroFileInput>, b: seq<MicroFileInput>)
    requires multiset(a) == multiset(b) && InputsOk(config, a)
    ensures InputsOk(config, b)
  {
    assert |multiset(a)| == |a| && |multiset(b)| == |b|;
    KeyTotalIsOrderFree(a, b);
    UniqueIsOrderFree(a, b);
    forall i | 0 <= i < |b| ensures InputOk(config, b[i]) {
      assert b[i] in multiset(b) && b[i] in multiset(a) && b[i] in a;
      var j :| 0 <= j < |a| && a[j] == b[i];
      assert InputOk(config, a[j]);
    }
  }

  /** Whether planning succeeds, and with which plan, does not depend on the order of the inputs. */
  lemma {:induction false} PlanningIsOrderIndependent(config: ChunkingConfig, a: seq<MicroFileInput>,
                                                      b: seq<MicroFileInput>, ends: seq<nat>, plan: PackPlan)
    requires multiset(a) == multiset(b)
    ensures Plannable(config, a, ends) <==> Plannable(config, b, ends)
    ensures Plannable(config, a, ends) ==> (PlanHolds(config, a, ends, plan) <==> PlanHolds(config, b, ends, plan))
  {
    if InputsOk(config, a) {
      InputsOkIsOrderFree(config, a, b);
      OrderedIsCanonical(a, b);
    }
    if InputsOk(config, b) {
      InputsOkIsOrderFree(config, b, a);
      OrderedIsCanonical(b, a);
    }
  }

  /** No way to cut the eligible files, in this order, into packs within the target uses fewer packs. */
  lemma {:induction false} PlanUsesFewestPacks(config: ChunkingConfig, inputs: seq<MicroFileInput>, ends: seq<nat>,
                                               plan: PackPlan, other: seq<nat>)
    requires PlanHolds(config, inputs, ends, plan)
    requires var e := Eligible(config, Ordered(inputs)); Admissible(Sizes(e), config.microPackTarget, |e|, other)
    ensures |plan.packs| <= |other|
  {
    var e := Eligible(config, Ordered(inputs));
    GreedyIsOptimal(Sizes(e), config.microPackTarget, |e|, ends, other);
  }
}
