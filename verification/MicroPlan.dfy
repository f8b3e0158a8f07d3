/** Planning packs of small files: canonical order, exclusions, greedy filling, and what the plan guarantees. */
module MicroPlan {
  import opened Base
  import opened MergeSort
  import opened Orderings
  import opened GreedyPartition
  import opened ChunkingPolicy
  import opened MicroPack
  import opened MicroMetadata
  import opened MicroValidate

  // ----- The inputs a plan is made for -----

  predicate InputOk(config: ChunkingConfig, input: MicroFileInput) {
    input.path != [] && |input.path| <= config.maxPathBytes && |input.pathPrefixKey| <= config.maxPathBytes
    && |input.extensionKey| <= config.maxPathBytes
  }

  function KeyTotal(inputs: seq<MicroFileInput>, n: nat): nat
    requires n <= |inputs|
  {
    if n == 0 then 0
    else KeyTotal(inputs, n - 1) + |inputs[n - 1].path| + |inputs[n - 1].pathPrefixKey| + |inputs[n - 1].extensionKey|
  }

  ghost predicate UniqueInputs(inputs: seq<MicroFileInput>) {
    forall i, j | 0 <= i < j < |inputs| :: inputs[i].entryId != inputs[j].entryId && inputs[i].path != inputs[j].path
  }

  ghost predicate InputsOk(config: ChunkingConfig, inputs: seq<MicroFileInput>) {
    && |inputs| <= config.maxChunks
    && 76 * |inputs| + KeyTotal(inputs, |inputs|) <= config.maxMetadataBytes
    && (forall i | 0 <= i < |inputs| :: InputOk(config, inputs[i]))
    && UniqueInputs(inputs)
  }

  lemma {:induction false} KeyTotalGrows(inputs: seq<MicroFileInput>, m: nat, n: nat)
    requires m <= n <= |inputs|
    ensures KeyTotal(inputs, m) <= KeyTotal(inputs, n)
  {
    if m < n {
      KeyTotalGrows(inputs, m, n - 1);
    }
  }

  function InputIds(inputs: seq<MicroFileInput>): (s: seq<u64>)
    ensures |s| == |inputs| && forall i | 0 <= i < |s| :: s[i] == inputs[i].entryId
  {
    seq(|inputs|, i requires 0 <= i < |inputs| => inputs[i].entryId)
  }

  lemma {:induction false} UniqueByColumns(inputs: seq<MicroFileInput>, ids: seq<u64>, paths: seq<bytes>)
    requires ids == InputIds(inputs) && paths == Paths(inputs)
    ensures UniqueInputs(inputs) <==> NoDuplicates(ids) && NoDuplicates(paths)
  {
    if NoDuplicates(ids) && NoDuplicates(paths) {
      forall i, j | 0 <= i < j < |inputs|
        ensures inputs[i].entryId != inputs[j].entryId && inputs[i].path != inputs[j].path {
        assert ids[i] != ids[j] && paths[i] != paths[j];
      }
    }
    if UniqueInputs(inputs) {
      forall i, j | 0 <= i < j < |inputs| ensures ids[i] != ids[j] && paths[i] != paths[j] {
        assert inputs[i].entryId != inputs[j].entryId && inputs[i].path != inputs[j].path;
      }
    }
  }

  method ValidateUniqueInputs(config: ChunkingConfig, inputs: seq<MicroFileInput>) returns (r: Result<(), PithosError>)
    requires |inputs| <= config.maxChunks
    ensures r.Success? <==> InputsOk(config, inputs)
  {
    var base, total := 76 * |inputs|, 0;
    if base > config.maxMetadataBytes {
      return Failure(ResourceLimit("metadata bytes"));
    }
    for i := 0 to |inputs|
      invariant total == KeyTotal(inputs, i) && base + total <= config.maxMetadataBytes
      invariant forall k | 0 <= k < i :: InputOk(config, inputs[k])
    {
      if inputs[i].path == [] {
        return Failure(InvalidMetadata("empty microfile path"));
      }
      if !InputOk(config, inputs[i]) {
        return Failure(ResourceLimit("path bytes"));
      }
      total := total + |inputs[i].path| + |inputs[i].pathPrefixKey| + |inputs[i].extensionKey|;
      if base + total > config.maxMetadataBytes {
        KeyTotalGrows(inputs, i + 1, |inputs|);
        return Failure(ResourceLimit("metadata bytes"));
      }
    }
    UniqueByColumns(inputs, InputIds(inputs), Paths(inputs));
    var ids := AllDistinctIds(InputIds(inputs));
    if !ids {
      return Failure(InvalidMetadata("duplicate microfile entry id"));
    }
    var paths := AllDistinctPaths(Paths(inputs));
    if !paths {
      return Failure(InvalidMetadata("duplicate microfile path"));
    }
    return Success(());
  }

  // ----- Canonical order -----

  type InputOrder = (MicroFileInput, MicroFileInput) -> Ordering

  function ById(): InputOrder {
    By((x: MicroFileInput) => x.entryId as nat, CompareNat)
  }

  function FromPath(): InputOrder {
    ThenBy(By((x: MicroFileInput) => x.path, CompareBytes), ById())
  }

  function FromSimilarity(): InputOrder {
    ThenBy(By((x: MicroFileInput) => x.similarityKey as nat, CompareNat), FromPath())
  }

  function FromMode(): InputOrder {
    ThenBy(By((x: MicroFileInput) => x.mode as nat, CompareNat), FromSimilarity())
  }

  function FromExtension(): InputOrder {
    ThenBy(By((x: MicroFileInput) => x.extensionKey, CompareBytes), FromMode())
  }

  function FromPrefix(): InputOrder {
    ThenBy(By((x: MicroFileInput) => x.pathPrefixKey, CompareBytes), FromExtension())
  }

  /** Family, directory, extension, mode, similarity, path and at last the entry id. */
  function CanonicalCompare(): InputOrder {
    ThenBy(By((x: MicroFileInput) => x.familyKey as nat, CompareNat), FromPrefix())
  }

  lemma {:induction false} NumberFirst(key: MicroFileInput -> nat, rest: InputOrder)
    requires TotalPreorder(rest)
    ensures TotalPreorder(ThenBy(By(key, CompareNat), rest))
  {
    NatIsTotal();
    ByIsTotal(key, CompareNat);
    ThenByIsTotal(By(key, CompareNat), rest);
  }

  lemma {:induction false} BytesFirst(key: MicroFileInput -> bytes, rest: InputOrder)
    requires TotalPreorder(rest)
    ensures TotalPreorder(ThenBy(By(key, CompareBytes), rest))
  {
    BytesIsTotal();
    ByIsTotal<MicroFileInput, bytes>(key, CompareBytes);
    ThenByIsTotal(By(key, CompareBytes), rest);
  }

  lemma {:induction false} CanonicalIsTotal()
    ensures TotalPreorder(CanonicalCompare())
  {
    NatIsTotal();
    ByIsTotal((x: MicroFileInput) => x.entryId as nat, CompareNat);
    assert TotalPreorder(ById());
    BytesFirst((x: MicroFileInput) => x.path, ById());
    assert TotalPreorder(FromPath());
    NumberFirst((x: MicroFileInput) => x.similarityKey as nat, FromPath());
    assert TotalPreorder(FromSimilarity());
    NumberFirst((x: MicroFileInput) => x.mode as nat, FromSimilarity());
    assert TotalPreorder(FromMode());
    BytesFirst((x: MicroFileInput) => x.extensionKey, FromMode());
    assert TotalPreorder(FromExtension());
    BytesFirst((x: MicroFileInput) => x.pathPrefixKey, FromExtension());
    assert TotalPreorder(FromPrefix());
    NumberFirst((x: MicroFileInput) => x.familyKey as nat, FromPrefix());
  }

  /** The id is part of the key, so inputs with different ids are never equivalent. */
  lemma {:induction false} CanonicalSeparates(x: MicroFileInput, y: MicroFileInput)
    requires Equiv(CanonicalCompare(), x, y)
    ensures x.entryId == y.entryId
  {
    assert FromPrefix()(x, y) == Equal;
    assert FromExtension()(x, y) == Equal;
    assert FromMode()(x, y) == Equal;
    assert FromSimilarity()(x, y) == Equal;
    assert FromPath()(x, y) == Equal;
    var key := (z: MicroFileInput) => z.entryId as nat;
    assert By(key, CompareNat)(x, y) == CompareNat(key(x), key(y));
    assert ById() == By(key, CompareNat);
  }

  function Ordered(inputs: seq<MicroFileInput>): seq<MicroFileInput> {
    Sort(CanonicalCompare(), inputs)
  }

  lemma {:induction false} UniqueIsOrderFree(s: seq<MicroFileInput>, t: seq<MicroFileInput>)
    requires multiset(s) == multiset(t) && UniqueInputs(s)
    ensures UniqueInputs(t)
  {
    forall i, j | 0 <= i < j < |t| ensures t[i].entryId != t[j].entryId && t[i].path != t[j].path {
      var x, y := t[i], t[j];
      assert x in multiset(t) && y in multiset(t);
      TwoCopies(s, x);
      TwoCopies(t, x);
      assert x in s && y in s;
    }
  }

  lemma {:induction false} OrderedIsPermutation(inputs: seq<MicroFileInput>)
    ensures multiset(Ordered(inputs)) == multiset(inputs) && forall x :: x in Ordered(inputs) <==> x in inputs
  {
    CanonicalIsTotal();
    SortIsStableSort(CanonicalCompare(), inputs);
    forall x ensures x in Ordered(inputs) <==> x in inputs {
      assert x in Ordered(inputs) <==> x in multiset(Ordered(inputs));
    }
  }

  /** Canonical order does not depend on the order the inputs came in. */
  lemma {:induction false} OrderedIsCanonical(a: seq<MicroFileInput>, b: seq<MicroFileInput>)
    requires multiset(a) == multiset(b) && UniqueInputs(a)
    ensures Ordered(a) == Ordered(b)
  {
    CanonicalIsTotal();
    forall x, y | x in a && y in a && Equiv(CanonicalCompare(), x, y) ensures x == y {
      CanonicalSeparates(x, y);
      var i :| 0 <= i < |a| && a[i] == x;
      var j :| 0 <= j < |a| && a[j] == y;
    }
    SortIsOrderIndependent(CanonicalCompare(), a, b);
  }

  // ----- Exclusions -----

  function Exclude(config: ChunkingConfig, input: MicroFileInput): Option<ExclusionReason> {
    if input.requiresIsolatedAccess then Some(RequiresIsolatedAccess)
    else if input.size > config.microFileMax then Some(TooLarge)
    else None
  }

  function Eligible(config: ChunkingConfig, s: seq<MicroFileInput>): (e: seq<MicroFileInput>)
    ensures |e| <= |s| && forall x | x in e :: x in s && Exclude(config, x).None?
  {
    if s == [] then []
    else Eligible(config, s[..|s| - 1]) + if Exclude(config, s[|s| - 1]).None? then [s[|s| - 1]] else []
  }

  function Exclusions(config: ChunkingConfig, s: seq<MicroFileInput>): seq<Exclusion> {
    if s == [] then []
    else Exclusions(config, s[..|s| - 1])
         + match Exclude(config, s[|s| - 1]) {
             case None => []
             case Some(reason) => [Exclusion(s[|s| - 1].entryId, reason)]
           }
  }

  /** Every input is eligible or excluded, and no id appears twice. */
  lemma {:induction false} EveryInputOnce(config: ChunkingConfig, s: seq<MicroFileInput>)
    ensures multiset(InputIds(Eligible(config, s))) + multiset(ExcludedIds(Exclusions(config, s)))
            == multiset(InputIds(s))
  {
    if s != [] {
      var n := |s| - 1;
      var front, last := s[..n], s[n];
      EveryInputOnce(config, front);
      assert InputIds(s) == InputIds(front) + [last.entryId];
      if Exclude(config, last).None? {
        assert InputIds(Eligible(config, s)) == InputIds(Eligible(config, front)) + [last.entryId];
        assert Exclusions(config, s) == Exclusions(config, front);
      } else {
        assert Eligible(config, s) == Eligible(config, front);
        assert ExcludedIds(Exclusions(config, s)) == ExcludedIds(Exclusions(config, front)) + [last.entryId];
      }
    }
  }

  lemma {:induction false} EligibleIsUnique(config: ChunkingConfig, s: seq<MicroFileInput>)
    requires UniqueInputs(s)
    ensures UniqueInputs(Eligible(config, s))
  {
    if s != [] {
      var n := |s| - 1;
      EligibleIsUnique(config, s[..n]);
      forall x | x in Eligible(config, s[..n]) ensures x.entryId != s[n].entryId && x.path != s[n].path {
        var i :| 0 <= i < n && s[..n][i] == x;
        assert s[i] == x;
      }
    }
  }

  /** Splits the ordered inputs and adds up the eligible ones. */
  method SelectEligible(config: ChunkingConfig, ordered: seq<MicroFileInput>)
    returns (r: Result<(seq<MicroFileInput>, seq<Exclusion>), PithosError>)
    ensures r.Success? <==> EligibleTotal(config, ordered) <= config.maxLogicalBytes
    ensures r.Success? ==> r.value == (Eligible(config, ordered), Exclusions(config, ordered))
    ensures r.Failure? ==> !r.error.InvalidMetadata?
  {
    var eligible, excluded, total := [], [], 0;
    for i := 0 to |ordered|
      invariant eligible == Eligible(config, ordered[..i]) && excluded == Exclusions(config, ordered[..i])
      invariant total == EligibleTotal(config, ordered[..i]) <= config.maxLogicalBytes
    {
      SelectOne(config, ordered, i);
      match Exclude(config, ordered[i]) {
        case Some(reason) =>
          excluded := excluded + [Exclusion(ordered[i].entryId, reason)];
        case None =>
          total := total + ordered[i].size;
          eligible := eligible + [ordered[i]];
          if total > config.maxLogicalBytes {
            EligibleTotalGrows(config, ordered, i + 1, |ordered|);
            assert ordered[..|ordered|] == ordered;
            return Failure(if total > U64_MAX then IntegerOverflow else ResourceLimit("logical bytes"));
          }
      }
    }
    assert ordered[..|ordered|] == ordered;
    return Success((eligible, excluded));
  }

  /** What item `i` adds to the selection of the items before it. */
  lemma {:induction false} SelectOne(config: ChunkingConfig, s: seq<MicroFileInput>, i: nat)
    requires i < |s|
    ensures Exclude(config, s[i]).None? ==>
              && Eligible(config, s[..i + 1]) == Eligible(config, s[..i]) + [s[i]]
              && Exclusions(config, s[..i + 1]) == Exclusions(config, s[..i])
              && EligibleTotal(config, s[..i + 1]) == EligibleTotal(config, s[..i]) + s[i].size
    ensures Exclude(config, s[i]).Some? ==>
              && Eligible(config, s[..i + 1]) == Eligible(config, s[..i])
              && Exclusions(config, s[..i + 1])
                   == Exclusions(config, s[..i]) + [Exclusion(s[i].entryId, Exclude(config, s[i]).value)]
  {
    assert s[..i + 1][..i] == s[..i];
    OneMore(Eligible(config, s[..i]), s[i]);
  }

  function EligibleTotal(config: ChunkingConfig, s: seq<MicroFileInput>): nat {
    SumRange(Sizes(Eligible(config, s)), 0, |Eligible(config, s)|)
  }

  lemma {:induction false} SumOfPrefix(s: seq<nat>, t: seq<nat>, i: nat, n: nat)
    requires n <= |s| && n <= |t| && s[..n] == t[..n]
    ensures SumRange(s, i, n) == SumRange(t, i, n)
  {
    if n > i {
      assert s[n - 1] == s[..n][n - 1] == t[n - 1];
      assert s[..n - 1] == s[..n][..n - 1] == t[..n - 1];
      SumOfPrefix(s, t, i, n - 1);
    }
  }

  lemma {:induction false} OneMore(s: seq<MicroFileInput>, x: MicroFileInput)
    ensures SumRange(Sizes(s + [x]), 0, |s| + 1) == SumRange(Sizes(s), 0, |s|) + x.size
  {
    assert Sizes(s + [x])[..|s|] == Sizes(s) == Sizes(s)[..|s|];
    SumOfPrefix(Sizes(s + [x]), Sizes(s), 0, |s|);
  }

  lemma {:induction false} EligibleTotalGrows(config: ChunkingConfig, s: seq<MicroFileInput>, m: nat, n: nat)
    requires m <= n <= |s|
    ensures EligibleTotal(config, s[..m]) <= EligibleTotal(config, s[..n])
  {
    if m < n {
      EligibleTotalGrows(config, s, m, n - 1);
      SelectOne(config, s, n - 1);
    }
  }

  // ----- Greedy filling -----

  lemma {:induction false} OneSum(s: seq<nat>, i: nat)
    requires i < |s|
    ensures SumRange(s, i, i + 1) == s[i]
  {
    assert SumRange(s, i, i) == 0;
  }

  /** How many packs greedy filling needs, the fewest within the target; the ghost result says where each ends. */
  method RequiredPackCount(inputs: seq<MicroFileInput>, target: nat) returns (count: nat, ghost ends: seq<nat>)
    ensures Greedy(Sizes(inputs), target, |inputs|, ends) && count == |ends|
    ensures forall other | Admissible(Sizes(inputs), target, |inputs|, other) :: count <= |other|
  {
    count, ends := 0, [];
    var currentLen, hasMembers := 0, false;
    ghost var sizes := Sizes(inputs);
    for i := 0 to |inputs|
      invariant hasMembers <==> i > 0
      invariant i == 0 ==> ends == [] && count == 0 && currentLen == 0
      invariant i > 0 ==> Greedy(sizes, target, i, ends) && |ends| == count + 1
      invariant i > 0 ==> ends[count] == i && currentLen == SumRange(sizes, Start(ends, count), i)
    {
      var nextLen := currentLen + inputs[i].size;
      if hasMembers && nextLen > target {
        ghost var ends' := ends + [i + 1];
        GreedyOpens(sizes, target, i, ends, ends');
        ends := ends';
        count := count + 1;
        currentLen := inputs[i].size;
        OneSum(sizes, i);
      } else if hasMembers {
        assert GreedyAt(sizes, target, i, ends, count);
        ghost var ends' := ends[count := i + 1];
        GreedyJoins(sizes, target, i, ends, ends');
        ends := ends';
        currentLen := nextLen;
      } else {
        GreedyFirst(sizes, target);
        ends := [1];
        currentLen := nextLen;
      }
      hasMembers := true;
    }
    if hasMembers {
      count := count + 1;
    }
    forall other | Admissible(sizes, target, |inputs|, other) ensures count <= |other| {
      GreedyIsOptimal(sizes, target, |inputs|, ends, other);
    }
  }

  function PartInputs(e: seq<MicroFileInput>, ends: seq<nat>, k: nat): seq<MicroFileInput>
    requires k < |ends| && PartAt(ends, |e|, k)
  {
    e[Start(ends, k)..ends[k]]
  }

  ghost predicate PartPacked(e: seq<MicroFileInput>, ends: seq<nat>, k: nat, pack: MicroFilePack)
    requires k < |ends|
  {
    PartAt(ends, |e|, k) && PackHolds(PartInputs(e, ends, k), k, pack)
  }

  ghost predicate PartPackable(e: seq<MicroFileInput>, ends: seq<nat>, k: nat)
    requires k < |ends|
  {
    PartAt(ends, |e|, k) && Packable(PartInputs(e, ends, k))
  }

  /** Closing a part exactly where the greedy partition ends it. */
  lemma {:induction false} ClosesAtEnd(sizes: seq<nat>, target: nat, ends: seq<nat>, c: nat, i: nat)
    requires Greedy(sizes, target, |sizes|, ends) && c < |ends| && Start(ends, c) <= i < |sizes| && i <= ends[c]
    ensures PartAt(ends, |sizes|, c)
    ensures i == ends[c] <==> i > Start(ends, c) && SumRange(sizes, Start(ends, c), i + 1) > target
    ensures i == ends[c] ==> c + 1 < |ends| && PartAt(ends, |sizes|, c + 1)
  {
    assert GreedyAt(sizes, target, |sizes|, ends, c);
    assert Start(ends, |ends|) == |sizes|;
    assert c + 1 < |ends| ==> GreedyAt(sizes, target, |sizes|, ends, c + 1);
    if i < ends[c] {
      SumWithin(sizes, Start(ends, c), Start(ends, c), i + 1, ends[c]);
    }
  }

  /** Only the last part ends with the last item. */
  lemma {:induction false} LastPart(sizes: seq<nat>, target: nat, ends: seq<nat>, c: nat)
    requires Greedy(sizes, target, |sizes|, ends) && c < |ends| && ends[c] >= |sizes|
    ensures c == |ends| - 1 && ends[c] == |sizes| && PartAt(ends, |sizes|, c)
  {
    assert GreedyAt(sizes, target, |sizes|, ends, c);
  }

  lemma {:induction false} PartTotal(e: seq<MicroFileInput>, i: nat, j: nat)
    requires i <= j <= |e|
    ensures SumRange(Sizes(e[i..j]), 0, j - i) == SumRange(Sizes(e), i, j)
    decreases j
  {
    if i < j {
      PartTotal(e, i, j - 1);
      var part := e[i..j];
      assert part[..j - 1 - i] == e[i..j - 1];
      assert Sizes(part)[..j - 1 - i] == Sizes(e[i..j - 1]) == Sizes(e[i..j - 1])[..j - 1 - i];
      SumOfPrefix(Sizes(part), Sizes(e[i..j - 1]), 0, j - 1 - i);
    }
  }

  method PushPack(config: ChunkingConfig, e: seq<MicroFileInput>, ghost ends: seq<nat>, packs: seq<MicroFilePack>,
                  start: nat, end: nat, packLen: nat)
    returns (r: Result<seq<MicroFilePack>, PithosError>)
    requires |ends| <= config.maxChunks && |packs| < |ends| && PartAt(ends, |e|, |packs|)
    requires start == Start(ends, |packs|) && end == ends[|packs|] && packLen == SumRange(Sizes(e), start, end)
    requires forall k | 0 <= k < |packs| :: PartPacked(e, ends, k, packs[k])
    ensures r.Success? <==> PartPackable(e, ends, |packs|)
    ensures r.Success? ==>
              |r.value| == |packs| + 1 && forall k | 0 <= k < |r.value| :: PartPacked(e, ends, k, r.value[k])
    ensures r.Failure? ==> !r.error.InvalidMetadata?
  {
    if |packs| + 1 > config.maxChunks {
      assert false;
    }
    var pack := BuildPack(|packs|, e[start..end]);
    if pack.Failure? {
      return Failure(pack.error);
    }
    PartTotal(e, start, end);
    if pack.value.uncompressedLen != packLen {
      assert false;
    }
    return Success(packs + [pack.value]);
  }

  /** The running variables of the filling loop. */
  datatype Filling = Filling(packs: seq<MicroFilePack>, packStart: nat, packLen: nat)

  ghost predicate FillingOk(e: seq<MicroFileInput>, ends: seq<nat>, index: nat, now: Filling)
    requires index <= |e|
  {
    && |now.packs| < |ends|
    && now.packStart == Start(ends, |now.packs|) <= index <= ends[|now.packs|]
    && now.packLen == SumRange(Sizes(e), now.packStart, index)
    && forall k | 0 <= k < |now.packs| :: PartPackable(e, ends, k) && PartPacked(e, ends, k, now.packs[k])
  }

  method FillOne(config: ChunkingConfig, e: seq<MicroFileInput>, target: nat, ghost ends: seq<nat>, index: nat,
                 now: Filling)
    returns (r: Result<Filling, PithosError>)
    requires |ends| <= config.maxChunks && Greedy(Sizes(e), target, |e|, ends)
    requires index < |e| && FillingOk(e, ends, index, now)
    ensures r.Success? ==> FillingOk(e, ends, index + 1, r.value)
    ensures r.Failure? ==> !r.error.InvalidMetadata? && exists k :: 0 <= k < |ends| && !PartPackable(e, ends, k)
  {
    ClosesAtEnd(Sizes(e), target, ends, |now.packs|, index);
    var nextLen := now.packLen + e[index].size;
    if index > now.packStart && nextLen > target {
      var next := PushPack(config, e, ends, now.packs, now.packStart, index, now.packLen);
      if next.Failure? {
        return Failure(next.error);
      }
      OneSum(Sizes(e), index);
      return Success(Filling(next.value, index, e[index].size));
    }
    return Success(now.(packLen := nextLen));
  }

  /** Builds one pack per part of the greedy partition. */
  method FillPacks(config: ChunkingConfig, e: seq<MicroFileInput>, target: nat, ghost ends: seq<nat>)
    returns (r: Result<seq<MicroFilePack>, PithosError>)
    requires |ends| <= config.maxChunks && Greedy(Sizes(e), target, |e|, ends)
    ensures r.Success? <==> forall k | 0 <= k < |ends| :: PartPackable(e, ends, k)
    ensures r.Success? ==> |r.value| == |ends| && forall k | 0 <= k < |ends| :: PartPacked(e, ends, k, r.value[k])
    ensures r.Failure? ==> !r.error.InvalidMetadata?
  {
    if |e| == 0 {
      GreedyIsUnique(Sizes(e), target, 0, ends, []);
      return Success([]);
    }
    assert ends != [] && GreedyAt(Sizes(e), target, |e|, ends, 0);
    var now := Filling([], 0, 0);
    for index := 0 to |e|
      invariant FillingOk(e, ends, index, now)
    {
      var next := FillOne(config, e, target, ends, index, now);
      if next.Failure? {
        return Failure(next.error);
      }
      now := next.value;
    }
    LastPart(Sizes(e), target, ends, |now.packs|);
    r := PushPack(config, e, ends, now.packs, now.packStart, |e|, now.packLen);
  }

  // ----- The plan -----

  /**
   The plan of some inputs: the greedy parts of the eligible ones in canonical order, each packed, and the exclusions.
   */
  ghost predicate PlanHolds(config: ChunkingConfig, inputs: seq<MicroFileInput>, ends: seq<nat>, plan: PackPlan) {
    var e := Eligible(config, Ordered(inputs));
    && Greedy(Sizes(e), config.microPackTarget, |e|, ends)
    && |plan.packs| == |ends| && (forall k | 0 <= k < |ends| :: PartPacked(e, ends, k, plan.packs[k]))
    && plan.excluded == Exclusions(config, Ordered(inputs))
  }

  predicate PartSized(config: ChunkingConfig, e: seq<MicroFileInput>, ends: seq<nat>, k: nat)
    requires k < |ends| && PartAt(ends, |e|, k)
  {
    PackSize(PartInputs(e, ends, k)) <= config.maxMetadataBytes
  }

  ghost predicate PartPossible(config: ChunkingConfig, e: seq<MicroFileInput>, ends: seq<nat>, k: nat)
    requires k < |ends|
  {
    PartPackable(e, ends, k) && PartSized(config, e, ends, k)
  }

  /**
   Planning can succeed: acceptable inputs, not too many bytes, and every greedy part can be packed within the metadata
   limit.
   */
  ghost predicate Plannable(config: ChunkingConfig, inputs: seq<MicroFileInput>, ends: seq<nat>) {
    var e := Eligible(config, Ordered(inputs));
    && ConfigOk(config) && InputsOk(config, inputs)
    && EligibleTotal(config, Ordered(inputs)) <= config.maxLogicalBytes
    && Greedy(Sizes(e), config.microPackTarget, |e|, ends)
    && forall k | 0 <= k < |ends| :: PartPossible(config, e, ends, k)
  }

  lemma {:induction false} PlanIsUnique(config: ChunkingConfig, inputs: seq<MicroFileInput>, a: seq<nat>, b: seq<nat>,
                                        plan: PackPlan, other: PackPlan)
    requires PlanHolds(config, inputs, a, plan) && PlanHolds(config, inputs, b, other)
    ensures a == b && plan == other
  {
    var e := Eligible(config, Ordered(inputs));
    GreedyIsUnique(Sizes(e), config.microPackTarget, |e|, a, b);
    forall k | 0 <= k < |a| ensures plan.packs[k] == other.packs[k] {
      assert PartPacked(e, a, k, plan.packs[k]) && PartPacked(e, b, k, other.packs[k]);
      PackIsUnique(PartInputs(e, a, k), k, plan.packs[k], other.packs[k]);
    }
    assert plan.packs == other.packs;
  }

  ghost predicate AllUsable(config: ChunkingConfig, e: seq<MicroFileInput>) {
    forall i | 0 <= i < |e| :: InputUsable(config, e[i])
  }

  lemma {:induction false} SliceIsUsable(config: ChunkingConfig, e: seq<MicroFileInput>, i: nat, j: nat)
    requires i <= j <= |e| && UniqueInputs(e) && AllUsable(config, e)
    ensures UniqueInputs(e[i..j]) && AllUsable(config, e[i..j])
  {
    var part := e[i..j];
    forall n | 0 <= n < |part| ensures InputUsable(config, part[n]) {
      assert part[n] == e[i + n] && InputUsable(config, e[i + n]);
    }
  }

  /** The bytes of a greedy part: a single small file, or within the target. */
  lemma {:induction false} PartIsWithinTarget(config: ChunkingConfig, e: seq<MicroFileInput>, ends: seq<nat>, k: nat)
    requires ConfigOk(config) && AllUsable(config, e) && Greedy(Sizes(e), config.microPackTarget, |e|, ends)
    requires k < |ends|
    ensures PartAt(ends, |e|, k)
    ensures SumRange(Sizes(PartInputs(e, ends, k)), 0, |PartInputs(e, ends, k)|) <= config.microPackTarget
    ensures SumRange(Sizes(PartInputs(e, ends, k)), 0, |PartInputs(e, ends, k)|) <= SumRange(Sizes(e), 0, |e|)
  {
    assert GreedyAt(Sizes(e), config.microPackTarget, |e|, ends, k);
    var i, j := Start(ends, k), ends[k];
    PartTotal(e, i, j);
    SumWithin(Sizes(e), 0, i, j, |e|);
    if j == i + 1 {
      OneSum(Sizes(e), i);
      assert InputUsable(config, e[i]);
    }
  }

  /** The inputs of a greedy part satisfy what a pack asks of its inputs. */
  lemma {:induction false} PartIsPackInputs(config: ChunkingConfig, e: seq<MicroFileInput>, ends: seq<nat>, k: nat)
    requires ConfigOk(config) && UniqueInputs(e) && AllUsable(config, e) && |e| <= config.maxChunks
    requires SumRange(Sizes(e), 0, |e|) <= config.maxLogicalBytes
    requires Greedy(Sizes(e), config.microPackTarget, |e|, ends) && k < |ends|
    ensures PartAt(ends, |e|, k) && PackInputs(config, PartInputs(e, ends, k))
  {
    PartIsWithinTarget(config, e, ends, k);
    SliceIsUsable(config, e, Start(ends, k), ends[k]);
  }

  lemma {:induction false} EligibleInputs(config: ChunkingConfig, inputs: seq<MicroFileInput>, e: seq<MicroFileInput>)
    requires InputsOk(config, inputs) && e == Eligible(config, Ordered(inputs))
    ensures UniqueInputs(e) && |e| <= |inputs| == |Ordered(inputs)| && AllUsable(config, e)
    ensures UniqueInputs(Ordered(inputs))
  {
    OrderedIsPermutation(inputs);
    assert |multiset(Ordered(inputs))| == |Ordered(inputs)| && |multiset(inputs)| == |inputs|;
    UniqueIsOrderFree(inputs, Ordered(inputs));
    EligibleIsUnique(config, Ordered(inputs));
    forall i | 0 <= i < |e| ensures InputUsable(config, e[i]) {
      assert e[i] in e && e[i] in inputs;
      var j :| 0 <= j < |inputs| && inputs[j] == e[i];
      assert InputOk(config, inputs[j]);
    }
  }
}
