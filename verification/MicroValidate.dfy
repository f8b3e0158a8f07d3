/** Validation of packs and plans, and that built packs always have the required shape. */
module MicroValidate {
  import opened Base
  import opened GreedyPartition
  import opened ChunkingPolicy
  import opened MicroPack
  import opened MicroMetadata

  // ----- One pack -----

  function MembersLength(members: seq<PackMember>, n: nat): nat
    requires n <= |members|
  {
    if n == 0 then 0 else MembersLength(members, n - 1) + members[n - 1].length
  }

  predicate MemberShape(config: ChunkingConfig, pack: MicroFilePack, i: nat)
    requires i < |pack.members| == |pack.metadata.records|
  {
    var m, r := pack.members[i], pack.metadata.records[i];
    && m.entryId == r.entryId && m.contentOffset == r.contentOffset && m.length == r.length
    && m.contentOffset == MembersLength(pack.members, i)
    && m.length <= config.microFileMax
  }

  ghost predicate PackShape(config: ChunkingConfig, pack: MicroFilePack) {
    && pack.members != [] && |pack.members| == |pack.metadata.records|
    && pack.uncompressedLen <= config.microPackTarget && pack.uncompressedLen <= config.maxLogicalBytes
    && MetadataShape(pack.metadata)
    && (forall i | 0 <= i < |pack.members| :: MemberShape(config, pack, i))
    && MembersLength(pack.members, |pack.members|) == pack.uncompressedLen
  }

  ghost predicate PackFits(config: ChunkingConfig, pack: MicroFilePack) {
    |pack.members| <= config.maxChunks && MetadataFits(config, pack.metadata)
  }

  lemma {:induction false} MembersGrow(members: seq<PackMember>, i: nat, n: nat)
    requires i <= n <= |members|
    ensures MembersLength(members, i) <= MembersLength(members, n)
  {
    if i < n {
      MembersGrow(members, i, n - 1);
    }
  }

  method CheckMembers(config: ChunkingConfig, pack: MicroFilePack) returns (r: Result<nat, PithosError>)
    requires |pack.members| == |pack.metadata.records|
    ensures r.Success? ==> (forall i | 0 <= i < |pack.members| :: MemberShape(config, pack, i))
                           && r.value == MembersLength(pack.members, |pack.members|)
    ensures r.Failure? && r.error.InvalidMetadata? ==>
              exists i :: 0 <= i < |pack.members| && !MemberShape(config, pack, i)
    ensures r.Failure? && !r.error.InvalidMetadata? ==> MembersLength(pack.members, |pack.members|) > U64_MAX
  {
    var expectedOffset := 0;
    for i := 0 to |pack.members|
      invariant expectedOffset == MembersLength(pack.members, i)
      invariant forall k | 0 <= k < i :: MemberShape(config, pack, k)
    {
      if !MemberShape(config, pack, i) {
        return Failure(InvalidMetadata("microfile member mapping"));
      }
      if expectedOffset + pack.members[i].length > U64_MAX {
        MembersGrow(pack.members, i + 1, |pack.members|);
        return Failure(IntegerOverflow);
      }
      expectedOffset := expectedOffset + pack.members[i].length;
    }
    return Success(expectedOffset);
  }

  method ValidatePack(config: ChunkingConfig, pack: MicroFilePack) returns (r: Result<(), PithosError>)
    ensures r.Success? <==> ConfigOk(config) && PackShape(config, pack) && PackFits(config, pack)
    ensures r.Failure? && r.error.InvalidMetadata? ==> !ConfigOk(config) || !PackShape(config, pack)
  {
    if !ConfigOk(config) {
      return Failure(InvalidMetadata("chunking configuration"));
    }
    if |pack.members| > config.maxChunks {
      return Failure(ResourceLimit("chunk count"));
    }
    if pack.members == [] || |pack.members| != |pack.metadata.records|
       || pack.uncompressedLen > config.microPackTarget || pack.uncompressedLen > config.maxLogicalBytes
    {
      return Failure(InvalidMetadata("microfile pack layout"));
    }
    var paths := ExpandedPaths(config, pack.metadata);
    if paths.Failure? {
      return Failure(paths.error);
    }
    var length := CheckMembers(config, pack);
    if length.Failure? {
      return Failure(length.error);
    }
    if length.value != pack.uncompressedLen {
      return Failure(InvalidMetadata("microfile pack length"));
    }
    return Success(());
  }

  // ----- A plan -----

  datatype ExclusionReason = TooLarge | RequiresIsolatedAccess

  datatype Exclusion = Exclusion(entryId: u64, reason: ExclusionReason)

  datatype PackPlan = PackPlan(packs: seq<MicroFilePack>, excluded: seq<Exclusion>)

  function MemberIds(members: seq<PackMember>): (s: seq<u64>)
    ensures |s| == |members| && forall i | 0 <= i < |s| :: s[i] == members[i].entryId
  {
    seq(|members|, i requires 0 <= i < |members| => members[i].entryId)
  }

  function ExcludedIds(excluded: seq<Exclusion>): (s: seq<u64>)
    ensures |s| == |excluded| && forall i | 0 <= i < |s| :: s[i] == excluded[i].entryId
  {
    seq(|excluded|, i requires 0 <= i < |excluded| => excluded[i].entryId)
  }

  /** The member ids of the first `n` packs. */
  function PackedIds(packs: seq<MicroFilePack>, n: nat): seq<u64>
    requires n <= |packs|
  {
    if n == 0 then [] else PackedIds(packs, n - 1) + MemberIds(packs[n - 1].members)
  }

  function PlanIds(plan: PackPlan): seq<u64> {
    PackedIds(plan.packs, |plan.packs|) + ExcludedIds(plan.excluded)
  }

  function ContentLength(packs: seq<MicroFilePack>, n: nat): nat
    requires n <= |packs|
  {
    if n == 0 then 0 else ContentLength(packs, n - 1) + packs[n - 1].uncompressedLen
  }

  ghost predicate PackShapeAt(config: ChunkingConfig, plan: PackPlan, k: nat)
    requires k < |plan.packs|
  {
    plan.packs[k].packId == k && PackShape(config, plan.packs[k])
  }

  ghost predicate PlanShape(config: ChunkingConfig, plan: PackPlan) {
    && (forall k | 0 <= k < |plan.packs| :: PackShapeAt(config, plan, k))
    && NoDuplicates(PlanIds(plan))
  }

  ghost predicate PlanFits(config: ChunkingConfig, plan: PackPlan) {
    && |plan.packs| <= config.maxChunks
    && |PlanIds(plan)| <= config.maxChunks
    && ContentLength(plan.packs, |plan.packs|) <= config.maxLogicalBytes
    && forall k | 0 <= k < |plan.packs| :: PackFits(config, plan.packs[k])
  }

  lemma {:induction false} TotalsGrow(packs: seq<MicroFilePack>, m: nat, n: nat)
    requires m <= n <= |packs|
    ensures |PackedIds(packs, m)| <= |PackedIds(packs, n)| && ContentLength(packs, m) <= ContentLength(packs, n)
  {
    if m < n {
      TotalsGrow(packs, m, n - 1);
    }
  }

  method CheckTotals(config: ChunkingConfig, plan: PackPlan) returns (r: Result<(), PithosError>)
    ensures r.Success?
            <==> |PlanIds(plan)| <= config.maxChunks
                 && ContentLength(plan.packs, |plan.packs|) <= config.maxLogicalBytes
    ensures r.Failure? ==> !r.error.InvalidMetadata?
  {
    var members, content := 0, 0;
    for k := 0 to |plan.packs|
      invariant members == |PackedIds(plan.packs, k)| <= config.maxChunks
      invariant content == ContentLength(plan.packs, k) <= config.maxLogicalBytes
    {
      TotalsGrow(plan.packs, k + 1, |plan.packs|);
      members := members + |plan.packs[k].members|;
      if members > config.maxChunks {
        return Failure(ResourceLimit("chunk count"));
      }
      content := content + plan.packs[k].uncompressedLen;
      if content > config.maxLogicalBytes {
        return Failure(if content > U64_MAX then IntegerOverflow else ResourceLimit("logical bytes"));
      }
    }
    if members + |plan.excluded| > config.maxChunks {
      return Failure(ResourceLimit("chunk count"));
    }
    return Success(());
  }

  method CheckPacks(config: ChunkingConfig, plan: PackPlan) returns (r: Result<seq<u64>, PithosError>)
    requires ConfigOk(config)
    ensures r.Success? ==> r.value == PlanIds(plan)
    ensures r.Success?
            <==> forall k | 0 <= k < |plan.packs| :: PackShapeAt(config, plan, k) && PackFits(config, plan.packs[k])
    ensures r.Failure? && r.error.InvalidMetadata? ==>
              exists k :: 0 <= k < |plan.packs| && !PackShapeAt(config, plan, k)
  {
    var ids := [];
    for k := 0 to |plan.packs|
      invariant ids == PackedIds(plan.packs, k)
      invariant forall i | 0 <= i < k :: PackShapeAt(config, plan, i) && PackFits(config, plan.packs[i])
    {
      if plan.packs[k].packId != k {
        assert !PackShapeAt(config, plan, k);
        return Failure(InvalidMetadata("microfile pack ID"));
      }
      var pack := ValidatePack(config, plan.packs[k]);
      if pack.Failure? {
        assert !PackShapeAt(config, plan, k) || !PackFits(config, plan.packs[k]);
        return Failure(pack.error);
      }
      ids := ids + MemberIds(plan.packs[k].members);
    }
    return Success(ids + ExcludedIds(plan.excluded));
  }

  method AllDistinctIds(ids: seq<u64>) returns (distinct: bool)
    ensures distinct <==> NoDuplicates(ids)
  {
    U64IsTotal();
    distinct := AllDistinct(ids, CompareU64);
  }

  method ValidatePlan(config: ChunkingConfig, plan: PackPlan) returns (r: Result<(), PithosError>)
    ensures r.Success? <==> ConfigOk(config) && PlanShape(config, plan) && PlanFits(config, plan)
    ensures r.Failure? && r.error.InvalidMetadata? ==> !ConfigOk(config) || !PlanShape(config, plan)
  {
    if !ConfigOk(config) {
      return Failure(InvalidMetadata("chunking configuration"));
    }
    if |plan.packs| > config.maxChunks {
      return Failure(ResourceLimit("chunk count"));
    }
    r := CheckTotals(config, plan);
    if r.Failure? {
      return;
    }
    var ids := CheckPacks(config, plan);
    if ids.Failure? {
      return Failure(ids.error);
    }
    var distinct := AllDistinctIds(ids.value);
    if !distinct {
      return Failure(InvalidMetadata("duplicate microfile entry id"));
    }
    return Success(());
  }

  // ----- Built packs are acceptable -----

  predicate InputUsable(config: ChunkingConfig, input: MicroFileInput) {
    input.path != [] && |input.path| <= config.maxPathBytes && input.size <= config.microFileMax
  }

  /** The inputs of one pack as the planner chooses them. */
  ghost predicate PackInputs(config: ChunkingConfig, inputs: seq<MicroFileInput>) {
    && (forall i | 0 <= i < |inputs| :: InputUsable(config, inputs[i]))
    && (forall i, j | 0 <= i < j < |inputs| ::
        inputs[i].entryId != inputs[j].entryId && inputs[i].path != inputs[j].path)
    && SumRange(Sizes(inputs), 0, |inputs|) <= config.microPackTarget
    && SumRange(Sizes(inputs), 0, |inputs|) <= config.maxLogicalBytes
    && |inputs| <= config.maxChunks
  }

  /** Bytes of the paths of the first `n` inputs, and of what front coding leaves of them. */
  function PathTotal(inputs: seq<MicroFileInput>, n: nat): nat
    requires n <= |inputs|
  {
    if n == 0 then 0 else PathTotal(inputs, n - 1) + |inputs[n - 1].path|
  }

  function SuffixTotal(inputs: seq<MicroFileInput>, n: nat): nat
    requires n <= |inputs|
  {
    if n == 0 then 0
    else SuffixTotal(inputs, n - 1)
         + (|inputs[n - 1].path| - CommonPrefix(PathBefore(Paths(inputs), n - 1), inputs[n - 1].path))
  }

  /** The metadata size of the pack of some inputs. */
  function PackSize(inputs: seq<MicroFileInput>): nat {
    72 * |inputs| + 4 * |Dictionary(inputs)| + SuffixTotal(inputs, |inputs|) + PathTotal(inputs, |inputs|)
  }

  lemma {:induction false} BuiltSizes(inputs: seq<MicroFileInput>, packId: nat, pack: MicroFilePack, n: nat)
    requires PackHolds(inputs, packId, pack) && n <= |inputs|
    ensures SuffixLength(pack.metadata.paths, n) == SuffixTotal(inputs, n)
    ensures ExpandedLength(pack.metadata.paths, n) == PathTotal(inputs, n)
    ensures LengthsBefore(pack.metadata.records, n) == MembersLength(pack.members, n) == SumRange(Sizes(inputs), 0, n)
  {
    if n > 0 {
      BuiltSizes(inputs, packId, pack, n - 1);
      assert RowHolds(inputs, pack, n - 1);
      PackDecodes(inputs, packId, pack, n - 1);
    }
  }

  lemma {:induction false} BuiltRow(config: ChunkingConfig, inputs: seq<MicroFileInput>, packId: nat,
                                    pack: MicroFilePack, i: nat)
    requires PackHolds(inputs, packId, pack) && i < |inputs| && InputUsable(config, inputs[i])
    ensures PathShape(pack.metadata, i) && RecordShape(pack.metadata, i) && MemberShape(config, pack, i)
    ensures PathFits(config, pack.metadata, i) && TimeFits(pack.metadata, i)
    ensures pack.metadata.records[i].entryId == inputs[i].entryId
    ensures Decoded(pack.metadata.paths, i) == Some(inputs[i].path)
  {
    BuiltSizes(inputs, packId, pack, i);
    PackDecodes(inputs, packId, pack, i);
    assert RowHolds(inputs, pack, i);
  }

  lemma {:induction false} BuiltDistinct(config: ChunkingConfig, inputs: seq<MicroFileInput>, packId: nat,
                                         pack: MicroFilePack)
    requires PackHolds(inputs, packId, pack) && PackInputs(config, inputs)
    ensures DistinctIds(pack.metadata.records) && DistinctDecoded(pack.metadata.paths)
  {
    forall i, j | 0 <= i < j < |inputs|
      ensures pack.metadata.records[i].entryId != pack.metadata.records[j].entryId
      ensures Decoded(pack.metadata.paths, i) != Decoded(pack.metadata.paths, j)
    {
      assert InputUsable(config, inputs[i]) && InputUsable(config, inputs[j]);
      BuiltRow(config, inputs, packId, pack, i);
      BuiltRow(config, inputs, packId, pack, j);
    }
  }

  /** A pack built from planned inputs always has the required shape; it fits exactly when its size does. */
  lemma {:induction false} BuiltPackIsValid(config: ChunkingConfig, inputs: seq<MicroFileInput>, packId: nat,
                                            pack: MicroFilePack)
    requires PackHolds(inputs, packId, pack) && PackInputs(config, inputs)
    ensures PackShape(config, pack)
    ensures PackFits(config, pack) <==> PackSize(inputs) <= config.maxMetadataBytes
  {
    forall i | 0 <= i < |inputs|
      ensures PathShape(pack.metadata, i) && RecordShape(pack.metadata, i) && MemberShape(config, pack, i)
      ensures PathFits(config, pack.metadata, i) && TimeFits(pack.metadata, i)
    {
      assert InputUsable(config, inputs[i]);
      BuiltRow(config, inputs, packId, pack, i);
    }
    BuiltDistinct(config, inputs, packId, pack);
    DictionaryHolds(inputs);
    assert inputs[0].mode in Dictionary(inputs);
    BuiltSizes(inputs, packId, pack, |inputs|);
  }
}
