/** The logical chunks of packed small files, and that they always get chunk ids. */
module MicroChunks {
  import opened Base
  import opened ChunkingPolicy
  import opened Chunks
  import opened ChunkIds
  import opened MicroPack
  import opened MicroValidate

  function DraftOfMember(member: PackMember, objectId: nat): LogicalChunkDraft {
    LogicalChunkDraft(member.entryId, objectId, 0, member.length, MicroFile)
  }

  function DraftsOfMembers(members: seq<PackMember>, objectId: nat): (d: seq<LogicalChunkDraft>)
    ensures |d| == |members| && forall i | 0 <= i < |d| :: d[i] == DraftOfMember(members[i], objectId)
  {
    seq(|members|, i requires 0 <= i < |members| => DraftOfMember(members[i], objectId))
  }

  /** One chunk per member, pack by pack. */
  function PlanDrafts(packs: seq<MicroFilePack>, n: nat, objectId: nat): seq<LogicalChunkDraft>
    requires n <= |packs|
  {
    if n == 0 then [] else PlanDrafts(packs, n - 1, objectId) + DraftsOfMembers(packs[n - 1].members, objectId)
  }

  method MicroFileLogicalChunks(plan: PackPlan, objectId: nat, config: ChunkingConfig)
    returns (r: Result<seq<LogicalChunkDraft>, PithosError>)
    ensures r.Success? <==> ConfigOk(config) && PlanShape(config, plan) && PlanFits(config, plan)
    ensures r.Success? ==> r.value == PlanDrafts(plan.packs, |plan.packs|, objectId)
  {
    var valid := ValidatePlan(config, plan);
    if valid.Failure? {
      return Failure(valid.error);
    }
    var drafts: seq<LogicalChunkDraft> := [];
    for k := 0 to |plan.packs|
      invariant drafts == PlanDrafts(plan.packs, k, objectId)
    {
      drafts := AppendMembers(drafts, plan.packs[k].members, objectId);
    }
    return Success(drafts);
  }

  method AppendMembers(drafts: seq<LogicalChunkDraft>, members: seq<PackMember>, objectId: nat)
    returns (all: seq<LogicalChunkDraft>)
    ensures all == drafts + DraftsOfMembers(members, objectId)
  {
    all := drafts;
    for i := 0 to |members|
      invariant all == drafts + DraftsOfMembers(members[..i], objectId)
    {
      assert members[..i + 1] == members[..i] + [members[i]];
      assert DraftsOfMembers(members[..i + 1], objectId)
             == DraftsOfMembers(members[..i], objectId) + [DraftOfMember(members[i], objectId)];
      all := all + [DraftOfMember(members[i], objectId)];
    }
    assert members[..|members|] == members;
  }

  ghost predicate DraftsNamed(drafts: seq<LogicalChunkDraft>, ids: seq<u64>) {
    |drafts| == |ids| && forall i | 0 <= i < |ids| :: drafts[i].entryId == ids[i] && Usable(drafts[i])
  }

  lemma {:induction false} NamedAppend(a: seq<LogicalChunkDraft>, b: seq<LogicalChunkDraft>, ids: seq<u64>,
                                       more: seq<u64>)
    requires DraftsNamed(a, ids) && DraftsNamed(b, more)
    ensures DraftsNamed(a + b, ids + more)
  {
  }

  /** Chunk by chunk, the drafts carry the ids of the packed files. */
  lemma {:induction false} DraftsCarryIds(packs: seq<MicroFilePack>, n: nat, objectId: nat)
    requires n <= |packs|
    ensures DraftsNamed(PlanDrafts(packs, n, objectId), PackedIds(packs, n))
  {
    if n > 0 {
      DraftsCarryIds(packs, n - 1, objectId);
      var members := packs[n - 1].members;
      NamedAppend(PlanDrafts(packs, n - 1, objectId), DraftsOfMembers(members, objectId), PackedIds(packs, n - 1),
                  MemberIds(members));
    }
  }

  /**
   Every chunk of a valid plan gets an id: no packed file collides with another, and the count is within the limit.
   */
  lemma {:induction false} PlanChunksAreAssignable(plan: PackPlan, objectId: nat, config: ChunkingConfig)
    requires ConfigOk(config) && PlanShape(config, plan) && PlanFits(config, plan)
    ensures Assignable(PlanDrafts(plan.packs, |plan.packs|, objectId), config.maxChunks)
  {
    var drafts, ids := PlanDrafts(plan.packs, |plan.packs|, objectId), PackedIds(plan.packs, |plan.packs|);
    DraftsCarryIds(plan.packs, |plan.packs|, objectId);
    forall i, j | 0 <= i < j < |drafts| ensures !SamePosition(drafts[i], drafts[j]) {
      assert PlanIds(plan)[i] == ids[i] && PlanIds(plan)[j] == ids[j];
    }
  }
}
