/** Fingerprinting a batch of chunks: canonical order, arbitrary worker schedule, and exact collision escalation. */
module Fingerprints {
  import opened Base
  import opened MergeSort
  import opened Orderings
  import opened ChunkFingerprints

  // ----- Order of candidates -----

  type KeyOrder = (CompactKey, CompactKey) -> Ordering

  function ByPrefix(): KeyOrder {
    By((k: CompactKey) => k.blake3Prefix, CompareBytes)
  }

  function FromLength(): KeyOrder {
    ThenBy(By((k: CompactKey) => k.length, CompareNat), ByPrefix())
  }

  function KeyCompare(): KeyOrder {
    ThenBy(By((k: CompactKey) => k.xxh3, CompareNat), FromLength())
  }

  lemma {:induction false} KeyIsTotal()
    ensures TotalPreorder(KeyCompare())
  {
    NatIsTotal();
    BytesIsTotal();
    ByIsTotal<CompactKey, bytes>((k: CompactKey) => k.blake3Prefix, CompareBytes);
    ByIsTotal((k: CompactKey) => k.length, CompareNat);
    ByIsTotal((k: CompactKey) => k.xxh3, CompareNat);
    ThenByIsTotal(By((k: CompactKey) => k.length, CompareNat), ByPrefix());
    ThenByIsTotal(By((k: CompactKey) => k.xxh3, CompareNat), FromLength());
  }

  lemma {:induction false} KeyIsAntisymmetric(a: CompactKey, b: CompactKey)
    ensures KeyCompare()(a, b) == Equal <==> a == b
  {
    BytesMirror(a.blake3Prefix, b.blake3Prefix);
    var x, l, p := (k: CompactKey) => k.xxh3, (k: CompactKey) => k.length, (k: CompactKey) => k.blake3Prefix;
    assert By(x, CompareNat)(a, b) == CompareNat(x(a), x(b)) && By(l, CompareNat)(a, b) == CompareNat(l(a), l(b));
    assert By(p, CompareBytes)(a, b) == CompareBytes(p(a), p(b));
    assert ByPrefix() == By(p, CompareBytes);
    ThenByEqual(By(l, CompareNat), ByPrefix(), a, b);
    assert FromLength() == ThenBy(By(l, CompareNat), ByPrefix());
    ThenByEqual(By(x, CompareNat), FromLength(), a, b);
    assert KeyCompare() == ThenBy(By(x, CompareNat), FromLength());
  }

  datatype Candidate = Candidate(key: CompactKey, index: nat)

  function CandidateCompare(): (Candidate, Candidate) -> Ordering {
    ThenBy(By((c: Candidate) => c.key, KeyCompare()), By((c: Candidate) => c.index, CompareNat))
  }

  lemma {:induction false} CandidateIsTotal()
    ensures TotalPreorder(CandidateCompare())
  {
    KeyIsTotal();
    NatIsTotal();
    ByIsTotal((c: Candidate) => c.key, KeyCompare());
    ByIsTotal((c: Candidate) => c.index, CompareNat);
    ThenByIsTotal(By((c: Candidate) => c.key, KeyCompare()), By((c: Candidate) => c.index, CompareNat));
  }

  /** A candidate not after another has a key not after the other's. */
  lemma {:induction false} CandidateOrdersKeys(a: Candidate, b: Candidate)
    requires Leq(CandidateCompare(), a, b)
    ensures Leq(KeyCompare(), a.key, b.key)
  {
    var key := (c: Candidate) => c.key;
    assert By(key, KeyCompare())(a, b) == KeyCompare()(key(a), key(b));
    assert CandidateCompare() == ThenBy(By(key, KeyCompare()), By((c: Candidate) => c.index, CompareNat));
  }

  /** In sorted candidates, equal keys stand together. */
  lemma {:induction false} EqualKeysAreContiguous(s: seq<Candidate>, i: nat, j: nat, k: nat)
    requires Sorted(CandidateCompare(), s) && i <= j <= k < |s| && s[i].key == s[k].key
    ensures s[j].key == s[i].key
  {
    KeyIsTotal();
    if i < j && j < k {
      CandidateOrdersKeys(s[i], s[j]);
      CandidateOrdersKeys(s[j], s[k]);
      EqualIsMutual(KeyCompare(), s[i].key, s[j].key);
      KeyIsAntisymmetric(s[i].key, s[j].key);
    }
  }

  // ----- Escalation -----

  /** Another chunk of the batch has the same compact key. */
  ghost predicate Collides(fingerprints: seq<ChunkFingerprint>, i: nat)
    requires i < |fingerprints|
  {
    exists j :: 0 <= j < |fingerprints| && j != i && fingerprints[j].key == fingerprints[i].key
  }

  function Candidates(fingerprints: seq<ChunkFingerprint>): (c: seq<Candidate>)
    ensures |c| == |fingerprints| && forall i | 0 <= i < |c| :: c[i] == Candidate(fingerprints[i].key, i)
  {
    seq(|fingerprints|, i requires 0 <= i < |fingerprints| => Candidate(fingerprints[i].key, i))
  }

  /** A neighbour in the sorted list has the same key. */
  predicate HasTwin(s: seq<Candidate>, k: nat)
    requires k < |s|
  {
    (k > 0 && s[k - 1].key == s[k].key) || (k + 1 < |s| && s[k + 1].key == s[k].key)
  }

  predicate Listed(fingerprints: seq<ChunkFingerprint>, s: seq<Candidate>, k: nat)
    requires k < |s|
  {
    s[k].index < |fingerprints| && s[k].key == fingerprints[s[k].index].key
  }

  /** The list holds every fingerprint once, under its position. */
  ghost predicate Listing(fingerprints: seq<ChunkFingerprint>, s: seq<Candidate>) {
    && |s| == |fingerprints|
    && (forall k | 0 <= k < |s| :: Listed(fingerprints, s, k))
    && (forall i | 0 <= i < |fingerprints| :: Candidate(fingerprints[i].key, i) in s)
    && (forall k, l | 0 <= k < l < |s| :: s[k].index != s[l].index)
  }

  lemma {:induction false} PermutationIsListing(fingerprints: seq<ChunkFingerprint>, c: seq<Candidate>,
                                                s: seq<Candidate>)
    requires c == Candidates(fingerprints) && multiset(s) == multiset(c)
    ensures Listing(fingerprints, s)
  {
    assert |multiset(s)| == |s| && |multiset(c)| == |c|;
    forall k | 0 <= k < |s| ensures Listed(fingerprints, s, k) {
      assert s[k] in multiset(s) && s[k] in c;
    }
    forall i | 0 <= i < |fingerprints| ensures Candidate(fingerprints[i].key, i) in s {
      assert c[i] in multiset(c) && c[i] in multiset(s);
    }
    forall k, l | 0 <= k < l < |s| ensures s[k].index != s[l].index {
      NoTwoCopies(c, s, k, l);
    }
  }

  lemma {:induction false} NoTwoCopies(c: seq<Candidate>, s: seq<Candidate>, k: nat, l: nat)
    requires multiset(s) == multiset(c) && (forall i | 0 <= i < |c| :: c[i].index == i) && k < l < |s|
    ensures s[k].index != s[l].index
  {
    assert s[k] in multiset(s) && s[l] in multiset(s) && s[k] in c && s[l] in c;
    TwoCopies(s, s[k]);
    TwoCopies(c, s[k]);
  }

  /** The sorted candidates are the fingerprints, each once. */
  lemma {:induction false} SortedCandidates(fingerprints: seq<ChunkFingerprint>, s: seq<Candidate>)
    requires s == Sort(CandidateCompare(), Candidates(fingerprints))
    ensures Listing(fingerprints, s) && Sorted(CandidateCompare(), s)
  {
    CandidateIsTotal();
    SortIsStableSort(CandidateCompare(), Candidates(fingerprints));
    PermutationIsListing(fingerprints, Candidates(fingerprints), s);
  }

  lemma {:induction false} TwinCollides(fingerprints: seq<ChunkFingerprint>, s: seq<Candidate>, k: nat)
    requires Listing(fingerprints, s) && k < |s| && HasTwin(s, k)
    ensures s[k].index < |fingerprints| && Collides(fingerprints, s[k].index)
  {
    var l := if k > 0 && s[k - 1].key == s[k].key then k - 1 else k + 1;
    assert Listed(fingerprints, s, k) && Listed(fingerprints, s, l);
    assert s[l].index != s[k].index && fingerprints[s[l].index].key == fingerprints[s[k].index].key;
  }

  lemma {:induction false} EqualKeysMeet(s: seq<Candidate>, k: nat, l: nat)
    requires Sorted(CandidateCompare(), s) && k < |s| && l < |s| && k != l && s[k].key == s[l].key
    ensures HasTwin(s, k)
  {
    if l < k {
      EqualKeysAreContiguous(s, l, k - 1, k);
    } else {
      EqualKeysAreContiguous(s, k, k + 1, l);
    }
  }

  lemma {:induction false} CollisionHasTwin(fingerprints: seq<ChunkFingerprint>, s: seq<Candidate>, k: nat)
    requires Listing(fingerprints, s) && Sorted(CandidateCompare(), s) && k < |s|
    requires Listed(fingerprints, s, k) && Collides(fingerprints, s[k].index)
    ensures HasTwin(s, k)
  {
    var j :| 0 <= j < |fingerprints| && j != s[k].index && fingerprints[j].key == fingerprints[s[k].index].key;
    assert Candidate(fingerprints[j].key, j) in s;
    var l :| 0 <= l < |s| && s[l] == Candidate(fingerprints[j].key, j);
    EqualKeysMeet(s, k, l);
  }

  /** Looking at neighbours decides whether a chunk collides with any other. */
  lemma {:induction false} TwinsAreCollisions(fingerprints: seq<ChunkFingerprint>, s: seq<Candidate>, k: nat)
    requires Listing(fingerprints, s) && Sorted(CandidateCompare(), s) && k < |s|
    ensures s[k].index < |fingerprints|
    ensures HasTwin(s, k) <==> Collides(fingerprints, s[k].index)
  {
    assert Listed(fingerprints, s, k);
    if HasTwin(s, k) {
      TwinCollides(fingerprints, s, k);
    }
    if Collides(fingerprints, s[k].index) {
      CollisionHasTwin(fingerprints, s, k);
    }
  }

  /** Marks every candidate in a run of equal keys longer than one. */
  method MarkCollisions(s: seq<Candidate>, count: nat) returns (escalate: array<bool>)
    requires forall k | 0 <= k < |s| :: s[k].index < count
    requires forall k, l | 0 <= k < l < |s| :: s[k].index != s[l].index
    ensures fresh(escalate) && escalate.Length == count
    ensures forall k | 0 <= k < |s| :: escalate[s[k].index] == HasTwin(s, k)
  {
    escalate := new bool[count](_ => false);
    var start := 0;
    while start < |s|
      invariant 0 <= start <= |s|
      invariant 0 < start < |s| ==> s[start - 1].key != s[start].key
      invariant forall k | 0 <= k < start :: escalate[s[k].index] == HasTwin(s, k)
      invariant forall k | start <= k < |s| :: !escalate[s[k].index]
    {
      var end := RunEnd(s, start);
      if end - start > 1 {
        MarkRun(s, start, end, escalate);
      }
      start := end;
    }
  }

  /** The end of the run of equal keys that begins at `start`. */
  method RunEnd(s: seq<Candidate>, start: nat) returns (end: nat)
    requires start < |s|
    ensures start < end <= |s| && (forall k | start <= k < end :: s[k].key == s[start].key)
    ensures end < |s| ==> s[end].key != s[start].key
  {
    end := start + 1;
    while end < |s| && s[end].key == s[start].key
      invariant start < end <= |s| && forall k | start <= k < end :: s[k].key == s[start].key
    {
      end := end + 1;
    }
  }

  method MarkRun(s: seq<Candidate>, start: nat, end: nat, escalate: array<bool>)
    requires start <= end <= |s| && (forall k | 0 <= k < |s| :: s[k].index < escalate.Length)
    requires forall k, l | 0 <= k < l < |s| :: s[k].index != s[l].index
    modifies escalate
    ensures forall k | 0 <= k < |s| ::
              escalate[s[k].index] == if start <= k < end then true else old(escalate[s[k].index])
  {
    for k := start to end
      invariant forall l | 0 <= l < |s| ::
                  escalate[s[l].index] == if start <= l < k then true else old(escalate[s[l].index])
    {
      escalate[s[k].index] := true;
    }
  }

  /** Sorting by compact key brings colliding chunks together; each of them is marked. */
  method FindCollisions(fingerprints: seq<ChunkFingerprint>) returns (escalate: array<bool>)
    ensures fresh(escalate) && escalate.Length == |fingerprints|
    ensures forall i | 0 <= i < |fingerprints| :: escalate[i] == Collides(fingerprints, i)
  {
    CandidateIsTotal();
    var s := SortList(Candidates(fingerprints), CandidateCompare());
    SortedCandidates(fingerprints, s);
    forall k | 0 <= k < |s| ensures s[k].index < |fingerprints| {
      assert Listed(fingerprints, s, k);
    }
    escalate := MarkCollisions(s, |fingerprints|);
    MarksAreCollisions(fingerprints, s, escalate[..]);
    assert forall i | 0 <= i < |fingerprints| :: escalate[..][i] == escalate[i];
  }

  /**
   After escalation a chunk has its full hash exactly when it collides; nothing else changes, and no limit can refuse
   it.
   */
  method EscalateCompactCollisions(h: Hashes, sizes: Sizes, config: FingerprintConfig,
                                   fingerprints: array<ChunkFingerprint>, inputs: seq<FingerprintInput>)
    returns (r: Result<(), PithosError>)
    requires config.Valid() && fingerprints.Length == |inputs|
    requires forall i | 0 <= i < |inputs| ::
               fingerprints[i] == FingerprintAs(h, config, Standard, inputs[i])
               && SingleRequest(sizes, config, |inputs[i].data|).Success?
    modifies fingerprints
    ensures r.Success?
    ensures forall i | 0 <= i < |inputs| ::
              fingerprints[i] ==
                if Collides(old(fingerprints[..]), i) then FingerprintAs(h, config, Paranoid, inputs[i])
                else old(fingerprints[i])
  {
    hide SingleRequest;
    ghost var all := fingerprints[..];
    var escalate := FindCollisions(fingerprints[..]);
    for i := 0 to fingerprints.Length
      invariant forall k | 0 <= k < i ::
                  fingerprints[k] == if Collides(all, k) then FingerprintAs(h, config, Paranoid, inputs[k]) else all[k]
      invariant forall k | i <= k < |inputs| :: fingerprints[k] == all[k]
      invariant forall k | 0 <= k < |inputs| :: escalate[k] == Collides(all, k)
    {
      if escalate[i] {
        assert all[i] == FingerprintAs(h, config, Standard, inputs[i]);
        var full := Escalated(h, sizes, config, fingerprints[i], inputs[i].data);
        if full.Failure? {
          assert false;
        } else {
          fingerprints[i] := full.value;
        }
      }
    }
    return Success(());
  }

  lemma {:induction false} MarksAreCollisions(fingerprints: seq<ChunkFingerprint>, s: seq<Candidate>, marks: seq<bool>)
    requires Listing(fingerprints, s) && Sorted(CandidateCompare(), s) && |marks| == |fingerprints|
    requires forall k | 0 <= k < |s| :: s[k].index < |marks| && marks[s[k].index] == HasTwin(s, k)
    ensures forall i | 0 <= i < |marks| :: marks[i] == Collides(fingerprints, i)
  {
    forall i | 0 <= i < |marks| ensures marks[i] == Collides(fingerprints, i) {
      assert Candidate(fingerprints[i].key, i) in s;
      var k :| 0 <= k < |s| && s[k] == Candidate(fingerprints[i].key, i);
      TwinsAreCollisions(fingerprints, s, k);
    }
  }

  // ----- The batch -----

  function CompareId(a: FingerprintInput, b: FingerprintInput): Ordering {
    CompareNat(a.chunkId, b.chunkId)
  }

  lemma {:induction false} IdIsTotal()
    ensures TotalPreorder(CompareId)
  {
  }

  ghost predicate BatchOk(inputs: seq<FingerprintInput>) {
    && (forall i | 0 <= i < |inputs| :: LengthOk(inputs[i]))
    && forall i, j | 0 <= i < j < |inputs| :: inputs[i].chunkId != inputs[j].chunkId
  }

  predicate LengthOk(input: FingerprintInput) {
    |input.data| == input.length
  }

  // ----- Limits of a batch -----

  function TotalBytes(inputs: seq<FingerprintInput>, n: nat): nat
    requires n <= |inputs|
  {
    if n == 0 then 0 else TotalBytes(inputs, n - 1) + |inputs[n - 1].data|
  }

  function Largest(inputs: seq<FingerprintInput>, n: nat): nat
    requires n <= |inputs|
  {
    if n == 0 then 0
    else if Largest(inputs, n - 1) < |inputs[n - 1].data| then |inputs[n - 1].data| else Largest(inputs, n - 1)
  }

  lemma {:induction false} TotalGrows(inputs: seq<FingerprintInput>, m: nat, n: nat)
    requires m <= n <= |inputs|
    ensures TotalBytes(inputs, m) <= TotalBytes(inputs, n)
  {
    if m < n {
      TotalGrows(inputs, m, n - 1);
    }
  }

  /** A chunk is no longer than the largest, and than all together. */
  lemma {:induction false} OneOfAll(inputs: seq<FingerprintInput>, n: nat, i: nat)
    requires i < n <= |inputs|
    ensures |inputs[i].data| <= Largest(inputs, n) && |inputs[i].data| <= TotalBytes(inputs, n)
  {
    if i < n - 1 {
      OneOfAll(inputs, n - 1, i);
    }
  }

  /** What the configuration allows of a batch: count, chunk sizes, total, metadata and working memory. */
  ghost predicate BatchFits(sizes: Sizes, config: FingerprintConfig, inputs: seq<FingerprintInput>) {
    && |inputs| <= config.maxChunks
    && (forall i | 0 <= i < |inputs| :: ChunkFits(config, inputs[i]))
    && TotalBytes(inputs, |inputs|) <= config.maxTotalBytes
    && BatchMemory(sizes, config, |inputs|, Largest(inputs, |inputs|)).Success?
  }

  predicate ChunkFits(config: FingerprintConfig, input: FingerprintInput) {
    ChunkSize(config, |input.data|).Success?
  }

  /** A batch within the limits is so chunk by chunk: none is refused later. */
  lemma {:induction false} FitsOneByOne(sizes: Sizes, config: FingerprintConfig, inputs: seq<FingerprintInput>, i: nat)
    requires config.Valid() && BatchFits(sizes, config, inputs) && i < |inputs|
    ensures SingleRequest(sizes, config, |inputs[i].data|).Success?
  {
    hide BatchMemory;
    OneOfAll(inputs, |inputs|, i);
    BatchCoversEach(sizes, config, |inputs|, Largest(inputs, |inputs|), |inputs[i].data|);
    assert ChunkFits(config, inputs[i]);
  }

  /** The limits do not depend on the order of the chunks. */
  lemma {:induction false} OrderedFits(sizes: Sizes, config: FingerprintConfig, inputs: seq<FingerprintInput>,
                                       ordered: seq<FingerprintInput>, i: nat)
    requires config.Valid() && BatchFits(sizes, config, inputs) && multiset(ordered) == multiset(inputs)
    requires i < |ordered|
    ensures SingleRequest(sizes, config, |ordered[i].data|).Success?
  {
    hide BatchFits, SingleRequest;
    assert ordered[i] in multiset(ordered) && ordered[i] in multiset(inputs) && ordered[i] in inputs;
    var j :| 0 <= j < |inputs| && inputs[j] == ordered[i];
    FitsOneByOne(sizes, config, inputs, j);
  }

  /** Length, size and total of every chunk, in order, and then the memory of the batch. */
  method CheckLimits(sizes: Sizes, config: FingerprintConfig, inputs: seq<FingerprintInput>)
    returns (r: Result<(), PithosError>)
    ensures r.Success? <==> BatchFits(sizes, config, inputs) && forall i | 0 <= i < |inputs| :: LengthOk(inputs[i])
  {
    hide ChunkSize, BatchMemory;
    if |inputs| > config.maxChunks {
      return Failure(ResourceLimit("fingerprint chunk count"));
    }
    var total, largest := 0, 0;
    for i := 0 to |inputs|
      invariant forall k | 0 <= k < i :: LengthOk(inputs[k]) && ChunkFits(config, inputs[k])
      invariant total == TotalBytes(inputs, i) <= config.maxTotalBytes && largest == Largest(inputs, i)
    {
      if !LengthOk(inputs[i]) {
        return Failure(InvalidMetadata("fingerprint chunk length"));
      }
      var size := ChunkSize(config, |inputs[i].data|);
      if size.Failure? {
        assert !ChunkFits(config, inputs[i]);
        return Failure(size.error);
      }
      total := total + |inputs[i].data|;
      TotalGrows(inputs, i + 1, |inputs|);
      if total > config.maxTotalBytes {
        return Failure(if total > U64_MAX then IntegerOverflow else ResourceLimit("fingerprint total bytes"));
      }
      largest := if largest < |inputs[i].data| then |inputs[i].data| else largest;
    }
    return BatchMemory(sizes, config, |inputs|, largest);
  }

  // ----- The output of a batch -----

  function Plain(h: Hashes, config: FingerprintConfig, ordered: seq<FingerprintInput>): (plain: seq<ChunkFingerprint>)
    requires config.Valid()
    ensures |plain| == |ordered| && forall i | 0 <= i < |plain| :: plain[i] == Fingerprint(h, config, ordered[i])
  {
    seq(|ordered|, i requires 0 <= i < |ordered| => Fingerprint(h, config, ordered[i]))
  }

  /** One fingerprint per chunk in order of id, with full hashes exactly where the policy wants them. */
  ghost predicate IsBatchOutput(h: Hashes, config: FingerprintConfig, inputs: seq<FingerprintInput>,
                                output: seq<ChunkFingerprint>)
    requires config.Valid()
  {
    var ordered := Sort(CompareId, inputs);
    |output| == |ordered|
    && forall i | 0 <= i < |output| ::
         output[i] == if config.policy == Standard
         && Collides(Plain(h, config, ordered), i) then FingerprintAs(h, config, Paranoid, ordered[i])
                      else Fingerprint(h, config, ordered[i])
  }

  function Slots(count: nat): (s: set<nat>)
    ensures forall i: nat :: i in s <==> i < count
  {
    if count == 0 then {} else Slots(count - 1) + {count - 1}
  }

  /** Workers fill their slots in any order; each slot only depends on its own chunk. */
  method ComputeSlots(h: Hashes, config: FingerprintConfig, ordered: seq<FingerprintInput>)
    returns (slots: array<ChunkFingerprint>)
    requires config.Valid() && forall i | 0 <= i < |ordered| :: LengthOk(ordered[i]) && ChunkFits(config, ordered[i])
    ensures fresh(slots) && slots.Length == |ordered|
    ensures forall i | 0 <= i < |ordered| :: slots[i] == Fingerprint(h, config, ordered[i])
  {
    var empty := ChunkFingerprint(0, CompactKey(0, 0, []), None, 0, []);
    slots := new ChunkFingerprint[|ordered|](_ => empty);
    var pending := Slots(|ordered|);
    while pending != {}
      invariant pending <= Slots(|ordered|)
      invariant forall i | 0 <= i < |ordered| && i !in pending :: slots[i] == Fingerprint(h, config, ordered[i])
    {
      var i :| i in pending;
      assert LengthOk(ordered[i]) && ChunkFits(config, ordered[i]);
      var computed := FingerprintBytes(h, config, ordered[i].chunkId, ordered[i].data);
      assert FingerprintInput(ordered[i].chunkId, |ordered[i].data|, ordered[i].data) == ordered[i];
      slots[i] := computed.value;
      pending := pending - {i};
    }
  }

  ghost predicate Neighbours(ordered: seq<FingerprintInput>, n: nat)
    requires n <= |ordered|
  {
    forall k | 0 < k < n :: ordered[k - 1].chunkId != ordered[k].chunkId
  }

  lemma {:induction false} StrictlyById(ordered: seq<FingerprintInput>, i: nat, j: nat)
    requires Sorted(CompareId, ordered) && Neighbours(ordered, |ordered|) && i < j < |ordered|
    ensures ordered[i].chunkId < ordered[j].chunkId
  {
    assert Leq(CompareId, ordered[j - 1], ordered[j]) && ordered[j - 1].chunkId != ordered[j].chunkId;
    if i < j - 1 {
      StrictlyById(ordered, i, j - 1);
    }
  }

  lemma {:induction false} DistinctIdsAreOrderFree(s: seq<FingerprintInput>, t: seq<FingerprintInput>)
    requires multiset(s) == multiset(t) && forall i, j | 0 <= i < j < |s| :: s[i].chunkId != s[j].chunkId
    ensures forall i, j | 0 <= i < j < |t| :: t[i].chunkId != t[j].chunkId
  {
    forall i, j | 0 <= i < j < |t| ensures t[i].chunkId != t[j].chunkId {
      assert t[i] in multiset(t) && t[j] in multiset(t) && t[i] in s && t[j] in s;
      TwoCopies(s, t[i]);
      TwoCopies(t, t[i]);
    }
  }

  /** Sorted by id, a batch without repeated ids is strictly ordered, and the other way round. */
  lemma {:induction false} OrderedBatch(inputs: seq<FingerprintInput>, ordered: seq<FingerprintInput>)
    requires ordered == Sort(CompareId, inputs)
    ensures multiset(ordered) == multiset(inputs)
    ensures (forall i, j | 0 <= i < j < |inputs| :: inputs[i].chunkId != inputs[j].chunkId)
            <==> Neighbours(ordered, |ordered|)
    ensures Neighbours(ordered, |ordered|) ==>
              forall i, j | 0 <= i < j < |ordered| :: ordered[i].chunkId < ordered[j].chunkId
  {
    IdIsTotal();
    SortIsStableSort(CompareId, inputs);
    if Neighbours(ordered, |ordered|) {
      forall i, j | 0 <= i < j < |ordered| ensures ordered[i].chunkId < ordered[j].chunkId {
        StrictlyById(ordered, i, j);
      }
      DistinctIdsAreOrderFree(ordered, inputs);
    }
    if forall i, j | 0 <= i < j < |inputs| :: inputs[i].chunkId != inputs[j].chunkId {
      DistinctIdsAreOrderFree(inputs, ordered);
    }
  }

  /**
   Fingerprints a batch, exactly when the configuration is valid, the batch is within its limits and no id repeats; the
   result depends neither on the order of the inputs nor on the workers.
   */
  method FingerprintChunks(h: Hashes, sizes: Sizes, config: FingerprintConfig, inputs: seq<FingerprintInput>)
    returns (r: Result<seq<ChunkFingerprint>, PithosError>)
    ensures r.Success? <==> config.Valid() && BatchFits(sizes, config, inputs) && BatchOk(inputs)
    ensures r.Success? ==> IsBatchOutput(h, config, inputs, r.value)
  {
    hide BatchFits, BatchMemory, ChunkSize;
    if !config.Valid() {
      return Failure(InvalidMetadata("fingerprint configuration"));
    }
    var limits := CheckLimits(sizes, config, inputs);
    if limits.Failure? {
      return Failure(limits.error);
    }
    IdIsTotal();
    var ordered := SortList(inputs, CompareId);
    OrderedBatch(inputs, ordered);
    var k := 1;
    while k < |ordered|
      invariant 0 < k && (k <= |ordered| ==> Neighbours(ordered, k))
      invariant (k > |ordered| ==> Neighbours(ordered, |ordered|))
    {
      if ordered[k - 1].chunkId == ordered[k].chunkId {
        return Failure(InvalidMetadata("duplicate fingerprint chunk ID"));
      }
      k := k + 1;
    }
    r := FingerprintOrdered(h, sizes, config, inputs, ordered);
  }

  method FingerprintOrdered(h: Hashes, sizes: Sizes, config: FingerprintConfig, ghost inputs: seq<FingerprintInput>,
                            ordered: seq<FingerprintInput>)
    returns (r: Result<seq<ChunkFingerprint>, PithosError>)
    requires config.Valid() && BatchFits(sizes, config, inputs) && BatchOk(inputs) && ordered == Sort(CompareId, inputs)
    ensures r.Success? && IsBatchOutput(h, config, inputs, r.value)
  {
    OrderedBatch(inputs, ordered);
    EquallyOk(inputs, ordered);
    forall i | 0 <= i < |ordered|
      ensures SingleRequest(sizes, config, |ordered[i].data|).Success? && ChunkFits(config, ordered[i]) {
      OrderedFits(sizes, config, inputs, ordered, i);
    }
    hide BatchFits, BatchMemory, ChunkSize, SingleRequest, ChunkFits, FingerprintAs;
    var slots := ComputeSlots(h, config, ordered);
    assert slots[..] == Plain(h, config, ordered);
    if config.policy == Standard {
      var escalated := EscalateCompactCollisions(h, sizes, config, slots, ordered);
      if escalated.Failure? {
        assert false;
      }
    }
    return Success(slots[..]);
  }

  /**
   Under the standard policy a chunk keeps its full hash exactly when another chunk of the batch has the same compact
   key.
   */
  lemma {:induction false} FullHashExactlyOnCollision(h: Hashes, config: FingerprintConfig,
                                                      inputs: seq<FingerprintInput>, output: seq<ChunkFingerprint>,
                                                      i: nat)
    requires config.Valid() && config.policy == Standard && IsBatchOutput(h, config, inputs, output) && i < |output|
    ensures output[i].fullBlake3.Some? <==> Collides(output, i)
  {
    var plain := Plain(h, config, Sort(CompareId, inputs));
    forall k | 0 <= k < |output| ensures output[k].key == plain[k].key {
    }
    if Collides(plain, i) {
      var j :| 0 <= j < |plain| && j != i && plain[j].key == plain[i].key;
      assert output[j].key == output[i].key;
    }
    if Collides(output, i) {
      var j :| 0 <= j < |output| && j != i && output[j].key == output[i].key;
      assert plain[j].key == plain[i].key;
    }
  }

  lemma {:induction false} EquallyOk(a: seq<FingerprintInput>, b: seq<FingerprintInput>)
    requires BatchOk(a) && multiset(a) == multiset(b)
    ensures BatchOk(b)
  {
    DistinctIdsAreOrderFree(a, b);
    forall i | 0 <= i < |b| ensures LengthOk(b[i]) {
      assert b[i] in multiset(b) && b[i] in multiset(a) && b[i] in a;
      var j :| 0 <= j < |a| && a[j] == b[i];
      assert LengthOk(a[j]);
    }
  }

  /** Without repeated ids there is one order, whatever the order of the inputs. */
  lemma {:induction false} OneOrder(a: seq<FingerprintInput>, b: seq<FingerprintInput>)
    requires BatchOk(a) && multiset(a) == multiset(b)
    ensures Sort(CompareId, a) == Sort(CompareId, b)
  {
    IdIsTotal();
    forall p, q | p in a && q in a && Equiv(CompareId, p, q) ensures p == q {
      var i :| 0 <= i < |a| && a[i] == p;
      var j :| 0 <= j < |a| && a[j] == q;
    }
    SortIsOrderIndependent(CompareId, a, b);
  }

  lemma {:induction false} OutputKeepsIds(h: Hashes, config: FingerprintConfig, a: seq<FingerprintInput>,
                                          x: seq<ChunkFingerprint>, i: nat)
    requires config.Valid() && IsBatchOutput(h, config, a, x) && i < |x|
    ensures x[i].chunkId == Sort(CompareId, a)[i].chunkId
  {
  }

  lemma {:induction false} OutputIsUnique(h: Hashes, config: FingerprintConfig, a: seq<FingerprintInput>,
                                          b: seq<FingerprintInput>, x: seq<ChunkFingerprint>, y: seq<ChunkFingerprint>)
    requires config.Valid() && Sort(CompareId, a) == Sort(CompareId, b)
    requires IsBatchOutput(h, config, a, x) && IsBatchOutput(h, config, b, y)
    ensures x == y
  {
    assert |x| == |y| && forall i | 0 <= i < |x| :: x[i] == y[i];
  }

  /** The output is strictly ordered by chunk id, and the same for every order of the inputs. */
  lemma {:induction false} BatchIsCanonical(h: Hashes, config: FingerprintConfig, a: seq<FingerprintInput>,
                                            b: seq<FingerprintInput>, x: seq<ChunkFingerprint>,
                                            y: seq<ChunkFingerprint>)
    requires config.Valid() && BatchOk(a) && multiset(a) == multiset(b)
    requires IsBatchOutput(h, config, a, x) && IsBatchOutput(h, config, b, y)
    ensures x == y && BatchOk(b)
    ensures forall i, j | 0 <= i < j < |x| :: x[i].chunkId < x[j].chunkId
  {
    EquallyOk(a, b);
    OneOrder(a, b);
    OutputIsUnique(h, config, a, b, x, y);
    OrderedBatch(a, Sort(CompareId, a));
    forall i, j | 0 <= i < j < |x| ensures x[i].chunkId < x[j].chunkId {
      OutputKeepsIds(h, config, a, x, i);
      OutputKeepsIds(h, config, a, x, j);
    }
  }
}
