/** Getting bytes out of an archive: decoded groups, restored slices, verification, extraction, ranges, unpacking. */
module ArchiveContents {
  import opened Base
  import opened ArchiveFormat
  import opened CodecRegistry
  import opened CatalogRules
  import opened SectionRanges
  import opened ArchiveReader

  // ----- Groups and slices -----

  function GroupCodec(registry: Option<seq<RegistryRecord>>, g: GroupRecord): Result<CodecId, PithosError> {
    if g.codecChainId == 0 then (if registry.Some? then Failure(UnsupportedCodec) else Success(Store))
    else match registry
      case None => Failure(UnsupportedCodec)
      case Some(records) =>
        match Chain(records, g.codecChainId)
        case None => Failure(UnsupportedCodec)
        case Some(r) =>
          match CodecFromNumber(r.codecId)
          case None => Failure(UnsupportedCodec)
          case Some(c) => Success(c)
  }

  function DecodeGroup(p: Primitives, file: bytes, limits: DecodeLimits, registry: Option<seq<RegistryRecord>>,
                       g: GroupRecord): Result<bytes, PithosError> {
    if limits.maxGroupOutput + MIB > U64_MAX then Failure(IntegerOverflow)
    else if g.compressedLen > limits.maxGroupOutput + MIB then Failure(ResourceLimit("metadata allocation"))
    else if g.payloadOffset + g.compressedLen > |file| then Failure(PithosError.Io)
    else if p.crc32c(Slice(file, g.payloadOffset, g.compressedLen)) != g.payloadCrc32c then Failure(ChecksumMismatch)
    else match GroupCodec(registry, g)
      case Failure(e) => Failure(e)
      case Success(c) => p.decode(c, Slice(file, g.payloadOffset, g.compressedLen), g.uncompressedLen)
  }

  lemma {:induction false} DecodedLength(p: Primitives, file: bytes, limits: DecodeLimits,
                                         registry: Option<seq<RegistryRecord>>, g: GroupRecord)
    requires SoundCodecs(p) && DecodeGroup(p, file, limits, registry, g).Success?
    ensures |DecodeGroup(p, file, limits, registry, g).value| == g.uncompressedLen
  {
  }

  function RestoredSlice(decoded: bytes, restore: RestoreMapRecord, offset: nat, length: nat): Result<bytes,
      PithosError> {
    if offset + length > U64_MAX then Failure(IntegerOverflow)
    else if offset + length > restore.length then Failure(InvalidRange)
    else if restore.groupOffset + offset + length > U64_MAX then Failure(IntegerOverflow)
    else if restore.groupOffset + offset + length > |decoded| then Failure(InvalidRange)
    else Success(decoded[restore.groupOffset + offset..restore.groupOffset + offset + length])
  }

  lemma {:induction false} SliceOfSlice(s: bytes, start: nat, n: nat, offset: nat, length: nat)
    requires start + n <= |s| && offset + length <= n
    ensures s[start..start + n][offset..offset + length] == s[start + offset..start + offset + length]
  {
    var a, b := s[start..start + n][offset..offset + length], s[start + offset..start + offset + length];
    forall k | 0 <= k < |a| ensures a[k] == b[k] {
      assert a[k] == s[start..start + n][offset + k] && b[k] == s[start + offset + k];
    }
  }

  /** A slice inside its entry is always there, once the entry fits its decoded group. */
  lemma {:induction false} SliceIsThere(decoded: bytes, restore: RestoreMapRecord, offset: nat, length: nat)
    requires restore.groupOffset + restore.length <= |decoded| <= U64_MAX
    ensures RestoredSlice(decoded, restore, 0, restore.length).Success?
    ensures RestoredSlice(decoded, restore, offset, length).Success? <==> offset + length <= restore.length
    ensures offset + length <= restore.length ==>
              RestoredSlice(decoded, restore, offset, length).value
              == RestoredSlice(decoded, restore, 0, restore.length).value[offset..offset + length]
  {
    if offset + length <= restore.length {
      SliceOfSlice(decoded, restore.groupOffset, restore.length, offset, length);
      assert restore.groupOffset + 0 == restore.groupOffset;
    }
  }

  // ----- One entry -----

  /** The entry that holds the bytes: the file itself, or the file a hardlink points to. */
  function FileSourceEntry(entries: seq<EntryRecord>, i: nat): Result<nat, PithosError>
    requires i < |entries|
  {
    match entries[i].kind
    case File(_) => Success(i)
    case Hardlink(target) => if target < |entries| then Success(target) else Failure(InvalidMetadata("hardlink target"))
    case _ => Failure(InvalidMetadata("file source"))
  }

  function RestoreForEntry(restores: seq<RestoreMapRecord>, entryId: nat): Option<nat> {
    RestoreFrom(restores, entryId, 0)
  }

  function RestoreFrom(restores: seq<RestoreMapRecord>, entryId: nat, j: nat): (found: Option<nat>)
    ensures found.Some? ==> found.value < |restores| && restores[found.value].entryId == entryId
    decreases |restores| - j
  {
    if j >= |restores| then None
    else if restores[j].entryId == entryId then Some(j)
    else RestoreFrom(restores, entryId, j + 1)
  }

  lemma {:induction false} RestoreFromFinds(restores: seq<RestoreMapRecord>, entryId: nat, j: nat, k: nat)
    requires j <= k < |restores| && restores[k].entryId == entryId
    ensures RestoreFrom(restores, entryId, j).Some?
    decreases k - j
  {
    if restores[j].entryId != entryId {
      RestoreFromFinds(restores, entryId, j + 1, k);
    }
  }

  /** The bytes of the source entry of `i` that range from `offset` for `length`, without the hash check. */
  function Located(t: Tables, i: nat): Result<(GroupRecord, RestoreMapRecord), PithosError>
    requires i < |t.entries|
  {
    match FileSourceEntry(t.entries, i)
    case Failure(e) => Failure(e)
    case Success(source) =>
      match t.entries[source].kind {
        case File(groupId) =>
          if groupId >= |t.groups| then Failure(InvalidMetadata("entry group"))
          else match RestoreForEntry(t.restores, t.entries[source].entryId) {
            case None => Failure(InvalidMetadata("restore entry missing"))
            case Some(j) => Success((t.groups[groupId], t.restores[j]))
          }
        case _ => Failure(InvalidMetadata("file source"))
      }
  }

  /** The whole content of entry `i`. */
  function EntryBytes(p: Primitives, file: bytes, limits: DecodeLimits, t: Tables, i: nat): Result<bytes, PithosError>
    requires i < |t.entries|
  {
    match Located(t, i)
    case Failure(e) => Failure(e)
    case Success((group, restore)) =>
      match DecodeGroup(p, file, limits, t.registry, group) {
        case Failure(e) => Failure(e)
        case Success(decoded) =>
          match RestoredSlice(decoded, restore, 0, restore.length) {
            case Failure(e) => Failure(e)
            case Success(content) => if p.blake3(content) != t.entries[i].blake3 then Failure(HashMismatch)
              else Success(content)
          }
      }
  }

  /** A range of entry `i`; the whole entry is decoded and its hash checked first. */
  function EntryRange(p: Primitives, file: bytes, limits: DecodeLimits, t: Tables, i: nat, offset: nat, length: nat):
    Result<bytes, PithosError>
    requires i < |t.entries|
  {
    if length > limits.maxGroupOutput then Failure(ResourceLimit("range output"))
    else match FileSourceEntry(t.entries, i)
      case Failure(e) => Failure(e)
      case Success(source) =>
        if offset + length > U64_MAX then Failure(IntegerOverflow)
        else if offset + length > t.entries[source].size then Failure(InvalidRange)
        else match Located(t, i)
          case Failure(e) => Failure(e)
          case Success((group, restore)) =>
            match DecodeGroup(p, file, limits, t.registry, group)
            case Failure(e) => Failure(e)
            case Success(decoded) =>
              match RestoredSlice(decoded, restore, 0, restore.length)
              case Failure(e) => Failure(e)
              case Success(content) =>
                if p.blake3(content) != t.entries[source].blake3 then Failure(HashMismatch)
                else RestoredSlice(decoded, restore, offset, length)
  }

  predicate HasBytes(e: EntryRecord) {
    e.kind.File? || e.kind.Hardlink?
  }

  lemma {:induction false} SourceOf(p: Primitives, limits: DecodeLimits, t: Tables, i: nat) returns (source: nat)
    requires EntriesOk(p, limits, t) && i < |t.entries| && HasBytes(t.entries[i])
    ensures FileSourceEntry(t.entries, i) == Success(source) && source < |t.entries|
    ensures t.entries[source].kind.File? && t.entries[source].kind.groupId < |t.groups|
    ensures t.entries[source].entryId == source
    ensures t.entries[source].size == t.entries[i].size && t.entries[source].blake3 == t.entries[i].blake3
  {
    assert EntryOk(p, limits, t, i);
    source := FileSourceEntry(t.entries, i).value;
    assert EntryOk(p, limits, t, source);
  }

  lemma {:induction false} RestoreOf(t: Tables, source: nat) returns (j: nat)
    requires RestoresOk(t) && source < |t.entries| && t.entries[source].kind.File?
    ensures RestoreForEntry(t.restores, source) == Some(j) && j < |t.restores| && t.restores[j].entryId == source
    ensures t.restores[j].groupId == t.entries[source].kind.groupId && t.restores[j].length == t.entries[source].size
  {
    var k := EveryFileIsRestored(t, source);
    RestoreFromFinds(t.restores, source, 0, k);
    j := RestoreForEntry(t.restores, source).value;
    assert RestoreOk(t, j);
  }

  /** In an acceptable catalog every file and hardlink has its group and its restore record, which fit each other. */
  lemma {:induction false} LocatedFits(p: Primitives, limits: DecodeLimits, t: Tables, payload: SectionRecord, i: nat)
    returns (source: nat, j: nat)
    requires TablesOk(p, limits, t, payload) && i < |t.entries| && HasBytes(t.entries[i])
    ensures FileSourceEntry(t.entries, i) == Success(source) && source < |t.entries|
    ensures t.entries[source].size == t.entries[i].size && t.entries[source].blake3 == t.entries[i].blake3
    ensures j < |t.restores| && t.restores[j].groupId < |t.groups| && t.restores[j].entryId == source
    ensures var group := t.groups[t.restores[j].groupId];
      && Located(t, i) == Success((group, t.restores[j]))
      && t.restores[j].groupOffset + t.restores[j].length <= group.uncompressedLen <= U64_MAX
      && t.restores[j].length == t.entries[i].size
  {
    source := SourceOf(p, limits, t, i);
    j := RestoreOf(t, source);
    SliceFits(p, limits, t, payload, j);
    assert GroupOk(limits, t, payload, t.restores[j].groupId);
  }

  lemma {:induction false} RangeOfLocated(p: Primitives, file: bytes, limits: DecodeLimits, t: Tables, i: nat,
                                          offset: nat, length: nat, group: GroupRecord, restore: RestoreMapRecord)
    requires SoundCodecs(p) && i < |t.entries| && HasBytes(t.entries[i]) && Located(t, i) == Success((group, restore))
    requires restore.groupOffset + restore.length <= group.uncompressedLen <= U64_MAX
    requires restore.length == t.entries[i].size
    requires var source := FileSourceEntry(t.entries, i);
      source.Success? && source.value < |t.entries| && t.entries[source.value].blake3 == t.entries[i].blake3
      && t.entries[source.value].size == t.entries[i].size
    ensures var whole, part := EntryBytes(p, file, limits, t, i), EntryRange(p, file, limits, t, i, offset, length);
      && (whole.Success? ==> |whole.value| == t.entries[i].size && p.blake3(whole.value) == t.entries[i].blake3)
      && (part.Success? <==> whole.Success? && offset + length <= t.entries[i].size && length <= limits.maxGroupOutput)
      && (part.Success? ==> part.value == whole.value[offset..offset + length])
  {
    var decoded := DecodeGroup(p, file, limits, t.registry, group);
    if decoded.Success? {
      DecodedLength(p, file, limits, t.registry, group);
      SliceIsThere(decoded.value, restore, offset, length);
    }
  }

  /** A range read succeeds exactly when the whole entry can be read and the range lies in it, and yields that slice. */
  lemma {:induction false} RangeReadIsSlice(p: Primitives, file: bytes, limits: DecodeLimits, c: Catalog, i: nat,
                                            offset: nat, length: nat)
    requires SoundCodecs(p) && Accepts(p, file, limits, c) && i < |c.tables.entries| && HasBytes(c.tables.entries[i])
    ensures var t := c.tables;
      var whole, part := EntryBytes(p, file, limits, t, i), EntryRange(p, file, limits, t, i, offset, length);
      && (whole.Success? ==> |whole.value| == t.entries[i].size && p.blake3(whole.value) == t.entries[i].blake3)
      && (part.Success? <==> whole.Success? && offset + length <= t.entries[i].size && length <= limits.maxGroupOutput)
      && (part.Success? ==> part.value == whole.value[offset..offset + length])
  {
    var t := c.tables;
    var source, j := LocatedFits(p, limits, t, PayloadSection(c.sections), i);
    RangeOfLocated(p, file, limits, t, i, offset, length, t.groups[t.restores[j].groupId], t.restores[j]);
  }

  // ----- verify_open_file -----

  /** The slice of restore record `j` has the hash its entry states. */
  predicate SliceVerified(p: Primitives, t: Tables, decoded: bytes, g: nat, j: nat)
    requires j < |t.restores|
  {
    t.restores[j].groupId == g ==>
      && t.restores[j].entryId < |t.entries|
      && RestoredSlice(decoded, t.restores[j], 0, t.restores[j].length).Success?
      && p.blake3(RestoredSlice(decoded, t.restores[j], 0, t.restores[j].length).value)
           == t.entries[t.restores[j].entryId].blake3
  }

  ghost predicate GroupVerified(p: Primitives, file: bytes, limits: DecodeLimits, t: Tables, g: nat)
    requires g < |t.groups|
  {
    && DecodeGroup(p, file, limits, t.registry, t.groups[g]).Success?
    && var decoded := DecodeGroup(p, file, limits, t.registry, t.groups[g]).value;
       forall j | 0 <= j < |t.restores| :: SliceVerified(p, t, decoded, g, j)
  }

  predicate DigestsOk(p: Primitives, file: bytes, c: Catalog)
    requires c.header.footerOffset <= |file|
  {
    var payload := PayloadSection(c.sections);
    && payload.offset + payload.length <= |file|
    && p.crc32c(Slice(file, payload.offset, payload.length)) == payload.crc32c
    && p.blake3(file[..c.header.footerOffset]) == c.footer.blake3Root
  }

  /** The catalog is acceptable, every checksum holds, and every file's bytes have the stated hash. */
  ghost predicate Verified(p: Primitives, file: bytes, limits: DecodeLimits, c: Catalog) {
    && Accepts(p, file, limits, c)
    && DigestsOk(p, file, c)
    && forall g | 0 <= g < |c.tables.groups| :: GroupVerified(p, file, limits, c.tables, g)
  }

  method VerifyGroup(p: Primitives, file: bytes, limits: DecodeLimits, t: Tables, g: nat)
    returns (r: Result<(), PithosError>)
    requires g < |t.groups|
    ensures r.Success? <==> GroupVerified(p, file, limits, t, g)
  {
    var decoded := DecodeGroup(p, file, limits, t.registry, t.groups[g]);
    if decoded.Failure? {
      return Failure(decoded.error);
    }
    for j := 0 to |t.restores|
      invariant forall k | 0 <= k < j :: SliceVerified(p, t, decoded.value, g, k)
    {
      if !SliceVerified(p, t, decoded.value, g, j) {
        return Failure(HashMismatch);
      }
    }
    return Success(());
  }

  method VerifyGroups(p: Primitives, file: bytes, limits: DecodeLimits, t: Tables) returns (r: Result<(), PithosError>)
    ensures r.Success? <==> forall g | 0 <= g < |t.groups| :: GroupVerified(p, file, limits, t, g)
  {
    for g := 0 to |t.groups|
      invariant forall k | 0 <= k < g :: GroupVerified(p, file, limits, t, k)
    {
      r := VerifyGroup(p, file, limits, t, g);
      if r.Failure? {
        return;
      }
    }
    return Success(());
  }

  method VerifyOpenFile(p: Primitives, file: bytes, limits: DecodeLimits) returns (r: Result<Catalog, PithosError>)
    requires |file| <= U64_MAX
    ensures r.Success? ==> Verified(p, file, limits, r.value)
    ensures r.Failure? ==> forall c :: !Verified(p, file, limits, c)
  {
    r := ReadCatalog(p, file, limits);
    if r.Failure? {
      return;
    }
    var c := r.value;
    forall d | Accepts(p, file, limits, d) ensures d == c {
      CatalogIsUnique(p, file, limits, c, d);
    }
    if !DigestsOk(p, file, c) {
      return Failure(ChecksumMismatch);
    }
    var groups := VerifyGroups(p, file, limits, c.tables);
    if groups.Failure? {
      return Failure(groups.error);
    }
  }

  /** After verification no read of a file or hardlink can fail; it yields bytes of the stated size and hash. */
  lemma {:induction false} VerifiedEntriesAreReadable(p: Primitives, file: bytes, limits: DecodeLimits, c: Catalog,
                                                      i: nat)
    requires SoundCodecs(p) && Verified(p, file, limits, c) && i < |c.tables.entries| && HasBytes(c.tables.entries[i])
    ensures EntryBytes(p, file, limits, c.tables, i).Success?
    ensures var content, e := EntryBytes(p, file, limits, c.tables, i).value, c.tables.entries[i];
      |content| == e.size && p.blake3(content) == e.blake3
  {
    var t := c.tables;
    RangeReadIsSlice(p, file, limits, c, i, 0, 0);
    var source, j := LocatedFits(p, limits, t, PayloadSection(c.sections), i);
    var g := t.restores[j].groupId;
    assert GroupVerified(p, file, limits, t, g);
    assert SliceVerified(p, t, DecodeGroup(p, file, limits, t.registry, t.groups[g]).value, g, j);
  }
}
