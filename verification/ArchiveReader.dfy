/** Reading an archive file: the catalog, full verification, extraction of one entry and of a byte range. */
module ArchiveReader {
  import opened Base
  import opened ArchiveFormat
  import opened CodecRegistry
  import opened CatalogRules
  import opened CatalogReader
  import opened SectionRanges

  datatype Catalog = Catalog(header: Header, footer: Footer, sections: seq<SectionRecord>, tables: Tables)

  function Slice(file: bytes, offset: nat, length: nat): (s: bytes)
    requires offset + length <= |file|
    ensures |s| == length
  {
    file[offset..offset + length]
  }

  // ----- What an acceptable file is -----

  predicate HeaderOk(limits: DecodeLimits, h: Header, fileLength: nat) {
    && h.flags == 0
    && (h.sectionCount == REQUIRED_RAW_SECTIONS || h.sectionCount == REQUIRED_COMPRESSED_SECTIONS)
    && h.sectionCount <= limits.maxSections
    && h.entryCount <= limits.maxEntries
    && h.groupCount <= limits.maxGroups
    && h.logicalChunkCount <= limits.maxChunks
    && h.originalTotalSize <= limits.maxOriginalBytes
    && h.footerOffset < fileLength
  }

  /** Header and footer, and that they agree with the length of the file. */
  predicate EnvelopeOk(p: Primitives, file: bytes, limits: DecodeLimits, h: Header, f: Footer) {
    && HEADER_LEN + FOOTER_LEN <= |file| <= U64_MAX
    && p.readHeader(file[..HEADER_LEN]) == Success(h)
    && HeaderOk(limits, h, |file|)
    && h.footerOffset + FOOTER_LEN == |file|
    && p.readFooter(file[h.footerOffset..]) == Success(f)
    && f.archiveLength == |file|
    && f.version == 1
  }

  function DirectoryLength(h: Header): nat {
    h.sectionCount * SECTION_ENTRY_LEN
  }

  function DirectoryEnd(h: Header): nat {
    HEADER_LEN + DirectoryLength(h)
  }

  ghost predicate DirectoryIn(p: Primitives, file: bytes, limits: DecodeLimits, h: Header, f: Footer,
                              sections: seq<SectionRecord>)
    requires h.footerOffset <= |file|
  {
    && h.sectionDirectoryOffset == HEADER_LEN
    && DirectoryEnd(h) <= h.footerOffset
    && DirectoryLength(h) <= limits.maxMetadataBytes
    && p.crc32c(Slice(file, HEADER_LEN, DirectoryLength(h))) == f.directoryCrc32c
    && sections == DirectoryRecords(p, Slice(file, HEADER_LEN, DirectoryLength(h)), h.sectionCount)
    && DirectoryOk(sections)
    && RangesOk(sections, DirectoryEnd(h), h.footerOffset)
  }

  /** The section of a type that must be there. */
  function Required(sections: seq<SectionRecord>, sectionType: nat): SectionRecord {
    match SectionOf(sections, sectionType)
    case Some(s) => s
    case None => SectionRecord(sectionType, 0, 0, 0, 0, 0, 0)
  }

  function PayloadSection(sections: seq<SectionRecord>): SectionRecord {
    Required(sections, PAYLOAD_AREA)
  }

  /** Length of all metadata, the directory included. */
  function MetadataLength(sections: seq<SectionRecord>, h: Header): nat {
    DirectoryLength(h)
    + Required(sections, ENTRY_TABLE).length + Required(sections, GROUP_TABLE).length
      + Required(sections, RESTORE_MAP).length
    + Required(sections, CENTRAL_INDEX).length + Required(sections, INTEGRITY_TREE).length
    + match SectionOf(sections, CODEC_REGISTRY) { case Some(s) => s.length case None => 0 }
  }

  /** The bytes of a section, once its range and its checksum are good. */
  function Checked(p: Primitives, file: bytes, limits: DecodeLimits, s: SectionRecord): Result<bytes, PithosError> {
    if s.length > limits.maxMetadataBytes then Failure(ResourceLimit("metadata allocation"))
    else if s.offset + s.length > |file| then Failure(PithosError.Io)
    else if p.crc32c(Slice(file, s.offset, s.length)) != s.crc32c then Failure(ChecksumMismatch)
    else Success(Slice(file, s.offset, s.length))
  }

  function Parsed<T>(section: Result<bytes, PithosError>, read: bytes -> Option<T>): Result<T, PithosError> {
    match section
    case Failure(e) => Failure(e)
    case Success(content) =>
      match read(content)
      case Some(t) => Success(t)
      case None => Failure(InvalidMetadata("JSON section"))
  }

  ghost predicate RegistrySectionIs(p: Primitives, file: bytes, limits: DecodeLimits, section: Option<SectionRecord>,
                                    registry: Option<seq<RegistryRecord>>) {
    match section
    case None => registry == None
    case Some(s) =>
      && registry.Some?
      && Checked(p, file, limits, s).Success?
      && RegistryIn(Checked(p, file, limits, s).value, MAX_RECORDS, registry.value)
  }

  /** The tables are what the metadata sections of the file hold. */
  ghost predicate TablesIn(p: Primitives, file: bytes, limits: DecodeLimits, h: Header, sections: seq<SectionRecord>,
                           t: Tables) {
    && MetadataLength(sections, h) <= limits.maxMetadataBytes
    && Parsed(Checked(p, file, limits, Required(sections, ENTRY_TABLE)), p.readEntries) == Success(t.entries)
    && Parsed(Checked(p, file, limits, Required(sections, GROUP_TABLE)), p.readGroups) == Success(t.groups)
    && Parsed(Checked(p, file, limits, Required(sections, RESTORE_MAP)), p.readRestores) == Success(t.restores)
    && Parsed(Checked(p, file, limits, Required(sections, CENTRAL_INDEX)), p.readIndex) == Success(t.index)
    && Parsed(Checked(p, file, limits, Required(sections, INTEGRITY_TREE)), p.readIntegrity) == Success(t.integrity)
    && RegistrySectionIs(p, file, limits, SectionOf(sections, CODEC_REGISTRY), t.registry)
  }

  predicate RegistryCountOk(h: Header, sections: seq<SectionRecord>) {
    && (h.sectionCount == REQUIRED_RAW_SECTIONS ==> SectionOf(sections, CODEC_REGISTRY).None?)
    && (h.sectionCount == REQUIRED_COMPRESSED_SECTIONS ==> SectionOf(sections, CODEC_REGISTRY).Some?)
  }

  predicate CountsOk(h: Header, t: Tables) {
    && |t.entries| == h.entryCount && |t.groups| == h.groupCount && |t.restores| == h.logicalChunkCount
    && |t.index| == |t.entries| && |t.integrity| == |t.entries|
  }

  /** The catalog of an acceptable file. */
  ghost predicate Accepts(p: Primitives, file: bytes, limits: DecodeLimits, c: Catalog) {
    && EnvelopeOk(p, file, limits, c.header, c.footer)
    && DirectoryIn(p, file, limits, c.header, c.footer, c.sections)
    && RegistryCountOk(c.header, c.sections)
    && TablesIn(p, file, limits, c.header, c.sections, c.tables)
    && CountsOk(c.header, c.tables)
    && TablesOk(p, limits, c.tables, PayloadSection(c.sections))
    && OriginalSize(c.tables.entries, |c.tables.entries|) == c.header.originalTotalSize
  }

  // ----- read_catalog -----

  method ReadEnvelope(p: Primitives, file: bytes, limits: DecodeLimits)
    returns (r: Result<(Header, Footer), PithosError>)
    requires |file| <= U64_MAX
    ensures r.Success? ==> EnvelopeOk(p, file, limits, r.value.0, r.value.1)
    ensures r.Failure? ==> forall h, f :: !EnvelopeOk(p, file, limits, h, f)
  {
    if |file| < HEADER_LEN + FOOTER_LEN {
      return Failure(InvalidRange);
    }
    var header := p.readHeader(file[..HEADER_LEN]);
    if header.Failure? {
      return Failure(header.error);
    }
    var h := header.value;
    if !HeaderOk(limits, h, |file|) {
      return Failure(ResourceLimit("header"));
    }
    if h.footerOffset + FOOTER_LEN > |file| {
      return Failure(PithosError.Io);
    }
    // The footer is read from its first 64 bytes on; that nothing follows them is checked next.
    if h.footerOffset + FOOTER_LEN != |file| {
      return Failure(InvalidMetadata("footer"));
    }
    var footer := p.readFooter(file[h.footerOffset..]);
    if footer.Failure? {
      return Failure(footer.error);
    }
    if footer.value.archiveLength != |file| || footer.value.version != 1 {
      return Failure(InvalidMetadata("footer"));
    }
    return Success((h, footer.value));
  }

  method ReadSections(p: Primitives, file: bytes, limits: DecodeLimits, h: Header, f: Footer)
    returns (r: Result<seq<SectionRecord>, PithosError>)
    requires EnvelopeOk(p, file, limits, h, f)
    ensures r.Success? ==> DirectoryIn(p, file, limits, h, f, r.value)
    ensures r.Failure? ==> forall sections :: !DirectoryIn(p, file, limits, h, f, sections)
  {
    if h.sectionDirectoryOffset != HEADER_LEN || DirectoryEnd(h) > h.footerOffset {
      return Failure(InvalidRange);
    }
    if DirectoryLength(h) > limits.maxMetadataBytes {
      return Failure(ResourceLimit("metadata allocation"));
    }
    var directory := Slice(file, HEADER_LEN, DirectoryLength(h));
    if p.crc32c(directory) != f.directoryCrc32c {
      return Failure(ChecksumMismatch);
    }
    r := ReadDirectory(p, directory, h.sectionCount);
    if r.Success? {
      var ranges := ValidateSectionRanges(r.value, DirectoryEnd(h), h.footerOffset);
      if ranges.Failure? {
        r := Failure(ranges.error);
      }
    }
  }

  method ReadRegistry(p: Primitives, file: bytes, limits: DecodeLimits, section: Option<SectionRecord>)
    returns (r: Result<Option<seq<RegistryRecord>>, PithosError>)
    ensures r.Success? ==> RegistrySectionIs(p, file, limits, section, r.value)
    ensures r.Failure? ==> forall registry :: !RegistrySectionIs(p, file, limits, section, registry)
  {
    match section {
      case None => return Success(None);
      case Some(s) =>
        var content := Checked(p, file, limits, s);
        if content.Failure? {
          return Failure(content.error);
        }
        var records := DecodeRegistry(content.value, MAX_RECORDS);
        if records.Failure? {
          return Failure(records.error);
        }
        return Success(Some(records.value));
    }
  }

  method ReadTables(p: Primitives, file: bytes, limits: DecodeLimits, h: Header, sections: seq<SectionRecord>)
    returns (r: Result<Tables, PithosError>)
    ensures r.Success? ==> TablesIn(p, file, limits, h, sections, r.value)
    ensures r.Failure? ==> forall t :: !TablesIn(p, file, limits, h, sections, t)
  {
    if MetadataLength(sections, h) > limits.maxMetadataBytes {
      return Failure(ResourceLimit("aggregate metadata"));
    }
    var entries := Parsed(Checked(p, file, limits, Required(sections, ENTRY_TABLE)), p.readEntries);
    var groups := Parsed(Checked(p, file, limits, Required(sections, GROUP_TABLE)), p.readGroups);
    var restores := Parsed(Checked(p, file, limits, Required(sections, RESTORE_MAP)), p.readRestores);
    var index := Parsed(Checked(p, file, limits, Required(sections, CENTRAL_INDEX)), p.readIndex);
    var integrity := Parsed(Checked(p, file, limits, Required(sections, INTEGRITY_TREE)), p.readIntegrity);
    var registry := ReadRegistry(p, file, limits, SectionOf(sections, CODEC_REGISTRY));
    if entries.Failure? {
      return Failure(entries.error);
    }
    if groups.Failure? {
      return Failure(groups.error);
    }
    if restores.Failure? {
      return Failure(restores.error);
    }
    if index.Failure? {
      return Failure(index.error);
    }
    if integrity.Failure? {
      return Failure(integrity.error);
    }
    if registry.Failure? {
      return Failure(registry.error);
    }
    return Success(Tables(entries.value, groups.value, restores.value, index.value, integrity.value, registry.value));
  }

  method CheckTables(p: Primitives, limits: DecodeLimits, h: Header, t: Tables, payload: SectionRecord)
    returns (r: Result<(), PithosError>)
    ensures r.Success?
            <==> CountsOk(h, t) && TablesOk(p, limits, t, payload)
                 && OriginalSize(t.entries, |t.entries|) == h.originalTotalSize
  {
    if !CountsOk(h, t) {
      return Failure(InvalidMetadata("table counts"));
    }
    var totals := CheckEntries(p, limits, t);
    if totals.Failure? {
      return Failure(totals.error);
    }
    if totals.value.originalSize != h.originalTotalSize {
      return Failure(InvalidMetadata("original size"));
    }
    r := CheckRestores(t, totals.value.fileCount);
    if r.Success? {
      r := CheckGroups(limits, t, payload);
    }
  }

  /** Succeeds exactly on the files that have an acceptable catalog, and returns it. */
  method ReadCatalog(p: Primitives, file: bytes, limits: DecodeLimits) returns (r: Result<Catalog, PithosError>)
    requires |file| <= U64_MAX
    ensures r.Success? ==> Accepts(p, file, limits, r.value)
    ensures r.Failure? ==> forall c :: !Accepts(p, file, limits, c)
  {
    var envelope := ReadEnvelope(p, file, limits);
    if envelope.Failure? {
      return Failure(envelope.error);
    }
    var (header, footer) := envelope.value;
    forall c | Accepts(p, file, limits, c) ensures c.header == header && c.footer == footer {
    }
    var sections := ReadSections(p, file, limits, header, footer);
    if sections.Failure? {
      return Failure(sections.error);
    }
    if !RegistryCountOk(header, sections.value) {
      return Failure(InvalidMetadata("codec registry section count"));
    }
    var tables := ReadTables(p, file, limits, header, sections.value);
    if tables.Failure? {
      return Failure(tables.error);
    }
    var checked := CheckTables(p, limits, header, tables.value, PayloadSection(sections.value));
    if checked.Failure? {
      forall c | Accepts(p, file, limits, c) ensures c.tables == tables.value {
        TablesAreUnique(p, file, limits, header, sections.value, c.tables, tables.value);
      }
      return Failure(checked.error);
    }
    return Success(Catalog(header, footer, sections.value, tables.value));
  }

  lemma {:induction false} TablesAreUnique(p: Primitives, file: bytes, limits: DecodeLimits, h: Header,
                                           sections: seq<SectionRecord>, t: Tables, u: Tables)
    requires TablesIn(p, file, limits, h, sections, t) && TablesIn(p, file, limits, h, sections, u)
    ensures t == u
  {
    if t.registry.Some? {
      RegistryIsUnique(Checked(p, file, limits, SectionOf(sections, CODEC_REGISTRY).value).value, MAX_RECORDS,
                       t.registry.value, u.registry.value);
    }
  }

  lemma {:induction false} CatalogIsUnique(p: Primitives, file: bytes, limits: DecodeLimits, c: Catalog, d: Catalog)
    requires Accepts(p, file, limits, c) && Accepts(p, file, limits, d)
    ensures c == d
  {
    TablesAreUnique(p, file, limits, c.header, c.sections, c.tables, d.tables);
  }
}
