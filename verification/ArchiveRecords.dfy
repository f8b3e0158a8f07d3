/** The fixed-size records byte by byte: header, footer and section record read back what was written. */
module ArchiveRecords {
  import opened Base
  import opened LittleEndian
  import opened ArchiveFormat

  const GLOBAL_MAGIC: bytes := [0x55, 0x44, 0x4F, 0x43, 0x0D, 0x0A, 0x1A, 0x0A]
  const FOOTER_MAGIC: bytes := [0x55, 0x46, 0x54, 0x52]
  const MAJOR_VERSION: u16 := 0
  const MINOR_VERSION: u16 := 1

  type Crc = bytes -> nat

  /** A fixed-size byte array. */
  function Exactly(s: bytes, n: nat): (r: bytes)
    ensures |r| == n && (|s| == n ==> r == s)
  {
    if |s| >= n then s[..n] else s + seq(n - |s|, i => 0)
  }

  function Number(s: bytes, from: nat, width: nat): nat
    requires from + width <= |s|
  {
    FromLe(s[from..from + width])
  }

  // ----- Numbers in consecutive fields -----

  /** The numbers in little-endian order, `width` bytes each. */
  function Fields(numbers: seq<nat>, width: nat): (s: bytes)
    ensures |s| == |numbers| * width
  {
    if numbers == [] then [] else Fields(numbers[..|numbers| - 1], width) + Le(numbers[|numbers| - 1], width)
  }

  lemma {:induction false} FieldAt(numbers: seq<nat>, width: nat, k: nat)
    requires k < |numbers| && numbers[k] < Pow256(width)
    ensures k * width + width <= |Fields(numbers, width)|
    ensures Number(Fields(numbers, width), k * width, width) == numbers[k]
  {
    hide Le, FromLe, Pow256;
    var n := |numbers| - 1;
    var front, s := Fields(numbers[..n], width), Fields(numbers, width);
    assert s == front + Le(numbers[n], width);
    if k == n {
      assert s[n * width..n * width + width] == Le(numbers[n], width);
      LeRoundTrip(numbers[n], width);
    } else {
      FieldAt(numbers[..n], width, k);
      assert s[k * width..k * width + width] == front[k * width..k * width + width];
    }
  }

  lemma {:induction false} NumberInside(before: bytes, s: bytes, after: bytes, from: nat, width: nat)
    requires from + width <= |s|
    ensures Number(before + s + after, |before| + from, width) == Number(s, from, width)
  {
    assert (before + s + after)[|before| + from..|before| + from + width] == s[from..from + width];
  }

  // ----- Header -----

  function HeaderStart(h: Header): (s: bytes)
    ensures |s| == 40
  {
    GLOBAL_MAGIC + Le(MAJOR_VERSION, 2) + Le(MINOR_VERSION, 2) + Le(HEADER_LEN, 4) + Le(h.flags, 8)
      + Exactly(h.archiveId, ARCHIVE_ID_LEN)
  }

  function HeaderNumbers(h: Header): (n: seq<nat>)
    ensures |n| == 6
  {
    [h.originalTotalSize, h.entryCount, h.logicalChunkCount, h.groupCount, h.sectionDirectoryOffset, h.footerOffset]
  }

  /** The checksum covers everything but its own four bytes. */
  function HeaderCrc(crc: Crc, s: bytes): nat
    requires |s| == HEADER_LEN
  {
    crc(s[..88] + s[92..])
  }

  function HeaderBytes(crc: Crc, h: Header): (s: bytes)
    ensures |s| == HEADER_LEN
  {
    var front, tail := HeaderStart(h) + Fields(HeaderNumbers(h), 8), Le(h.sectionCount, 4);
    front + Le(crc(front + tail), 4) + tail
  }

  function ReadHeader(crc: Crc, s: bytes): Result<Header, PithosError>
    requires |s| == HEADER_LEN
  {
    if s[..8] != GLOBAL_MAGIC then Failure(InvalidMagic)
    else if Number(s, 88, 4) != HeaderCrc(crc, s) then Failure(ChecksumMismatch)
    else if Number(s, 12, 4) != HEADER_LEN || Number(s, 8, 2) != MAJOR_VERSION || Number(s, 10, 2) > MINOR_VERSION then
      Failure(UnsupportedContainerVersion)
    else
      Success(Header(Number(s, 16, 8), s[24..40], Number(s, 40, 8), Number(s, 48, 8), Number(s, 56, 8),
                     Number(s, 64, 8),
                     Number(s, 72, 8), Number(s, 80, 8), Number(s, 92, 4)))
  }

  lemma {:induction false} HeaderStartReads(h: Header, s: bytes)
    requires HeaderFits(h) && |s| == HEADER_LEN && s[..40] == HeaderStart(h)
    ensures s[..8] == GLOBAL_MAGIC && Number(s, 8, 2) == MAJOR_VERSION && Number(s, 10, 2) == MINOR_VERSION
    ensures Number(s, 12, 4) == HEADER_LEN
    ensures Number(s, 16, 8) == h.flags && s[24..40] == h.archiveId
  {
    var start := HeaderStart(h);
    Widths();
    assert s[8..10] == start[8..10] == Le(MAJOR_VERSION, 2) && s[10..12] == start[10..12] == Le(MINOR_VERSION, 2);
    assert s[12..16] == start[12..16] == Le(HEADER_LEN, 4) && s[16..24] == start[16..24] == Le(h.flags, 8);
    assert s[..8] == start[..8] && s[24..40] == start[24..40];
    LeRoundTrip(MAJOR_VERSION, 2);
    LeRoundTrip(MINOR_VERSION, 2);
    LeRoundTrip(HEADER_LEN, 4);
    LeRoundTrip(h.flags, 8);
  }

  lemma {:induction false} HeaderNumbersRead(h: Header, s: bytes, after: bytes, k: nat)
    requires HeaderFits(h) && k < 6 && s == HeaderStart(h) + Fields(HeaderNumbers(h), 8) + after
    ensures |s| >= 88 && Number(s, 40 + k * 8, 8) == HeaderNumbers(h)[k]
  {
    Widths();
    FieldAt(HeaderNumbers(h), 8, k);
    NumberInside(HeaderStart(h), Fields(HeaderNumbers(h), 8), after, k * 8, 8);
  }

  lemma {:induction false} ThreeParts(s: bytes, front: bytes, middle: bytes, tail: bytes)
    requires s == front + middle + tail
    ensures s[..|front|] == front && s[|front|..|front| + |middle|] == middle && s[|front| + |middle|..] == tail
    ensures s == front + (middle + tail)
  {
  }

  lemma {:induction false} HeaderRoundTrip(crc: Crc, h: Header)
    requires HeaderFits(h) && forall x :: crc(x) <= U32_MAX
    ensures ReadHeader(crc, HeaderBytes(crc, h)) == Success(h)
  {
    var front, tail, s := HeaderStart(h) + Fields(HeaderNumbers(h), 8), Le(h.sectionCount, 4), HeaderBytes(crc, h);
    var sum := crc(front + tail);
    ThreeParts(s, front, Le(sum, 4), tail);
    assert s[..40] == HeaderStart(h) by {
      assert front[..40] == HeaderStart(h);
    }
    HeaderStartReads(h, s);
    var after := Le(sum, 4) + tail;
    HeaderNumbersRead(h, s, after, 0);
    HeaderNumbersRead(h, s, after, 1);
    HeaderNumbersRead(h, s, after, 2);
    HeaderNumbersRead(h, s, after, 3);
    HeaderNumbersRead(h, s, after, 4);
    HeaderNumbersRead(h, s, after, 5);
    Widths();
    LeRoundTrip(sum, 4);
    LeRoundTrip(h.sectionCount, 4);
    assert s[92..96] == s[92..] == tail;
  }

  // ----- Footer -----

  function FooterStart(f: Footer): (s: bytes)
    ensures |s| == 56
  {
    FOOTER_MAGIC + Le(f.archiveLength, 8) + Exactly(f.blake3Root, HASH_LEN) + Le(f.directoryCrc32c, 4)
      + Le(f.version, 4) + [0, 0, 0, 0]
  }

  function FooterBytes(crc: Crc, f: Footer): (s: bytes)
    ensures |s| == FOOTER_LEN
  {
    FooterStart(f) + Le(crc(FooterStart(f) + [0, 0, 0, 0]), 4) + [0, 0, 0, 0]
  }

  function ReadFooter(crc: Crc, s: bytes): Result<Footer, PithosError>
    requires |s| == FOOTER_LEN
  {
    if s[..4] != FOOTER_MAGIC then Failure(InvalidMagic)
    else if Number(s, 56, 4) != crc(s[..56] + s[60..64]) then Failure(ChecksumMismatch)
    else Success(Footer(Number(s, 4, 8), s[12..44], Number(s, 44, 4), Number(s, 48, 4)))
  }

  lemma {:induction false} FooterRoundTrip(crc: Crc, f: Footer)
    requires FooterFits(f) && forall x :: crc(x) <= U32_MAX
    ensures ReadFooter(crc, FooterBytes(crc, f)) == Success(f)
  {
    var start, s, zeros: bytes := FooterStart(f), FooterBytes(crc, f), [0, 0, 0, 0];
    var sum := crc(start + zeros);
    ThreeParts(s, start, Le(sum, 4), zeros);
    assert s[60..64] == s[60..];
    assert s[..4] == start[..4] == FOOTER_MAGIC && s[4..12] == start[4..12] == Le(f.archiveLength, 8);
    assert s[12..44] == start[12..44] == f.blake3Root;
    assert s[44..48] == start[44..48] == Le(f.directoryCrc32c, 4) && s[48..52] == start[48..52] == Le(f.version, 4);
    Widths();
    LeRoundTrip(sum, 4);
    LeRoundTrip(f.archiveLength, 8);
    LeRoundTrip(f.directoryCrc32c, 4);
    LeRoundTrip(f.version, 4);
  }

  // ----- Section record -----

  function SectionBytes(r: SectionRecord): (s: bytes)
    ensures |s| == SECTION_ENTRY_LEN
  {
    Le(r.sectionType, 2) + Le(r.sectionVersion, 2) + Le(r.flags, 4) + Le(r.offset, 8) + Le(r.length, 8)
      + Le(r.crc32c, 4) + Le(r.reserved, 4)
  }

  function ReadSection(s: bytes): SectionRecord
    requires |s| == SECTION_ENTRY_LEN
  {
    SectionRecord(Number(s, 0, 2), Number(s, 2, 2), Number(s, 4, 4), Number(s, 8, 8), Number(s, 16, 8),
                  Number(s, 24, 4), Number(s, 28, 4))
  }

  lemma {:induction false} SectionRoundTrip(r: SectionRecord)
    requires SectionFits(r)
    ensures ReadSection(SectionBytes(r)) == r
  {
    var s := SectionBytes(r);
    assert s[0..2] == Le(r.sectionType, 2) && s[2..4] == Le(r.sectionVersion, 2) && s[4..8] == Le(r.flags, 4)
           && s[8..16] == Le(r.offset, 8);
    assert s[16..24] == Le(r.length, 8) && s[24..28] == Le(r.crc32c, 4) && s[28..32] == Le(r.reserved, 4);
    Widths();
    LeRoundTrip(r.sectionType, 2);
    LeRoundTrip(r.sectionVersion, 2);
    LeRoundTrip(r.flags, 4);
    LeRoundTrip(r.offset, 8);
    LeRoundTrip(r.length, 8);
    LeRoundTrip(r.crc32c, 4);
    LeRoundTrip(r.reserved, 4);
  }

  // ----- They are what the engine asks for -----

  /** `p` uses these encodings, with digests of the right size. */
  ghost predicate UsesFixedRecords(p: Primitives) {
    && (forall x :: p.crc32c(x) <= U32_MAX) && (forall x :: |p.blake3(x)| == HASH_LEN)
    && (forall h :: p.headerBytes(h) == HeaderBytes(p.crc32c, h))
    && (forall f :: p.footerBytes(f) == FooterBytes(p.crc32c, f))
    && (forall s :: p.sectionBytes(s) == SectionBytes(s))
    && (forall s | |s| == HEADER_LEN :: p.readHeader(s) == ReadHeader(p.crc32c, s))
    && (forall s | |s| == FOOTER_LEN :: p.readFooter(s) == ReadFooter(p.crc32c, s))
    && (forall s | |s| == SECTION_ENTRY_LEN :: p.readSection(s) == ReadSection(s))
  }

  /** With these encodings everything the archive theorems assume of the records holds. */
  lemma {:induction false} FixedRecordsAreSound(p: Primitives)
    requires UsesFixedRecords(p)
    ensures SoundRecords(p)
  {
    forall h | HeaderFits(h) ensures p.readHeader(p.headerBytes(h)) == Success(h) {
      HeaderRoundTrip(p.crc32c, h);
    }
    forall f | FooterFits(f) ensures p.readFooter(p.footerBytes(f)) == Success(f) {
      FooterRoundTrip(p.crc32c, f);
    }
    forall s | SectionFits(s) ensures p.readSection(p.sectionBytes(s)) == s {
      SectionRoundTrip(s);
    }
  }
}
