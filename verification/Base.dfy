/** Fixed-width integers, error values and sequence facts shared by every module. */
module Base {

  type u8 = x: int | 0 <= x < 0x100
  type u16 = x: int | 0 <= x < 0x1_0000
  type u32 = x: int | 0 <= x < 0x1_0000_0000
  type u64 = x: int | 0 <= x < 0x1_0000_0000_0000_0000

  const U16_MAX: int := 0xFFFF
  const U32_MAX: int := 0xFFFF_FFFF
  const U64_MAX: int := 0xFFFF_FFFF_FFFF_FFFF

  const KIB: nat := 1024
  const MIB: nat := 1024 * KIB

  type bytes = seq<u8>

  function Min(a: nat, b: nat): nat {
    if a < b then a else b
  }

  function Max(a: nat, b: nat): nat {
    if a < b then b else a
  }

  datatype Option<+T> = None | Some(value: T)

  datatype Result<+T, +E> = Success(value: T) | Failure(error: E) {
    predicate IsFailure() {
      Failure?
    }

    function PropagateFailure<U>(): Result<U, E>
      requires Failure?
    {
      Failure(error)
    }

    function Extract(): T
      requires Success?
    {
      value
    }
  }

  /** The errors of `pithos-core` that the modelled code can return. */
  datatype PithosError =
    | InvalidMagic
    | UnsupportedCodec
    | UnsupportedContainerVersion
    | InvalidRange
    | IntegerOverflow
    | OverlappingSections
    | DuplicateSection
    | MissingSection(sectionType: nat)
    | ChecksumMismatch
    | HashMismatch
    | DependencyCycle
    | InvalidMetadata(what: string)
    | UnsafePath
    | UnsafeSymlink
    | ResourceLimit(what: string)
    | MemoryLimit
    | OutputExists
    | TemporarySpaceLimit
    | Cancelled
    | Io

  ghost predicate NoDuplicates<T>(s: seq<T>) {
    forall i, j | 0 <= i < j < |s| :: s[i] != s[j]
  }

  ghost function SetOf<T>(s: seq<T>): set<T> {
    set x | x in s
  }

  lemma {:induction false} SetOfSize<T>(s: seq<T>)
    ensures |SetOf(s)| <= |s|
    ensures |SetOf(s)| == |s| <==> NoDuplicates(s)
  {
    if s == [] {
    } else {
      var n := |s| - 1;
      var front, last := s[..n], s[n];
      SetOfSize(front);
      assert SetOf(s) == SetOf(front) + {last};
      if last in front {
        assert SetOf(s) == SetOf(front);
        var i :| 0 <= i < n && front[i] == last;
        assert s[i] == s[n];
      } else {
        assert NoDuplicates(s) <==> NoDuplicates(front);
      }
    }
  }

  lemma {:induction false} SubsetOfSameSize<T>(a: set<T>, b: set<T>)
    requires a <= b && |a| == |b|
    ensures a == b
  {
    assert b == a + (b - a);
  }

  /** A part has no more elements than the whole. */
  lemma {:induction false} SubsetHasNoMore<T>(a: set<T>, b: set<T>)
    requires a <= b
    ensures |a| <= |b|
  {
    assert b == a + (b - a);
  }

  lemma {:induction false} ConcatNoDuplicates<T>(a: seq<T>, b: seq<T>)
    requires NoDuplicates(a) && NoDuplicates(b) && forall x | x in b :: x !in a
    ensures NoDuplicates(a + b)
  {
    forall i, j | 0 <= i < j < |a + b| ensures (a + b)[i] != (a + b)[j] {
      if i < |a| <= j {
        assert (a + b)[j] in b;
      }
    }
  }

  /** Multiplicity one and two, as positions. */
  lemma {:induction false} TwoCopies<T>(s: seq<T>, x: T)
    ensures multiset(s)[x] >= 2 <==> exists i, j :: 0 <= i < j < |s| && s[i] == x && s[j] == x
    ensures multiset(s)[x] >= 1 <==> exists i :: 0 <= i < |s| && s[i] == x
  {
    if s != [] {
      var n := |s| - 1;
      TwoCopies(s[..n], x);
      assert s == s[..n] + [s[n]];
      if multiset(s)[x] >= 2 && s[n] == x {
        var i :| 0 <= i < |s[..n]| && s[..n][i] == x;
        assert s[i] == x && s[n] == x;
      }
      if multiset(s)[x] >= 2 && s[n] != x {
        var i, j :| 0 <= i < j < |s[..n]| && s[..n][i] == x && s[..n][j] == x;
        assert s[i] == x && s[j] == x;
      }
      if i, j :| 0 <= i < j < |s| && s[i] == x && s[j] == x {
        assert s[..n][i] == x;
        assert j < n ==> s[..n][j] == x;
      }
    }
  }
}
