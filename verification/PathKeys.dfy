/** Archive paths: the sort key that identifies a path, and the check that a link target stays inside. */
module LittleEndian {
  import opened Base

  function Le(n: nat, width: nat): (s: bytes)
    ensures |s| == width
  {
    if width == 0 then [] else [n % 0x100] + Le(n / 0x100, width - 1)
  }

  function FromLe(s: bytes): nat {
    if s == [] then 0 else s[0] + 0x100 * FromLe(s[1..])
  }

  function Pow256(k: nat): nat {
    if k == 0 then 1 else 0x100 * Pow256(k - 1)
  }

  lemma {:induction false} LeRoundTrip(n: nat, width: nat)
    requires n < Pow256(width)
    ensures FromLe(Le(n, width)) == n
  {
    if width > 0 {
      LeRoundTrip(n / 0x100, width - 1);
      assert Le(n, width)[1..] == Le(n / 0x100, width - 1);
    }
  }

  lemma {:induction false} Widths()
    ensures Pow256(2) == 0x1_0000 && Pow256(4) == 0x1_0000_0000 && Pow256(8) == 0x1_0000_0000_0000_0000
  {
    assert Pow256(4) == 0x100 * (0x100 * Pow256(2));
    assert Pow256(6) == 0x100 * (0x100 * Pow256(4));
    assert Pow256(8) == 0x100 * (0x100 * Pow256(6));
  }
}

module PathKeys {
  import opened Base
  import opened LittleEndian

  datatype PathEncoding = Utf8 | UnixBytes | WindowsUtf16Le

  /** A byte vector: its length is a machine word. */
  type Buffer = s: bytes | |s| <= U64_MAX witness []

  datatype PathComponent = PathComponent(encoding: PathEncoding, data: Buffer)

  type ArchivePath = seq<PathComponent>

  datatype LinkComponent = Parent | Normal(component: PathComponent)

  type LinkTarget = seq<LinkComponent>

  // ----- The sort key -----

  function EncodingByte(e: PathEncoding): u8 {
    match e
    case Utf8 => 0
    case UnixBytes => 1
    case WindowsUtf16Le => 2
  }

  function ComponentKey(c: PathComponent): bytes {
    [EncodingByte(c.encoding)] + Le(|c.data|, 8) + c.data
  }

  function SortKey(path: ArchivePath): bytes {
    if path == [] then [] else ComponentKey(path[0]) + SortKey(path[1..])
  }

  lemma {:induction false} ThreeAppends(before: bytes, a: bytes, b: bytes, c: bytes)
    ensures before + a + b + c == before + (a + b + c)
  {
  }

  lemma {:induction false} KeyStep(before: bytes, path: ArchivePath, i: nat)
    requires i < |path|
    ensures before + SortKey(path[i..]) == before + ComponentKey(path[i]) + SortKey(path[i + 1..])
  {
    assert path[i..][1..] == path[i + 1..];
    var key, rest := ComponentKey(path[i]), SortKey(path[i + 1..]);
    assert SortKey(path[i..]) == key + rest;
    assert before + (key + rest) == before + key + rest;
  }

  method BuildSortKey(path: ArchivePath) returns (key: bytes)
    ensures key == SortKey(path)
  {
    key := [];
    for i := 0 to |path|
      invariant key + SortKey(path[i..]) == SortKey(path)
    {
      KeyStep(key, path, i);
      ghost var before := key;
      key := key + [EncodingByte(path[i].encoding)];
      key := key + Le(|path[i].data|, 8);
      key := key + path[i].data;
      ThreeAppends(before, [EncodingByte(path[i].encoding)], Le(|path[i].data|, 8), path[i].data);
    }
  }

  lemma {:induction false} FirstComponentIsDetermined(c: PathComponent, restC: bytes, d: PathComponent, restD: bytes)
    requires ComponentKey(c) + restC == ComponentKey(d) + restD
    ensures c == d && restC == restD
  {
    var s, t := ComponentKey(c) + restC, ComponentKey(d) + restD;
    assert s[0] == EncodingByte(c.encoding) && t[0] == EncodingByte(d.encoding);
    assert s[1..9] == Le(|c.data|, 8) && t[1..9] == Le(|d.data|, 8);
    Widths();
    LeRoundTrip(|c.data|, 8);
    LeRoundTrip(|d.data|, 8);
    assert s[9..9 + |c.data|] == c.data && t[9..9 + |d.data|] == d.data;
    assert s[9 + |c.data|..] == restC && t[9 + |d.data|..] == restD;
  }

  /** Two paths have the same key exactly when they are the same path, so comparing keys compares paths. */
  lemma {:induction false} SortKeyIsInjective(p: ArchivePath, q: ArchivePath)
    ensures SortKey(p) == SortKey(q) <==> p == q
  {
    if SortKey(p) == SortKey(q) && p != [] && q != [] {
      FirstComponentIsDetermined(p[0], SortKey(p[1..]), q[0], SortKey(q[1..]));
      SortKeyIsInjective(p[1..], q[1..]);
      assert p == [p[0]] + p[1..] && q == [q[0]] + q[1..];
    }
  }

  // ----- Link targets -----

  /** Walking the target from a directory `depth` levels below the root never leaves the root. */
  predicate StaysInside(depth: nat, target: LinkTarget)
    decreases |target|
  {
    target == []
    || (match target[0]
        case Parent => depth > 0 && StaysInside(depth - 1, target[1..])
        case Normal(_) => StaysInside(depth + 1, target[1..]))
  }

  predicate ResolvesWithin(target: LinkTarget, link: ArchivePath) {
    StaysInside(if link == [] then 0 else |link| - 1, target)
  }

  method CheckResolvesWithin(target: LinkTarget, link: ArchivePath) returns (inside: bool)
    ensures inside == ResolvesWithin(target, link)
  {
    var depth := if |link| == 0 then 0 else |link| - 1;
    for i := 0 to |target|
      invariant depth >= 0 && StaysInside(depth, target[i..]) == ResolvesWithin(target, link)
    {
      assert target[i..][1..] == target[i + 1..];
      match target[i] {
        case Parent =>
          if depth == 0 {
            return false;
          }
          depth := depth - 1;
        case Normal(_) =>
          depth := depth + 1;
      }
    }
    inside := true;
  }

  /** The place a target names when read from `directory`; `None` once it climbs above the root. */
  function Resolve(directory: ArchivePath, target: LinkTarget): Option<ArchivePath>
    decreases |target|
  {
    if target == [] then Some(directory)
    else match target[0]
      case Parent => if directory == [] then None else Resolve(directory[..|directory| - 1], target[1..])
      case Normal(c) => Resolve(directory + [c], target[1..])
  }

  function DirectoryOf(path: ArchivePath): ArchivePath {
    if path == [] then [] else path[..|path| - 1]
  }

  lemma {:induction false} StaysInsideResolves(directory: ArchivePath, target: LinkTarget)
    ensures StaysInside(|directory|, target) <==> Resolve(directory, target).Some?
    decreases |target|
  {
    if target != [] {
      match target[0]
      case Parent =>
        if directory != [] {
          StaysInsideResolves(directory[..|directory| - 1], target[1..]);
        }
      case Normal(c) => StaysInsideResolves(directory + [c], target[1..]);
    }
  }

  /**
   The depth count accepts exactly the targets that, read from the link's own directory, name a place inside the root.
   */
  lemma {:induction false} ResolvesWithinIsExact(target: LinkTarget, link: ArchivePath)
    ensures ResolvesWithin(target, link) <==> Resolve(DirectoryOf(link), target).Some?
  {
    StaysInsideResolves(DirectoryOf(link), target);
  }
}
