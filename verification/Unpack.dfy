/** Unpacking into a fresh directory tree, and the round trip from scanned entries to that tree. */
module Unpack {
  import opened Base
  import opened PathKeys
  import opened ArchiveFormat
  import opened CatalogRules
  import opened ArchiveReader
  import opened ArchiveContents
  import opened StagingTree
  import opened PackedTables
  import opened ArchiveRoundTrip
  import opened ArchiveRestore

  /** The node entry `i` stands for. */
  function NodeOf(p: Primitives, file: bytes, limits: DecodeLimits, t: Tables, i: nat): Node
    requires i < |t.entries|
  {
    var content := match EntryBytes(p, file, limits, t, i) { case Success(b) => b case Failure(_) => [] };
    match t.entries[i].kind
    case Directory => DirectoryNode
    case Symlink(target, isDir) => LinkNode(target, isDir)
    case File(_) => FileNode(content, i, t.entries[i].mode)
    case Hardlink(target) => FileNode(content, target, if target < |t.entries| then t.entries[target].mode else 0)
  }

  /** Directories come first, then files, then hardlinks, then symlinks. */
  function Pass(kind: EntryKind): nat {
    match kind
    case Directory => 0
    case File(_) => 1
    case Hardlink(_) => 2
    case Symlink(_, _) => 3
  }

  predicate Done(t: Tables, pass: nat, n: nat, i: nat)
    requires i < |t.entries|
  {
    Pass(t.entries[i].kind) < pass || (Pass(t.entries[i].kind) == pass && i < n)
  }

  ghost function DoneSet(t: Tables, pass: nat, n: nat): (done: set<nat>)
    ensures forall i: nat :: i in done <==> i < |t.entries| && Done(t, pass, n, i)
  {
    set i | 0 <= i < |t.entries| && Done(t, pass, n, i)
  }

  function ItemOf(p: Primitives, file: bytes, limits: DecodeLimits, t: Tables, i: nat): Item
    requires i < |t.entries|
  {
    Item(Native(p, t.entries[i].path), NodeOf(p, file, limits, t, i))
  }

  function ItemsOf(p: Primitives, file: bytes, limits: DecodeLimits, t: Tables): (items: seq<Item>)
    ensures |items| == |t.entries| && forall i | 0 <= i < |items| :: items[i] == ItemOf(p, file, limits, t, i)
  {
    seq(|t.entries|, i requires 0 <= i < |t.entries| => ItemOf(p, file, limits, t, i))
  }

  /** The tree holds exactly the entries done so far, and the file system took their names. */
  ghost predicate TreeOk(p: Primitives, file: bytes, limits: DecodeLimits, t: Tables, tree: Tree, pass: nat, n: nat) {
    Holds(ItemsOf(p, file, limits, t), DoneSet(t, pass, n), tree) && DoneTaken(p, t, pass, n)
  }

  /** The file system takes the path of entry `i`, and its target if it is a link. */
  predicate EntryTaken(p: Primitives, t: Tables, i: nat)
    requires i < |t.entries|
  {
    var e := t.entries[i];
    PrefixesTaken(p, Native(p, e.path), |e.path|) && (e.kind.Symlink? ==> TargetTaken(p, e.kind.target))
  }

  ghost predicate DoneTaken(p: Primitives, t: Tables, pass: nat, n: nat) {
    forall i | i in DoneSet(t, pass, n) :: EntryTaken(p, t, i)
  }

  ghost predicate NamesTaken(p: Primitives, t: Tables) {
    forall i | 0 <= i < |t.entries| :: EntryTaken(p, t, i)
  }

  /** The entries have names the file system takes, and fit into one directory tree. */
  ghost predicate Placeable(p: Primitives, t: Tables) {
    TreeShaped(p, t) && NamesTaken(p, t)
  }

  lemma {:induction false} ItemTaken(p: Primitives, file: bytes, limits: DecodeLimits, t: Tables, i: nat)
    requires i < |t.entries|
    ensures Taken(p, ItemOf(p, file, limits, t, i)) <==> EntryTaken(p, t, i)
  {
    hide EntryBytes, PrefixesTaken, TargetTaken;
  }

  /** Entry `i` is no directory, and entry `j` belongs at its place or below it. */
  predicate Conflict(p: Primitives, t: Tables, i: nat, j: nat)
    requires i < |t.entries| && j < |t.entries|
  {
    i != j && !t.entries[i].kind.Directory? && Native(p, t.entries[i].path) <= Native(p, t.entries[j].path)
  }

  /** The entries fit into one directory tree. */
  ghost predicate TreeShaped(p: Primitives, t: Tables) {
    forall i, j | 0 <= i < |t.entries| && 0 <= j < |t.entries| :: !Conflict(p, t, i, j)
  }

  /** A symlink entry belongs below an earlier symlink entry. */
  predicate LinkBelowLink(p: Primitives, t: Tables, i: nat, j: nat)
    requires i < |t.entries| && j < |t.entries|
  {
    && i < j && t.entries[i].kind.Symlink? && t.entries[j].kind.Symlink?
    && Native(p, t.entries[i].path) < Native(p, t.entries[j].path)
  }

  lemma {:induction false} BlockingIsConflict(p: Primitives, file: bytes, limits: DecodeLimits, t: Tables, i: nat,
                                              j: nat)
    requires i < |t.entries| && j < |t.entries| && i != j && t.entries[i].path != []
    ensures Blocks(ItemOf(p, file, limits, t, i), ItemOf(p, file, limits, t, j)) <==> Conflict(p, t, i, j)
  {
    hide EntryBytes;
    assert |Native(p, t.entries[i].path)| > 0;
  }

  /** Entry `n` is the next one done in its pass. */
  lemma {:induction false} DoneNext(t: Tables, pass: nat, n: nat)
    requires n < |t.entries| && Pass(t.entries[n].kind) == pass
    ensures n !in DoneSet(t, pass, n) && DoneSet(t, pass, n + 1) == DoneSet(t, pass, n) + {n}
  {
  }

  lemma {:induction false} DoneSkips(t: Tables, pass: nat, n: nat)
    requires n <= |t.entries| && (n < |t.entries| ==> Pass(t.entries[n].kind) != pass)
    ensures n < |t.entries| ==> DoneSet(t, pass, n + 1) == DoneSet(t, pass, n)
    ensures n == |t.entries| ==> DoneSet(t, pass + 1, 0) == DoneSet(t, pass, n)
  {
    if n == |t.entries| {
      assert DoneSet(t, pass + 1, 0) == DoneSet(t, pass, n);
    } else {
      assert DoneSet(t, pass, n + 1) == DoneSet(t, pass, n);
    }
  }

  lemma {:induction false} NodePlaced(p: Primitives, file: bytes, limits: DecodeLimits, t: Tables, tree: Tree,
                                      pass: nat, n: nat, tree': Tree)
    requires n < |t.entries| && Pass(t.entries[n].kind) == pass && TreeOk(p, file, limits, t, tree, pass, n)
    requires var item := ItemOf(p, file, limits, t, n);
      PlacedAt(tree, item.path, item.node, tree') && Allowed(tree, item) && Taken(p, item)
    ensures TreeOk(p, file, limits, t, tree', pass, n + 1)
  {
    hide NodeOf, PlacedAt, Allowed, Holds, DoneSet, Taken, EntryTaken;
    DoneNext(t, pass, n);
    ItemTaken(p, file, limits, t, n);
    OneMoreItem(ItemsOf(p, file, limits, t), DoneSet(t, pass, n), tree, n, tree');
  }

  /** What stands in the way of entry `n` is an entry that conflicts with it; a link above it is an earlier symlink. */
  lemma {:induction false} NodeObstructed(p: Primitives, file: bytes, limits: DecodeLimits, t: Tables, tree: Tree,
                                          pass: nat, n: nat, at: NativePath)
    requires n < |t.entries| && Pass(t.entries[n].kind) == pass && TreeOk(p, file, limits, t, tree, pass, n)
    requires (forall i | 0 <= i < |t.entries| :: t.entries[i].path != []) && at in tree
    requires InTheWay(tree, ItemOf(p, file, limits, t, n), at)
    ensures !TreeShaped(p, t)
    ensures tree[at].LinkNode? && at != Native(p, t.entries[n].path) ==>
              exists i :: 0 <= i < |t.entries| && LinkBelowLink(p, t, i, n)
  {
    hide EntryBytes, Holds, Blocks;
    DoneNext(t, pass, n);
    var i := Obstruction(ItemsOf(p, file, limits, t), DoneSet(t, pass, n), tree, n, at);
    BlockingIsConflict(p, file, limits, t, i, n);
    BlockingIsConflict(p, file, limits, t, n, i);
    if tree[at].LinkNode? && at != Native(p, t.entries[n].path) {
      assert t.entries[i].kind.Symlink? && Done(t, pass, n, i);
      assert LinkBelowLink(p, t, i, n);
    }
  }

  /** The node of entry `n`; a hardlink takes over the node its target already has. */
  method MakeNode(p: Primitives, file: bytes, limits: DecodeLimits, t: Tables, tree: Tree, n: nat)
    returns (r: Result<Node, PithosError>)
    requires n < |t.entries|
    requires HasBytes(t.entries[n]) ==> EntryBytes(p, file, limits, t, n).Success?
    requires t.entries[n].kind.Hardlink? ==>
               var target := t.entries[n].kind.targetEntryId;
               target < |t.entries| && Stands(tree,
                                              Item(Native(p, t.entries[target].path), NodeOf(p, file, limits, t, n)))
    requires t.entries[n].kind.Symlink? ==> ResolvesWithin(t.entries[n].kind.target, t.entries[n].path)
    ensures r == Success(NodeOf(p, file, limits, t, n))
  {
    match t.entries[n].kind {
      case Directory =>
        return Success(DirectoryNode);
      case File(_) =>
        var content := EntryBytes(p, file, limits, t, n);
        return Success(FileNode(content.value, n, t.entries[n].mode));
      case Hardlink(target) =>
        return Success(tree[Native(p, t.entries[target].path)]);
      case Symlink(target, isDir) =>
        var inside := CheckResolvesWithin(target, t.entries[n].path);
        return if inside then Success(LinkNode(target, isDir)) else Failure(UnsafeSymlink);
    }
  }

  /** A hardlink reads the same bytes as its target. */
  lemma {:induction false} HardlinkNode(p: Primitives, file: bytes, limits: DecodeLimits, c: Catalog, n: nat)
    requires Verified(p, file, limits, c) && n < |c.tables.entries| && c.tables.entries[n].kind.Hardlink?
    ensures var t := c.tables;
      var target := t.entries[n].kind.targetEntryId;
      target < n && t.entries[target].kind.File? && NodeOf(p, file, limits, t, target) == NodeOf(p, file, limits, t, n)
  {
    assert EntryOk(p, limits, c.tables, n);
    var target := c.tables.entries[n].kind.targetEntryId;
    assert EntryOk(p, limits, c.tables, target);
    assert Located(c.tables, target) == Located(c.tables, n);
  }

  /**
   What unpacking comes to: every entry at its own path; an entry that belongs below a link, where the link decides what
   happens; or an error.
   */
  datatype Unpacking = Restored(tree: Tree) | BelowLink(link: NativePath, path: NativePath)
    | Refused(error: PithosError)

  /** The directories above an entry, and then the entry itself. */
  method PlaceEntry(p: Primitives, file: bytes, limits: DecodeLimits, c: Catalog, tree: Tree, pass: nat, n: nat)
    returns (r: Unpacking)
    requires SoundCodecs(p) && Verified(p, file, limits, c) && n < |c.tables.entries|
    requires Pass(c.tables.entries[n].kind) == pass
    requires TreeOk(p, file, limits, c.tables, tree, pass, n)
    ensures r.Restored? ==> TreeOk(p, file, limits, c.tables, r.tree, pass, n + 1)
    ensures r.Refused? ==> !Placeable(p, c.tables)
    ensures r.BelowLink? ==>
              !Placeable(p, c.tables) && exists i :: 0 <= i < |c.tables.entries| && LinkBelowLink(p, c.tables, i, n)
  {
    hide *;
    NodeIsReady(p, file, limits, c, tree, pass, n);
    PathsAreNonempty(p, file, limits, c);
    var t := c.tables;
    var node := MakeNode(p, file, limits, t, tree, n);
    var item := Item(Native(p, t.entries[n].path), node.value);
    ItemFields(p, file, limits, t, n);
    var placing := PlaceItem(p, tree, item);
    if placing.Placed? {
      NodePlaced(p, file, limits, t, tree, pass, n, placing.tree);
      return Restored(placing.tree);
    }
    if placing.Untaken? {
      NodeUntaken(p, file, limits, t, n);
      return Refused(PithosError.Io);
    }
    NotShaped(p, t);
    NodeObstructed(p, file, limits, t, tree, pass, n, placing.at);
    if tree[placing.at].LinkNode? && placing.at != item.path {
      return BelowLink(placing.at, item.path);
    }
    return Refused(PithosError.Io);
  }

  lemma {:induction false} NodeUntaken(p: Primitives, file: bytes, limits: DecodeLimits, t: Tables, n: nat)
    requires n < |t.entries| && !Taken(p, ItemOf(p, file, limits, t, n))
    ensures !Placeable(p, t)
  {
    hide Taken, EntryTaken;
    ItemTaken(p, file, limits, t, n);
  }

  lemma {:induction false} NotShaped(p: Primitives, t: Tables)
    ensures !TreeShaped(p, t) ==> !Placeable(p, t)
  {
  }

  lemma {:induction false} PathsAreNonempty(p: Primitives, file: bytes, limits: DecodeLimits, c: Catalog)
    requires Verified(p, file, limits, c)
    ensures forall i | 0 <= i < |c.tables.entries| :: c.tables.entries[i].path != []
  {
    forall i | 0 <= i < |c.tables.entries| ensures c.tables.entries[i].path != [] {
      assert EntryOk(p, limits, c.tables, i);
    }
  }

  lemma {:induction false} ItemFields(p: Primitives, file: bytes, limits: DecodeLimits, t: Tables, i: nat)
    requires i < |t.entries|
    ensures ItemOf(p, file, limits, t, i) == Item(Native(p, t.entries[i].path), NodeOf(p, file, limits, t, i))
    ensures |Native(p, t.entries[i].path)| == |t.entries[i].path|
  {
  }

  /** One of the four loops over the entries. */
  method UnpackPass(p: Primitives, file: bytes, limits: DecodeLimits, c: Catalog, tree: Tree, pass: nat)
    returns (r: Unpacking)
    requires SoundCodecs(p) && Verified(p, file, limits, c) && TreeOk(p, file, limits, c.tables, tree, pass, 0)
    ensures r.Restored? ==> TreeOk(p, file, limits, c.tables, r.tree, pass + 1, 0)
    ensures !r.Restored? ==> !Placeable(p, c.tables)
    ensures r.BelowLink? ==> HasLinkBelowLink(p, c.tables)
  {
    hide Holds, ItemsOf, Verified, SoundCodecs, Placeable, LinkBelowLink, DoneSet, EntryTaken;
    var t, now := c.tables, tree;
    for n := 0 to |t.entries|
      invariant TreeOk(p, file, limits, t, now, pass, n)
    {
      if Pass(t.entries[n].kind) == pass {
        r := PlaceEntry(p, file, limits, c, now, pass, n);
        if !r.Restored? {
          return;
        }
        now := r.tree;
      } else {
        DoneSkips(t, pass, n);
      }
    }
    DoneSkips(t, pass, |t.entries|);
    return Restored(now);
  }

  ghost predicate HasLinkBelowLink(p: Primitives, t: Tables) {
    exists i, j :: 0 <= i < |t.entries| && 0 <= j < |t.entries| && LinkBelowLink(p, t, i, j)
  }

  lemma {:induction false} NodeIsReady(p: Primitives, file: bytes, limits: DecodeLimits, c: Catalog, tree: Tree,
                                       pass: nat, n: nat)
    requires SoundCodecs(p) && Verified(p, file, limits, c) && n < |c.tables.entries|
    requires TreeOk(p, file, limits, c.tables, tree, pass, n) && Pass(c.tables.entries[n].kind) == pass
    ensures var t := c.tables;
      && (HasBytes(t.entries[n]) ==> EntryBytes(p, file, limits, t, n).Success?)
      && (t.entries[n].kind.Hardlink? ==>
            var target := t.entries[n].kind.targetEntryId;
            target < |t.entries| && Stands(tree,
                                           Item(Native(p, t.entries[target].path), NodeOf(p, file, limits, t, n))))
      && (t.entries[n].kind.Symlink? ==> ResolvesWithin(t.entries[n].kind.target, t.entries[n].path))
  {
    var t := c.tables;
    assert EntryOk(p, limits, t, n);
    hide TreeOk, EntryBytes, NodeOf, Stands, Verified;
    if HasBytes(t.entries[n]) {
      VerifiedEntriesAreReadable(p, file, limits, c, n);
    }
    if t.entries[n].kind.Hardlink? {
      TargetStands(p, file, limits, c, tree, pass, n);
    }
  }

  /** The file a hardlink names has been placed in an earlier pass. */
  lemma {:induction false} TargetStands(p: Primitives, file: bytes, limits: DecodeLimits, c: Catalog, tree: Tree,
                                        pass: nat, n: nat)
    requires Verified(p, file, limits, c) && n < |c.tables.entries| && c.tables.entries[n].kind.Hardlink?
    requires TreeOk(p, file, limits, c.tables, tree, pass, n) && Pass(c.tables.entries[n].kind) == pass
    ensures var t := c.tables;
      var target := t.entries[n].kind.targetEntryId;
      target < |t.entries| && Stands(tree, Item(Native(p, t.entries[target].path), NodeOf(p, file, limits, t, n)))
  {
    HardlinkNode(p, file, limits, c, n);
    hide Verified, NodeOf, Stands, HasParents, AllExplained, NoneBlocks;
    var target := c.tables.entries[n].kind.targetEntryId;
    assert Done(c.tables, pass, n, target) && target in DoneSet(c.tables, pass, n);
  }

  /** The finished tree: exactly the entries of the catalog, and the directories above them. */
  ghost predicate Unpacked(p: Primitives, file: bytes, limits: DecodeLimits, t: Tables, tree: Tree) {
    TreeOk(p, file, limits, t, tree, 4, 0)
  }

  lemma {:induction false} AllDone(t: Tables, i: nat)
    requires i < |t.entries|
    ensures i in DoneSet(t, 4, 0)
  {
  }

  /** Everything could be placed, so nothing was in the way and every name was taken. */
  lemma {:induction false} UnpackedIsShaped(p: Primitives, file: bytes, limits: DecodeLimits, t: Tables, tree: Tree)
    requires Unpacked(p, file, limits, t, tree)
    ensures Placeable(p, t)
  {
    hide EntryTaken;
    var items, done := ItemsOf(p, file, limits, t), DoneSet(t, 4, 0);
    forall i | 0 <= i < |t.entries| ensures EntryTaken(p, t, i) {
      AllDone(t, i);
    }
    forall i, j | 0 <= i < |t.entries| && 0 <= j < |t.entries| ensures !Conflict(p, t, i, j) {
      AllDone(t, i);
      AllDone(t, j);
      assert AllStand(items, done, tree) && NoneBlocks(items, done);
      if i != j {
        assert items[i].path != [] && !Blocks(items[i], items[j]);
        BlockingIsConflict(p, file, limits, t, i, j);
      }
    }
  }

  /**
   Whether an archive can be unpacked entry by entry: it verifies, fits the staging limit, its entries form a tree, and
   the file system takes their names and link targets.
   */
  ghost predicate Unpackable(p: Primitives, file: bytes, limits: DecodeLimits, maxTempBytes: nat, c: Catalog) {
    Verified(p, file, limits, c) && c.header.originalTotalSize <= maxTempBytes && Placeable(p, c.tables)
  }

  /**
   Unpacking puts every entry at its own path exactly for archives that verify, fit the staging limit, and whose entries
   form a tree of names and link targets that the file system takes. It is only left open what becomes of a symlink
   entry that belongs below an earlier symlink entry.
   */
  method UnpackArchive(p: Primitives, file: bytes, limits: DecodeLimits, maxTempBytes: nat)
    returns (r: Unpacking, ghost c: Catalog)
    requires SoundCodecs(p) && |file| <= U64_MAX
    ensures r.Restored? ==> Unpackable(p, file, limits, maxTempBytes, c) && Unpacked(p, file, limits, c.tables, r.tree)
    ensures !r.Restored? ==> forall d :: !Unpackable(p, file, limits, maxTempBytes, d)
    ensures r.BelowLink? ==> Verified(p, file, limits, c) && HasLinkBelowLink(p, c.tables)
  {
    hide NodeOf, EntryBytes;
    var verified := VerifyOpenFile(p, file, limits);
    if verified.Failure? {
      c := Catalog(Header(0, [], 0, 0, 0, 0, 0, 0, 0), Footer(0, [], 0, 0), [], Tables([], [], [], [], [], None));
      return Refused(verified.error), c;
    }
    c := verified.value;
    OnlyOneCatalog(p, file, limits, c);
    if verified.value.header.originalTotalSize > maxTempBytes {
      return Refused(ResourceLimit("unpack temporary bytes")), c;
    }
    r := UnpackPasses(p, file, limits, verified.value);
    if r.Restored? {
      UnpackedIsShaped(p, file, limits, c.tables, r.tree);
    }
  }

  lemma {:induction false} OnlyOneCatalog(p: Primitives, file: bytes, limits: DecodeLimits, c: Catalog)
    requires Verified(p, file, limits, c)
    ensures forall d | Verified(p, file, limits, d) :: d == c
  {
    forall d | Verified(p, file, limits, d) ensures d == c {
      CatalogIsUnique(p, file, limits, c, d);
    }
  }

  method UnpackPasses(p: Primitives, file: bytes, limits: DecodeLimits, c: Catalog) returns (r: Unpacking)
    requires SoundCodecs(p) && Verified(p, file, limits, c)
    ensures r.Restored? ==> Unpacked(p, file, limits, c.tables, r.tree)
    ensures !r.Restored? ==> !Placeable(p, c.tables)
    ensures r.BelowLink? ==> HasLinkBelowLink(p, c.tables)
  {
    hide ItemsOf, Verified, SoundCodecs, Placeable, LinkBelowLink, EntryTaken;
    r := Restored(map[]);
    assert DoneSet(c.tables, 0, 0) == {};
    NothingHeld(ItemsOf(p, file, limits, c.tables));
    for pass := 0 to 4
      invariant r.Restored? && TreeOk(p, file, limits, c.tables, r.tree, pass, 0)
    {
      r := UnpackPass(p, file, limits, c, r.tree, pass);
      if !r.Restored? {
        return;
      }
    }
  }

  // ----- The round trip -----

  /** The tree the scanned entries came from. */
  function ScannedNode(scanned: seq<ScannedEntry>, i: nat): Node
    requires i < |scanned|
  {
    match scanned[i].kind
    case ScannedDirectory => DirectoryNode
    case ScannedSymlink(target, isDir) => LinkNode(target, isDir)
    case ScannedFile(content, _) => FileNode(content, Leader(scanned, i), scanned[Leader(scanned, i)].mode)
  }

  /** The parts of an entry record that unpacking looks at. */
  lemma {:induction false} EntryFields(p: Primitives, scanned: seq<ScannedEntry>, ends: seq<nat>, e: EntryRecord,
                                       i: nat)
    requires i < |scanned| && e == EntryFor(p, scanned, ends, i)
    ensures e.path == scanned[i].path && e.mode == scanned[i].mode
    ensures scanned[i].kind.ScannedDirectory? ==> e.kind == Directory
    ensures scanned[i].kind.ScannedSymlink? ==> e.kind == Symlink(scanned[i].kind.target, scanned[i].kind.targetIsDir)
    ensures scanned[i].kind.ScannedFile? ==>
              if Leader(scanned, i) == i then e.kind.File? else e.kind == Hardlink(Leader(scanned, i))
  {
  }

  lemma {:induction false} NodeOfFields(p: Primitives, file: bytes, limits: DecodeLimits, t: Tables,
                                        scanned: seq<ScannedEntry>, i: nat)
    requires i < |scanned| == |t.entries|
    requires t.entries[i].mode == scanned[i].mode
    requires t.entries[Leader(scanned, i)].mode == scanned[Leader(scanned, i)].mode
    requires scanned[i].kind.ScannedDirectory? ==> t.entries[i].kind == Directory
    requires scanned[i].kind.ScannedSymlink? ==>
               t.entries[i].kind == Symlink(scanned[i].kind.target, scanned[i].kind.targetIsDir)
    requires scanned[i].kind.ScannedFile? ==>
               if Leader(scanned, i) == i then t.entries[i].kind.File?
                 else t.entries[i].kind == Hardlink(Leader(scanned, i))
    requires scanned[i].kind.ScannedFile? ==> EntryBytes(p, file, limits, t, i) == Success(Content(scanned, i))
    ensures NodeOf(p, file, limits, t, i) == ScannedNode(scanned, i)
  {
  }

  lemma {:induction false} PackedNode(p: Primitives, limits: DecodeLimits, scanned: seq<ScannedEntry>, layout: Layout,
                                      t: Tables, file: bytes, i: nat)
    requires SoundCodecs(p) && SoundRecords(p) && ScanOk(p, limits, scanned) && LayoutOk(scanned, layout)
    requires AllGroupsFit(p, limits, scanned, layout) && i < |scanned|
    requires t == TablesFor(p, scanned, layout) && file == PackedFile(p, scanned, layout)
    ensures t.entries[i].path == scanned[i].path && NodeOf(p, file, limits, t, i) == ScannedNode(scanned, i)
  {
    EntryFields(p, scanned, layout.ends, t.entries[i], i);
    EntryFields(p, scanned, layout.ends, t.entries[Leader(scanned, i)], Leader(scanned, i));
    if scanned[i].kind.ScannedFile? {
      PackedEntryBytes(p, limits, scanned, layout, i);
    }
    NodeOfFields(p, file, limits, t, scanned, i);
  }

  predicate SameNode(p: Primitives, file: bytes, limits: DecodeLimits, t: Tables, scanned: seq<ScannedEntry>, i: nat)
    requires i < |scanned| == |t.entries|
  {
    t.entries[i].path == scanned[i].path && NodeOf(p, file, limits, t, i) == ScannedNode(scanned, i)
  }

  /** The tree is the scanned tree: every entry at its path, and otherwise only directories above entries. */
  ghost predicate IsScannedTree(p: Primitives, scanned: seq<ScannedEntry>, tree: Tree) {
    && (forall i | 0 <= i < |scanned| :: Stands(tree, ScannedItem(p, scanned, i)))
    && (forall q | q in tree :: exists i :: 0 <= i < |scanned| && Explains(tree, q, ScannedItem(p, scanned, i)))
  }

  function ScannedItem(p: Primitives, scanned: seq<ScannedEntry>, i: nat): Item
    requires i < |scanned|
  {
    Item(Native(p, scanned[i].path), ScannedNode(scanned, i))
  }

  lemma {:induction false} SameTree(p: Primitives, file: bytes, limits: DecodeLimits, t: Tables,
                                    scanned: seq<ScannedEntry>, tree: Tree)
    requires |scanned| == |t.entries| && forall i | 0 <= i < |scanned| :: SameNode(p, file, limits, t, scanned, i)
    requires Unpacked(p, file, limits, t, tree)
    ensures IsScannedTree(p, scanned, tree)
  {
    hide NodeOf, Stands, Explains;
    var items, done := ItemsOf(p, file, limits, t), DoneSet(t, 4, 0);
    forall i | 0 <= i < |scanned| ensures items[i] == ScannedItem(p, scanned, i) {
      assert SameNode(p, file, limits, t, scanned, i);
    }
    forall i | 0 <= i < |scanned| ensures Stands(tree, ScannedItem(p, scanned, i)) {
      AllDone(t, i);
    }
    forall q | q in tree ensures exists i :: 0 <= i < |scanned| && Explains(tree, q, ScannedItem(p, scanned, i)) {
      var i :| i in done && i < |items| && Explains(tree, q, items[i]);
    }
  }

  lemma {:induction false} PackedNodes(p: Primitives, limits: DecodeLimits, scanned: seq<ScannedEntry>, layout: Layout,
                                       t: Tables, file: bytes)
    requires SoundCodecs(p) && SoundRecords(p) && ScanOk(p, limits, scanned) && LayoutOk(scanned, layout)
    requires AllGroupsFit(p, limits, scanned, layout)
    requires t == TablesFor(p, scanned, layout) && file == PackedFile(p, scanned, layout)
    ensures |t.entries| == |scanned| && forall i | 0 <= i < |scanned| :: SameNode(p, file, limits, t, scanned, i)
  {
    forall i | 0 <= i < |scanned| ensures SameNode(p, file, limits, t, scanned, i) {
      PackedNode(p, limits, scanned, layout, t, file, i);
    }
  }

  lemma {:induction false} ShadowIsConflict(p: Primitives, scanned: seq<ScannedEntry>, layout: Layout, i: nat, j: nat)
    requires LayoutOk(scanned, layout) && i < |scanned| && j < |scanned|
    ensures Conflict(p, TablesFor(p, scanned, layout), i, j) <==> Shadows(p, scanned, i, j)
  {
    var t := TablesFor(p, scanned, layout);
    EntryFields(p, scanned, layout.ends, t.entries[i], i);
    EntryFields(p, scanned, layout.ends, t.entries[j], j);
  }

  /** The entries of a packed archive form a tree exactly when the scanned ones do. */
  lemma {:induction false} PackedIsShaped(p: Primitives, scanned: seq<ScannedEntry>, layout: Layout)
    requires LayoutOk(scanned, layout)
    ensures TreeShaped(p, TablesFor(p, scanned, layout)) <==> ScannedTree(p, scanned)
  {
    hide Conflict, Shadows;
    var t := TablesFor(p, scanned, layout);
    if ScannedTree(p, scanned) {
      forall i, j | 0 <= i < |t.entries| && 0 <= j < |t.entries| ensures !Conflict(p, t, i, j) {
        ShadowIsConflict(p, scanned, layout, i, j);
      }
    }
    if TreeShaped(p, t) {
      forall i, j | 0 <= i < |scanned| && 0 <= j < |scanned| ensures !Shadows(p, scanned, i, j) {
        ShadowIsConflict(p, scanned, layout, i, j);
      }
    }
  }

  lemma {:induction false} PackedTaken(p: Primitives, scanned: seq<ScannedEntry>, layout: Layout, i: nat)
    requires LayoutOk(scanned, layout) && i < |scanned|
    ensures EntryTaken(p, TablesFor(p, scanned, layout), i) <==> ScannedEntryTaken(p, scanned[i])
  {
    hide PrefixesTaken, TargetTaken;
    EntryFields(p, scanned, layout.ends, TablesFor(p, scanned, layout).entries[i], i);
  }

  lemma {:induction false} PackedNamesTaken(p: Primitives, scanned: seq<ScannedEntry>, layout: Layout)
    requires LayoutOk(scanned, layout)
    ensures NamesTaken(p, TablesFor(p, scanned, layout)) <==> ScannedTaken(p, scanned)
  {
    hide EntryTaken, ScannedEntryTaken;
    forall i | 0 <= i < |scanned|
      ensures EntryTaken(p, TablesFor(p, scanned, layout), i) <==> ScannedEntryTaken(p, scanned[i]) {
      PackedTaken(p, scanned, layout, i);
    }
  }

  /**
   An archive that fits the limits can be unpacked exactly when its entries came from a directory tree, with names and
   link targets the file system takes, and fit the disk.
   */
  lemma {:induction false} PackedIsUnpackable(p: Primitives, limits: DecodeLimits, scanned: seq<ScannedEntry>,
                                              layout: Layout, maxTempBytes: nat)
    requires SoundCodecs(p) && SoundRecords(p) && SoundTables(p) && ScanOk(p, limits, scanned)
    requires LayoutOk(scanned, layout) && PackFits(p, limits, scanned, layout)
    ensures var file, c := PackedFile(p, scanned, layout), PackedCatalog(p, scanned, layout);
      && Verified(p, file, limits, c)
      && (Unpackable(p, file, limits, maxTempBytes, c) <==>
            ScannedTree(p, scanned) && ScannedTaken(p, scanned) && OriginalTotal(scanned, |scanned|) <= maxTempBytes)
  {
    hide Verified, ScanOk, SoundCodecs, SoundRecords, SoundTables, PackedFile, ScannedTree, ScannedTaken;
    hide TreeShaped, NamesTaken, OriginalTotal;
    PackedNamesTaken(p, scanned, layout);
    PackedVerifies(p, limits, scanned, layout);
    PackedIsShaped(p, scanned, layout);
  }

  /** An empty file, and another one below it. */
  function FileBelowFile(a: PathComponent, b: PathComponent): seq<ScannedEntry> {
    [ScannedEntry([a], 0, 0, ScannedFile([], None)), ScannedEntry([a, b], 0, 0, ScannedFile([], None))]
  }

  /**
   Entries with distinct paths make an archive that verifies, even where one file lies below another; it cannot be
   unpacked.
   */
  lemma {:induction false} VerifiesButCannotUnpack(p: Primitives, limits: DecodeLimits, a: PathComponent,
                                                   b: PathComponent, layout: Layout, maxTempBytes: nat)
    requires SoundCodecs(p) && SoundRecords(p) && SoundTables(p) && ScanOk(p, limits, FileBelowFile(a, b))
    requires LayoutOk(FileBelowFile(a, b), layout) && PackFits(p, limits, FileBelowFile(a, b), layout)
    ensures var file, c := PackedFile(p, FileBelowFile(a, b), layout), PackedCatalog(p, FileBelowFile(a, b), layout);
      Verified(p, file, limits, c) && !Unpackable(p, file, limits, maxTempBytes, c)
  {
    hide *;
    PackedIsUnpackable(p, limits, FileBelowFile(a, b), layout, maxTempBytes);
    FileIsShadowed(p, a, b);
  }

  lemma {:induction false} FileIsShadowed(p: Primitives, a: PathComponent, b: PathComponent)
    ensures !ScannedTree(p, FileBelowFile(a, b))
  {
    assert Native(p, [a, b])[..1] == Native(p, [a]);
    assert Shadows(p, FileBelowFile(a, b), 0, 1);
  }

  /** A single link, to nowhere. */
  function LinkToNowhere(a: PathComponent, isDir: bool): seq<ScannedEntry> {
    [ScannedEntry([a], 0, 0, ScannedSymlink([], isDir))]
  }

  /** A link with an empty target passes the catalog's checks of targets, but no file system creates it. */
  lemma {:induction false} EmptyTargetCannotUnpack(p: Primitives, limits: DecodeLimits, a: PathComponent, isDir: bool,
                                                   layout: Layout, maxTempBytes: nat)
    requires SoundCodecs(p) && SoundRecords(p) && SoundTables(p) && ScanOk(p, limits, LinkToNowhere(a, isDir))
    requires LayoutOk(LinkToNowhere(a, isDir), layout) && PackFits(p, limits, LinkToNowhere(a, isDir), layout)
    ensures var file, c := PackedFile(p, LinkToNowhere(a, isDir), layout),
                           PackedCatalog(p, LinkToNowhere(a, isDir), layout);
      Verified(p, file, limits, c) && !Unpackable(p, file, limits, maxTempBytes, c)
  {
    hide *;
    PackedIsUnpackable(p, limits, LinkToNowhere(a, isDir), layout, maxTempBytes);
    NowhereIsUntaken(p, a, isDir);
  }

  lemma {:induction false} NowhereIsUntaken(p: Primitives, a: PathComponent, isDir: bool)
    ensures !ScannedTaken(p, LinkToNowhere(a, isDir))
  {
    assert !ScannedEntryTaken(p, LinkToNowhere(a, isDir)[0]);
  }

  /** A single empty file. */
  function EmptyFile(a: PathComponent): seq<ScannedEntry> {
    [ScannedEntry([a], 0, 0, ScannedFile([], None))]
  }

  /**
   A usable component whose name holds a zero byte, as one in UTF-8 may, passes the catalog's checks of paths, but no
   file system creates it.
   */
  lemma {:induction false} ZeroByteCannotUnpack(p: Primitives, limits: DecodeLimits, a: PathComponent,
                                                layout: Layout, maxTempBytes: nat)
    requires SoundCodecs(p) && SoundRecords(p) && SoundTables(p) && ScanOk(p, limits, EmptyFile(a))
    requires LayoutOk(EmptyFile(a), layout) && PackFits(p, limits, EmptyFile(a), layout) && 0 in p.osName(a)
    ensures var file, c := PackedFile(p, EmptyFile(a), layout), PackedCatalog(p, EmptyFile(a), layout);
      Verified(p, file, limits, c) && !Unpackable(p, file, limits, maxTempBytes, c)
  {
    hide *;
    PackedIsUnpackable(p, limits, EmptyFile(a), layout, maxTempBytes);
    ZeroIsUntaken(p, a);
  }

  lemma {:induction false} ZeroIsUntaken(p: Primitives, a: PathComponent)
    requires 0 in p.osName(a)
    ensures !ScannedTaken(p, EmptyFile(a))
  {
    var path := Native(p, [a]);
    assert path[..1][0] == p.osName(a) && p.osName(a) in path[..1];
    assert !PathTaken(p, path[..1]);
    assert !ScannedEntryTaken(p, EmptyFile(a)[0]);
  }

  /**
   Packing and unpacking return the scanned tree: the same paths, every file with its bytes and mode, names of one file
   still sharing it, every link with its target.
   */
  lemma {:induction false} RoundTrip(p: Primitives, limits: DecodeLimits, scanned: seq<ScannedEntry>, layout: Layout,
                                     file: bytes, c: Catalog, tree: Tree)
    requires SoundCodecs(p) && SoundRecords(p) && SoundTables(p) && ScanOk(p, limits, scanned)
    requires LayoutOk(scanned, layout)
    requires OriginalTotal(scanned, |scanned|) <= U64_MAX
    requires file == PackedFile(p, scanned, layout) && Verified(p, file, limits, c)
    requires Unpacked(p, file, limits, c.tables, tree)
    ensures IsScannedTree(p, scanned, tree)
  {
    PackedVerifies(p, limits, scanned, layout);
    PackedNodes(p, limits, scanned, layout, c.tables, file);
    SameTree(p, file, limits, c.tables, scanned, tree);
  }
}
