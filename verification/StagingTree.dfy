/** The directory tree that unpacking builds, with what the file system refuses to put where. */
module StagingTree {
  import opened Base
  import opened PathKeys
  import opened ArchiveFormat

  /** A node of the tree; names of one file share its `inode`, the entry that stored it. */
  datatype Node = DirectoryNode | FileNode(content: bytes, inode: nat, mode: nat)
    | LinkNode(target: LinkTarget, targetIsDir: bool)

  type Tree = map<NativePath, Node>

  /** `q` is one of the first `n` directories on the way down `path`. */
  predicate Leads(q: NativePath, path: NativePath, n: nat) {
    0 < |q| <= n && q <= path
  }

  /** The directories on the way down `path` exist, and nothing else changed. */
  ghost predicate WithDirectories(tree: Tree, path: NativePath, n: nat, tree': Tree) {
    && (forall q :: q in tree' <==> q in tree || Leads(q, path, n))
    && (forall q | q in tree' :: tree'[q] == if q in tree then tree[q] else DirectoryNode)
  }

  ghost predicate AllDirectories(tree: Tree, path: NativePath, n: nat) {
    forall q | q in tree && Leads(q, path, n) :: tree[q].DirectoryNode?
  }

  /** Something to place, by its path and its node. */
  datatype Item = Item(path: NativePath, node: Node)

  /** What became of an attempt to place something: the new tree, the node in the way, or a name nothing can have. */
  datatype Placing = Placed(tree: Tree) | Obstructed(at: NativePath) | Untaken(at: NativePath)

  /** Creates the first `n` directories on the way down `path`, as `create_dir_all` does. */
  method CreateDirectories(p: Primitives, tree: Tree, path: NativePath, n: nat) returns (r: Placing)
    requires n <= |path|
    ensures r.Placed? ==> AllDirectories(tree, path, n) && WithDirectories(tree, path, n, r.tree)
    ensures r.Placed? ==> PrefixesTaken(p, path, n)
    ensures r.Obstructed? ==> Leads(r.at, path, n) && r.at in tree && !tree[r.at].DirectoryNode?
    ensures r.Untaken? ==> !PrefixesTaken(p, path, n)
  {
    var now := tree;
    for k := 0 to n
      invariant AllDirectories(tree, path, k) && WithDirectories(tree, path, k, now) && PrefixesTaken(p, path, k)
    {
      var next := path[..k + 1];
      assert forall q :: Leads(q, path, k + 1) <==> Leads(q, path, k) || q == next;
      if !PathTaken(p, next) {
        return Untaken(next);
      }
      if next !in now {
        now := now[next := DirectoryNode];
      } else if !now[next].DirectoryNode? {
        return Obstructed(next);
      }
    }
    return Placed(now);
  }

  /** `q` is a directory on the way to `path`. */
  predicate Above(q: NativePath, path: NativePath) {
    q != [] && q < path
  }

  /** Creates something that is no directory: its parents first, and its own place must be free. */
  method CreateNew(p: Primitives, tree: Tree, path: NativePath, node: Node) returns (r: Placing)
    requires path != [] && !node.DirectoryNode?
    ensures r.Placed? ==> path !in tree && PlacedAt(tree, path, node, r.tree) && Taken(p, Item(path, node))
    ensures r.Untaken? ==> !Taken(p, Item(path, node))
    ensures r.Obstructed? ==> r.at in tree && (r.at == path || (Above(r.at, path) && !tree[r.at].DirectoryNode?))
  {
    r := CreateDirectories(p, tree, path, |path| - 1);
    assert forall q :: Leads(q, path, |path| - 1) <==> Above(q, path);
    assert path[..|path|] == path;
    if r.Placed? {
      if !PathTaken(p, path) || (node.LinkNode? && !TargetTaken(p, node.target)) {
        return Untaken(path);
      }
      if path in r.tree {
        return Obstructed(path);
      }
      r := Placed(r.tree[path := node]);
    }
  }

  /** Creates a directory and those above it; it may exist. */
  method CreateDirectory(p: Primitives, tree: Tree, path: NativePath) returns (r: Placing)
    requires path != []
    ensures r.Placed? ==> PlacedAt(tree, path, DirectoryNode, r.tree) && (path in tree ==> tree[path].DirectoryNode?)
    ensures r.Placed? ==> Taken(p, Item(path, DirectoryNode))
    ensures r.Untaken? ==> !Taken(p, Item(path, DirectoryNode))
    ensures r.Obstructed? ==> r.at in tree && (r.at == path || Above(r.at, path)) && !tree[r.at].DirectoryNode?
  {
    r := CreateDirectories(p, tree, path, |path|);
    assert forall q :: Leads(q, path, |path|) <==> Above(q, path) || q == path;
  }

  /** The node stands at its path, below directories, and nothing else changed. */
  ghost predicate PlacedAt(tree: Tree, path: NativePath, node: Node, tree': Tree) {
    && path != []
    && (forall q | q in tree && Above(q, path) :: tree[q].DirectoryNode?)
    && (forall q :: q in tree' <==> q in tree || q == path || Above(q, path))
    && (forall q | q in tree' :: tree'[q] == if q == path then node else if q in tree then tree[q] else DirectoryNode)
  }

  /** The place is free, or a directory is created where one is. */
  predicate Allowed(tree: Tree, item: Item) {
    item.path in tree ==> tree[item.path].DirectoryNode? && item.node.DirectoryNode?
  }

  /** The file system takes the names on the way to the item, its own, and the target of a link. */
  predicate Taken(p: Primitives, item: Item) {
    PrefixesTaken(p, item.path, |item.path|) && (item.node.LinkNode? ==> TargetTaken(p, item.node.target))
  }

  /** Directories are created with those above them, anything else only where nothing is. */
  method PlaceItem(p: Primitives, tree: Tree, item: Item) returns (r: Placing)
    requires item.path != []
    ensures r.Placed? ==> PlacedAt(tree, item.path, item.node, r.tree) && Allowed(tree, item) && Taken(p, item)
    ensures r.Obstructed? ==> r.at in tree && InTheWay(tree, item, r.at)
    ensures r.Untaken? ==> !Taken(p, item)
  {
    hide PlacedAt, Above, Taken;
    assert Item(item.path, item.node) == item;
    if item.node.DirectoryNode? {
      r := CreateDirectory(p, tree, item.path);
    } else {
      r := CreateNew(p, tree, item.path, item.node);
    }
  }

  /** What stands at `at` keeps the item from its place. */
  predicate InTheWay(tree: Tree, item: Item, at: NativePath)
    requires at in tree
  {
    && (at == item.path || Above(at, item.path))
    && (at != item.path || item.node.DirectoryNode? ==> !tree[at].DirectoryNode?)
  }

  // ----- What the tree holds -----

  predicate Stands(tree: Tree, item: Item) {
    item.path in tree && tree[item.path] == item.node
  }

  ghost predicate HasParents(tree: Tree, item: Item) {
    forall q | Above(q, item.path) :: q in tree && tree[q].DirectoryNode?
  }

  /** A node of the tree is an item, or a directory above one. */
  predicate Explains(tree: Tree, q: NativePath, item: Item)
    requires q in tree
  {
    q == item.path || (Above(q, item.path) && tree[q].DirectoryNode?)
  }

  /** `a` is no directory, and `b` lies at its place or below it. */
  predicate Blocks(a: Item, b: Item) {
    !a.node.DirectoryNode? && (a.path == b.path || Above(a.path, b.path))
  }

  ghost predicate AllStand(items: seq<Item>, done: set<nat>, tree: Tree) {
    forall i | i in done :: i < |items| && items[i].path != [] && Stands(tree, items[i]) && HasParents(tree, items[i])
  }

  ghost predicate AllExplained(items: seq<Item>, done: set<nat>, tree: Tree) {
    forall q | q in tree :: exists i :: i in done && i < |items| && Explains(tree, q, items[i])
  }

  ghost predicate NoneBlocks(items: seq<Item>, done: set<nat>) {
    forall i, j | i in done && j in done && i != j && i < |items| && j < |items| :: !Blocks(items[i], items[j])
  }

  /** The tree holds exactly the items of `done` and the directories above them; none of them blocks another. */
  ghost predicate Holds(items: seq<Item>, done: set<nat>, tree: Tree) {
    AllStand(items, done, tree) && AllExplained(items, done, tree) && NoneBlocks(items, done)
  }

  lemma {:induction false} NothingHeld(items: seq<Item>)
    ensures Holds(items, {}, map[])
  {
  }

  lemma {:induction false} StillStands(tree: Tree, item: Item, tree': Tree, other: Item)
    requires PlacedAt(tree, item.path, item.node, tree') && Allowed(tree, item) && Stands(tree, other)
    requires HasParents(tree, other)
    ensures Stands(tree', other) && HasParents(tree', other)
  {
    hide Above;
  }

  lemma {:induction false} NewlyStands(tree: Tree, item: Item, tree': Tree)
    requires PlacedAt(tree, item.path, item.node, tree')
    ensures Stands(tree', item) && HasParents(tree', item)
  {
    forall q | Above(q, item.path) ensures q in tree' && tree'[q].DirectoryNode? {
    }
  }

  lemma {:induction false} StillExplained(tree: Tree, item: Item, tree': Tree, q: NativePath, other: Item)
    requires PlacedAt(tree, item.path, item.node, tree') && Allowed(tree, item) && q in tree && Explains(tree, q, other)
    ensures q in tree' && Explains(tree', q, other)
  {
    hide Above;
  }

  lemma {:induction false} NewlyExplained(tree: Tree, item: Item, tree': Tree, q: NativePath)
    requires PlacedAt(tree, item.path, item.node, tree') && q in tree' && q !in tree
    ensures Explains(tree', q, item)
  {
    hide Above;
  }

  /** An item at a free place below directories blocks nothing and is not blocked. */
  lemma {:induction false} NothingBlocked(tree: Tree, item: Item, tree': Tree, other: Item)
    requires PlacedAt(tree, item.path, item.node, tree') && Allowed(tree, item)
    requires Stands(tree, other) && HasParents(tree, other) && other.path != []
    ensures !Blocks(item, other) && !Blocks(other, item)
  {
    hide Above;
  }

  /** Placing one more item. */
  lemma {:induction false} OneMoreItem(items: seq<Item>, done: set<nat>, tree: Tree, n: nat, tree': Tree)
    requires Holds(items, done, tree) && n < |items| && PlacedAt(tree, items[n].path, items[n].node, tree')
    requires Allowed(tree, items[n])
    ensures Holds(items, done + {n}, tree')
  {
    hide PlacedAt, Allowed, Stands, HasParents, Explains, Blocks;
    var item, all := items[n], done + {n};
    NewlyStands(tree, item, tree');
    PlacedSomewhere(tree, item, tree');
    forall i | i in all ensures i < |items| && items[i].path != [] && Stands(tree', items[i])
        && HasParents(tree', items[i]) {
      if i in done {
        StillStands(tree, item, tree', items[i]);
      }
    }
    forall q | q in tree' ensures exists i :: i in all && i < |items| && Explains(tree', q, items[i]) {
      if q in tree {
        var i :| i in done && i < |items| && Explains(tree, q, items[i]);
        StillExplained(tree, item, tree', q, items[i]);
        assert i in all;
      } else {
        NewlyExplained(tree, item, tree', q);
        assert n in all;
      }
    }
    forall i, j | i in all && j in all && i != j && i < |items| && j < |items| ensures !Blocks(items[i], items[j]) {
      if i in done && j !in done {
        NothingBlocked(tree, item, tree', items[i]);
      } else if i !in done && j in done {
        NothingBlocked(tree, item, tree', items[j]);
      }
    }
  }

  lemma {:induction false} PlacedSomewhere(tree: Tree, item: Item, tree': Tree)
    requires PlacedAt(tree, item.path, item.node, tree')
    ensures item.path != []
  {
  }

  /**
   A node that obstructs a place is an item that blocks it, or an item below the place is blocked by what should go
   there.
   */
  lemma {:induction false} Obstruction(items: seq<Item>, done: set<nat>, tree: Tree, n: nat, at: NativePath)
    returns (i: nat)
    requires Holds(items, done, tree) && n < |items| && n !in done && at in tree
    requires InTheWay(tree, items[n], at)
    ensures i in done && i < |items| && i != n && (Blocks(items[i], items[n]) || Blocks(items[n], items[i]))
    ensures !tree[at].DirectoryNode? ==> items[i].path == at && items[i].node == tree[at]
  {
    hide Above, NoneBlocks, HasParents;
    i :| i in done && i < |items| && Explains(tree, at, items[i]);
    assert Stands(tree, items[i]);
  }
}
