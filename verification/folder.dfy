/** Folders and block databases: building a database from a contents-first walk with a
    path-keyed map of children, and writing a database back to a folder. */
module Folders {
  import opened Varints
  import opened Blocks

  /** An abstract directory tree; `Other` is a symlink or special file. */
  datatype Node =
    | FileNode(name: string, bytes: seq<byte>)
    | FolderNode(name: string, entries: seq<Node>)
    | Other(name: string)

  type Path = seq<string>

  /** Randomly drawn keys, one per path. */
  type Keys = Path -> Key

  // ---------------------------------------------------------------- the walk

  datatype FileType = IsFile(bytes: seq<byte>) | IsDir | IsOther
  datatype DirEntry = DirEntry(path: Path, fileType: FileType)

  /** `WalkDir` with `contents_first`: a folder comes after everything in it. */
  function WalkNode(node: Node, path: Path): (w: seq<DirEntry>)
    decreases node, 1
  {
    match node
    case FileNode(_, bytes) => [DirEntry(path, IsFile(bytes))]
    case FolderNode(_, entries) => WalkAll(entries, path) + [DirEntry(path, IsDir)]
    case Other(_) => [DirEntry(path, IsOther)]
  }

  function WalkAll(entries: seq<Node>, path: Path): seq<DirEntry>
    decreases entries, 0
  {
    if entries == [] then []
    else WalkNode(entries[0], path + [entries[0].name]) + WalkAll(entries[1..], path)
  }

  // ---------------------------------------------------------------- plain recursion

  /** The child entry of a node, if it has one. */
  function EncodeNode(node: Node, path: Path, keys: Keys): seq<Child>
    decreases node, 1
  {
    match node
    case FileNode(name, bytes) => [Child(name, Leaf, RefTo(File(bytes), keys(path)))]
    case FolderNode(name, entries) =>
      [Child(name, Directory, RefTo(Dir(EncodeEntries(entries, path, keys)), keys(path)))]
    case Other(_) => []
  }

  function EncodeEntries(entries: seq<Node>, path: Path, keys: Keys): seq<Child>
    decreases entries, 0
  {
    if entries == [] then []
    else EncodeNode(entries[0], path + [entries[0].name], keys) + EncodeEntries(entries[1..], path, keys)
  }

  /** The entry of a file or folder has its name and type, and a block under the key drawn for its path. */
  ghost predicate IsEntryFor(c: Child, node: Node, path: Path, keys: Keys) {
    && !node.Other? && c.name == node.name && c.kind == (if node.FileNode? then Leaf else Directory)
    && c.blockref.key == keys(path)
    && c.blockref.blockid.data != [] && c.blockref.blockid.data[0] == Iv(keys(path))
  }

  lemma {:induction false} EntryFor(node: Node, path: Path, keys: Keys)
    requires !node.Other?
    ensures |EncodeNode(node, path, keys)| == 1 && IsEntryFor(EncodeNode(node, path, keys)[0], node, path, keys)
  {
  }

  /** Every entry of a folder that is a file or folder has its own key. */
  lemma {:induction false} OwnKeys(entries: seq<Node>, path: Path, keys: Keys, i: nat)
    requires i < |entries| && !entries[i].Other?
    ensures exists c :: c in EncodeEntries(entries, path, keys)
                        && IsEntryFor(c, entries[i], path + [entries[i].name], keys)
    ensures forall c :: c in EncodeNode(entries[i], path + [entries[i].name], keys) ==>
                        c in EncodeEntries(entries, path, keys)
  {
    EntryFor(entries[i], path + [entries[i].name], keys);
    if i > 0 {
      OwnKeys(entries[1..], path, keys, i - 1);
    }
    var c := EncodeNode(entries[i], path + [entries[i].name], keys)[0];
    assert c in EncodeEntries(entries, path, keys);
  }

  function RefTo(d: Decoded, key: Key): BlockRef { BlockRef(Hash(ToBlock(d, key)), key) }

  function FullOf(d: Decoded, key: Key): Blocks {
    map[Hash(ToBlock(d, key)) := Full(Hash(ToBlock(d, key)), ToBlock(d, key))]
  }

  /** The blocks of a node. */
  function BlocksOf(node: Node, path: Path, keys: Keys): Blocks
    decreases node, 1
  {
    match node
    case FileNode(_, bytes) => FullOf(File(bytes), keys(path))
    case FolderNode(_, entries) =>
      BlocksOfEntries(entries, path, keys) + FullOf(Dir(EncodeEntries(entries, path, keys)), keys(path))
    case Other(_) => map[]
  }

  function BlocksOfEntries(entries: seq<Node>, path: Path, keys: Keys): Blocks
    decreases entries, 0
  {
    if entries == [] then map[]
    else BlocksOf(entries[0], path + [entries[0].name], keys) + BlocksOfEntries(entries[1..], path, keys)
  }

  /** The reference to a folder's own block. */
  function RootRef(folder: Node, path: Path, keys: Keys): BlockRef
    requires folder.FolderNode?
  {
    RefTo(Dir(EncodeEntries(folder.entries, path, keys)), keys(path))
  }

  // ---------------------------------------------------------------- the loop

  type Pending = map<Path, seq<Child>>

  datatype Builder = Builder(pending: Pending, blocks: Blocks, root: Option<BlockRef>)

  function Parent(path: Path): Path
    requires path != []
  {
    path[..|path| - 1]
  }

  function Name(path: Path): string
    requires path != []
  {
    path[|path| - 1]
  }

  /** `map.entry(parent).or_default().push(..)`, for any number of children. */
  function Push(m: Pending, parent: Path, cs: seq<Child>): Pending {
    if cs == [] then m else m[parent := (if parent in m then m[parent] else []) + cs]
  }

  /** One iteration of the loop. */
  function BuildStep(b: Builder, e: DirEntry, folder: Path, keys: Keys): Builder
    requires e.path != []
  {
    var key, parent, name := keys(e.path), Parent(e.path), Name(e.path);
    match e.fileType
    case IsOther => b
    case IsFile(bytes) =>
      b.(pending := Push(b.pending, parent, [Child(name, Leaf, RefTo(File(bytes), key))]),
         blocks := b.blocks + FullOf(File(bytes), key))
    case IsDir =>
      var d := Dir(if e.path in b.pending then b.pending[e.path] else []);
      Builder(
        Push(b.pending - {e.path}, parent, [Child(name, Directory, RefTo(d, key))]),
        b.blocks + FullOf(d, key),
        if e.path == folder then Some(RefTo(d, key)) else b.root)
  }

  function BuildAll(b: Builder, walk: seq<DirEntry>, folder: Path, keys: Keys): Builder
    requires forall e :: e in walk ==> e.path != []
    decreases |walk|
  {
    if walk == [] then b
    else BuildAll(BuildStep(b, walk[0], folder, keys), walk[1..], folder, keys)
  }

  ghost predicate Rooted(walk: seq<DirEntry>) { forall e :: e in walk ==> e.path != [] }

  lemma {:induction false} BuildAppend(b: Builder, v: seq<DirEntry>, w: seq<DirEntry>, folder: Path, keys: Keys)
    requires Rooted(v) && Rooted(w)
    ensures Rooted(v + w)
    ensures BuildAll(b, v + w, folder, keys) == BuildAll(BuildAll(b, v, folder, keys), w, folder, keys)
    decreases |v|
  {
    if v == [] {
      assert v + w == w;
    } else {
      assert (v + w)[1..] == v[1..] + w;
      BuildAppend(BuildStep(b, v[0], folder, keys), v[1..], w, folder, keys);
    }
  }

  lemma {:induction false} BuildOne(b: Builder, e: DirEntry, folder: Path, keys: Keys)
    requires e.path != []
    ensures BuildAll(b, [e], folder, keys) == BuildStep(b, e, folder, keys)
  {
    assert [e][1..] == [];
  }

  lemma {:induction false} WalkPaths(node: Node, path: Path)
    requires path != []
    ensures Rooted(WalkNode(node, path))
    decreases node, 1
  {
    if node.FolderNode? {
      WalkAllPaths(node.entries, path);
    }
  }

  lemma {:induction false} WalkAllPaths(entries: seq<Node>, path: Path)
    requires path != []
    ensures Rooted(WalkAll(entries, path))
    ensures forall e :: e in WalkAll(entries, path) ==> |path| < |e.path|
    decreases entries, 0
  {
    if entries != [] {
      var first := path + [entries[0].name];
      WalkPaths(entries[0], first);
      if entries[0].FolderNode? {
        WalkAllPaths(entries[0].entries, first);
      }
      WalkAllPaths(entries[1..], path);
    }
  }

  /** No pending children at or below `path`. */
  ghost predicate Clear(m: Pending, path: Path) { forall k :: k in m ==> !(path <= k) }

  /** What walking a node does: its child entry goes to the parent and its blocks to the store, and
      nothing else stays in the path-keyed map. */
  ghost predicate Built(b: Builder, after: Builder, node: Node, path: Path, folder: Path, keys: Keys)
    requires path != []
  {
    && after.pending == Push(b.pending, Parent(path), EncodeNode(node, path, keys))
    && after.blocks == b.blocks + BlocksOf(node, path, keys)
    && after.root == if node.FolderNode? && path == folder then Some(RootRef(node, path, keys)) else b.root
  }

  ghost predicate BuiltEntries(b: Builder, after: Builder, entries: seq<Node>, path: Path, keys: Keys) {
    && after.pending == Push(b.pending, path, EncodeEntries(entries, path, keys))
    && after.blocks == b.blocks + BlocksOfEntries(entries, path, keys)
    && after.root == b.root
  }

  lemma {:induction false} PushPush(m: Pending, p: Path, xs: seq<Child>, ys: seq<Child>)
    ensures Push(Push(m, p, xs), p, ys) == Push(m, p, xs + ys)
  {
    if xs == [] {
      assert xs + ys == ys;
    } else if ys == [] {
      assert xs + ys == xs;
    } else {
      var had := if p in m then m[p] else [];
      assert (had + xs) + ys == had + (xs + ys);
    }
  }

  lemma {:induction false} PushTaken(m: Pending, p: Path, cs: seq<Child>)
    requires p !in m
    ensures Push(m, p, cs) - {p} == m
    ensures (if p in Push(m, p, cs) then Push(m, p, cs)[p] else []) == cs
  {
    assert [] + cs == cs;
    assert m - {p} == m;
  }

  lemma {:induction false} MergeAssociative(a: Blocks, b: Blocks, c: Blocks)
    ensures (a + b) + c == a + (b + c)
  {
  }

  /** The folder's own entry, after its contents. */
  lemma {:induction false} CloseFolder(b: Builder, mid: Builder, node: Node, path: Path, folder: Path, keys: Keys)
    requires path != [] && node.FolderNode? && Name(path) == node.name && path !in b.pending
    requires BuiltEntries(b, mid, node.entries, path, keys)
    ensures Built(b, BuildStep(mid, DirEntry(path, IsDir), folder, keys), node, path, folder, keys)
  {
    var cs := EncodeEntries(node.entries, path, keys);
    PushTaken(b.pending, path, cs);
    MergeAssociative(b.blocks, BlocksOfEntries(node.entries, path, keys), FullOf(Dir(cs), keys(path)));
  }

  lemma {:induction false} BuildNode(b: Builder, node: Node, path: Path, folder: Path, keys: Keys)
    requires path != [] && Name(path) == node.name && Clear(b.pending, path)
    requires |folder| <= |path|
    ensures Rooted(WalkNode(node, path))
    ensures Built(b, BuildAll(b, WalkNode(node, path), folder, keys), node, path, folder, keys)
    decreases node, 1
  {
    WalkPaths(node, path);
    match node
    case FileNode(_, bytes) =>
      BuildOne(b, DirEntry(path, IsFile(bytes)), folder, keys);
    case Other(_) =>
      BuildOne(b, DirEntry(path, IsOther), folder, keys);
      assert b.blocks + map[] == b.blocks;
    case FolderNode(_, entries) =>
      var inner, last := WalkAll(entries, path), DirEntry(path, IsDir);
      BuildEntries(b, entries, path, folder, keys);
      BuildAppend(b, inner, [last], folder, keys);
      var mid := BuildAll(b, inner, folder, keys);
      BuildOne(mid, last, folder, keys);
      CloseFolder(b, mid, node, path, folder, keys);
  }

  lemma {:induction false} JoinEntries(
      b: Builder, mid: Builder, after: Builder, entries: seq<Node>, path: Path, folder: Path, keys: Keys)
    requires entries != [] && |folder| <= |path|
    requires Built(b, mid, entries[0], path + [entries[0].name], folder, keys)
    requires BuiltEntries(mid, after, entries[1..], path, keys)
    ensures BuiltEntries(b, after, entries, path, keys)
  {
    var node, rest := entries[0], entries[1..];
    var sub := path + [node.name];
    assert Parent(sub) == path;
    PushPush(b.pending, path, EncodeNode(node, sub, keys), EncodeEntries(rest, path, keys));
    MergeAssociative(b.blocks, BlocksOf(node, sub, keys), BlocksOfEntries(rest, path, keys));
  }

  lemma {:induction false} BuildEntries(b: Builder, entries: seq<Node>, path: Path, folder: Path, keys: Keys)
    requires path != [] && |folder| <= |path|
    requires forall k :: k in b.pending ==> !(path < k)
    ensures Rooted(WalkAll(entries, path))
    ensures BuiltEntries(b, BuildAll(b, WalkAll(entries, path), folder, keys), entries, path, keys)
    decreases entries, 0
  {
    WalkAllPaths(entries, path);
    if entries == [] {
      assert b.blocks + map[] == b.blocks;
    } else {
      var node, rest := entries[0], entries[1..];
      var sub := path + [node.name];
      assert Clear(b.pending, sub);
      BuildNode(b, node, sub, folder, keys);
      var first, others := WalkNode(node, sub), WalkAll(rest, path);
      var mid := BuildAll(b, first, folder, keys);
      assert Parent(sub) == path;
      BuildEntries(mid, rest, path, folder, keys);
      BuildAppend(b, first, others, folder, keys);
      JoinEntries(b, mid, BuildAll(mid, others, folder, keys), entries, path, folder, keys);
    }
  }

  lemma {:induction false} BuildSnoc(b: Builder, walk: seq<DirEntry>, i: nat, folder: Path, keys: Keys)
    requires i < |walk| && Rooted(walk)
    ensures BuildAll(b, walk[..i + 1], folder, keys)
         == BuildStep(BuildAll(b, walk[..i], folder, keys), walk[i], folder, keys)
  {
    assert walk[..i + 1] == walk[..i] + [walk[i]];
    BuildAppend(b, walk[..i], [walk[i]], folder, keys);
    BuildOne(BuildAll(b, walk[..i], folder, keys), walk[i], folder, keys);
  }

  lemma {:induction false} RootUntouched(b: Builder, walk: seq<DirEntry>, folder: Path, keys: Keys)
    requires forall e :: e in walk ==> e.path != [] && e.path != folder
    ensures BuildAll(b, walk, folder, keys).root == b.root
    decreases |walk|
  {
    if walk != [] {
      RootUntouched(BuildStep(b, walk[0], folder, keys), walk[1..], folder, keys);
    }
  }

  const EMPTY := Builder(map[], map[], None)

  /** Before its last entry, the walk of the root folder has not met the root. */
  lemma {:induction false} RootComesLast(tree: Node, folder: Path, keys: Keys, i: nat)
    requires tree.FolderNode? && folder != [] && i < |WalkNode(tree, folder)|
    ensures Rooted(WalkNode(tree, folder))
    ensures BuildAll(EMPTY, WalkNode(tree, folder)[..i], folder, keys).root.None?
  {
    WalkPaths(tree, folder);
    WalkAllPaths(tree.entries, folder);
    var inner := WalkAll(tree.entries, folder);
    assert WalkNode(tree, folder)[..i] == inner[..i];
    RootUntouched(EMPTY, inner[..i], folder, keys);
  }

  lemma {:induction false} WholeWalk(tree: Node, folder: Path, keys: Keys)
    requires tree.FolderNode? && folder != [] && Name(folder) == tree.name
    ensures Rooted(WalkNode(tree, folder))
    ensures var b := BuildAll(EMPTY, WalkNode(tree, folder), folder, keys);
            b.root == Some(RootRef(tree, folder, keys)) && b.blocks == BlocksOf(tree, folder, keys)
  {
    BuildNode(EMPTY, tree, folder, folder, keys);
    assert map[] + BlocksOf(tree, folder, keys) == BlocksOf(tree, folder, keys);
  }

  /** Builds the database of a folder from its walk: the same root and blocks as plain recursion
      over the tree. The assertion inside the loop is the original's. */
  method BlockDbFromFolder(tree: Node, folder: Path, keys: Keys) returns (root: BlockRef, blocks: Blocks)
    requires tree.FolderNode? && folder != [] && Name(folder) == tree.name
    ensures root == RootRef(tree, folder, keys)
    ensures blocks == BlocksOf(tree, folder, keys)
  {
    var walk := WalkNode(tree, folder);
    WalkPaths(tree, folder);
    var pending: Pending := map[];
    blocks := map[];
    var found: Option<BlockRef> := None;
    var i := 0;
    while i < |walk|
      invariant 0 <= i <= |walk|
      invariant Builder(pending, blocks, found) == BuildAll(EMPTY, walk[..i], folder, keys)
    {
      RootComesLast(tree, folder, keys, i);
      BuildSnoc(EMPTY, walk, i, folder, keys);
      assert found.None?;
      var e := walk[i];
      var key, parent, name := keys(e.path), Parent(e.path), Name(e.path);
      match e.fileType {
        case IsOther =>
        case IsFile(bytes) =>
          var data := ToBlock(File(bytes), key);
          pending := Append(pending, parent, Child(name, Leaf, BlockRef(Hash(data), key)));
          blocks := blocks[Hash(data) := Full(Hash(data), data)];
        case IsDir =>
          var children := if e.path in pending then pending[e.path] else [];
          pending := pending - {e.path};
          var data := ToBlock(Dir(children), key);
          blocks := blocks[Hash(data) := Full(Hash(data), data)];
          pending := Append(pending, parent, Child(name, Directory, BlockRef(Hash(data), key)));
          if e.path == folder {
            found := Some(BlockRef(Hash(data), key));
          }
      }
      i := i + 1;
    }
    assert walk[..|walk|] == walk;
    WholeWalk(tree, folder, keys);
    root := found.value;
  }

  function Append(m: Pending, parent: Path, c: Child): Pending {
    m[parent := (if parent in m then m[parent] else []) + [c]]
  }
}
