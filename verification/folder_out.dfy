/** Writing a block database to a folder, and what a folder's database denotes. */
module FolderOutput {
  import opened Varints
  import opened Blocks
  import opened Visitors
  import opened Folders

  // ---------------------------------------------------------------- what a reference denotes

  function DenoteChild(c: Child): Node
    decreases c.blockref.blockid, 1, 0
  {
    match FromFull(c.blockref.blockid.data, c.blockref.key, c.kind)
    case None => Other(c.name)
    case Some(File(bytes)) => FileNode(c.name, bytes)
    case Some(Dir(cs)) => FolderNode(c.name, DenoteChildren(c.blockref.blockid, cs))
  }

  function DenoteChildren(parent: BlockId, cs: seq<Child>): seq<Node>
    requires forall c :: c in cs ==> IsChild(parent, c)
    decreases parent, 0, |cs|
  {
    if cs == [] then []
    else
      assert IsChild(parent, cs[0]);
      [DenoteChild(cs[0])] + DenoteChildren(parent, cs[1..])
  }

  /** The folder behind a directory reference, read from the ids alone. */
  function Contents(root: BlockRef): seq<Node> {
    match FromFull(root.blockid.data, root.key, Directory)
    case None => []
    case Some(dec) => DenoteChildren(root.blockid, dec.children)
  }

  // ---------------------------------------------------------------- writing

  /** `write_to_dir_rec`; `None` is a panic on a missing, partial or undecodable block. */
  function WriteChildren(blocks: Blocks, parent: BlockId, cs: seq<Child>): (r: Option<seq<Node>>)
    requires Honest(blocks) && forall c :: c in cs ==> IsChild(parent, c)
    decreases parent, 0, |cs|
  {
    if cs == [] then Some([])
    else
      assert IsChild(parent, cs[0]);
      match WriteChild(blocks, cs[0])
      case None => None
      case Some(node) =>
        match WriteChildren(blocks, parent, cs[1..])
        case None => None
        case Some(nodes) => Some([node] + nodes)
  }

  function WriteChild(blocks: Blocks, c: Child): (r: Option<Node>)
    requires Honest(blocks)
    decreases c.blockref.blockid, 1, 0
  {
    var id := c.blockref.blockid;
    if !IsFull(blocks, id) then None
    else
      match FromFull(blocks[id].data, c.blockref.key, c.kind)
      case None => None
      case Some(File(bytes)) => Some(FileNode(c.name, bytes))
      case Some(Dir(cs)) =>
        match WriteChildren(blocks, id, cs)
        case None => None
        case Some(nodes) => Some(FolderNode(c.name, nodes))
  }

  /** `write_to_dir` of the root. */
  function WriteToDir(blocks: Blocks, root: BlockRef): (r: Option<seq<Node>>)
    requires Honest(blocks)
  {
    if !IsFull(blocks, root.blockid) then None
    else
      match FromFull(blocks[root.blockid].data, root.key, Directory)
      case None => None
      case Some(dec) => WriteChildren(blocks, root.blockid, dec.children)
  }

  /** What is written, then what `cs[i..]` gives; `None` once anything panics. */
  function WrittenWith(folder: seq<Node>, rest: Option<seq<Node>>): Option<seq<Node>> {
    if rest.None? then None else Some(folder + rest.value)
  }

  lemma {:induction false} WriteNext(
      blocks: Blocks, parent: BlockId, cs: seq<Child>, i: nat, node: Node, folder: seq<Node>)
    requires Honest(blocks) && (forall c :: c in cs ==> IsChild(parent, c)) && i < |cs|
    requires WriteChild(blocks, cs[i]) == Some(node)
    ensures WrittenWith(folder, WriteChildren(blocks, parent, cs[i..]))
         == WrittenWith(folder + [node], WriteChildren(blocks, parent, cs[i + 1..]))
  {
    var tail := cs[i..];
    assert tail[0] == cs[i] && tail[1..] == cs[i + 1..];
    var rest := WriteChildren(blocks, parent, cs[i + 1..]);
    if rest.Some? {
      assert folder + ([node] + rest.value) == (folder + [node]) + rest.value;
    }
  }

  /** The recursive loop itself. */
  method WriteToDirRec(blocks: Blocks, parent: BlockId, cs: seq<Child>) returns (r: Option<seq<Node>>)
    requires Honest(blocks) && forall c :: c in cs ==> IsChild(parent, c)
    ensures r == WriteChildren(blocks, parent, cs)
    decreases parent
  {
    var folder: seq<Node> := [];
    var i := 0;
    assert cs[0..] == cs && forall nodes: seq<Node> :: folder + nodes == nodes;
    while i < |cs|
      invariant 0 <= i <= |cs|
      invariant WriteChildren(blocks, parent, cs) == WrittenWith(folder, WriteChildren(blocks, parent, cs[i..]))
    {
      var c := cs[i];
      assert IsChild(parent, c) && cs[i..][1..] == cs[i + 1..];
      var id := c.blockref.blockid;
      if !IsFull(blocks, id) {
        return None;
      }
      var dec := FromFull(blocks[id].data, c.blockref.key, c.kind);
      if dec.None? {
        return None;
      }
      var node;
      if dec.value.Dir? {
        var inner := WriteToDirRec(blocks, id, dec.value.children);
        if inner.None? {
          return None;
        }
        node := FolderNode(c.name, inner.value);
      } else {
        node := FileNode(c.name, dec.value.bytes);
      }
      WriteNext(blocks, parent, cs, i, node, folder);
      folder := folder + [node];
      i := i + 1;
    }
    assert folder + [] == folder;
    return Some(folder);
  }

  lemma {:induction false} WriteChildrenIff(blocks: Blocks, ref: BlockRef, kind: BlockType, cs: seq<Child>)
    requires Honest(blocks) && WellFormed(ref, kind) && forall c :: c in cs ==> IsChild(ref.blockid, c)
    ensures WriteChildren(blocks, ref.blockid, cs)
         == if forall c :: c in cs ==> AllFull(blocks, c.blockref.blockid)
            then Some(DenoteChildren(ref.blockid, cs)) else None
    decreases ref.blockid, 0, |cs|
  {
    if cs != [] {
      var c := cs[0];
      assert IsChild(ref.blockid, c);
      WellFormedChild(ref, kind, c);
      WriteChildIff(blocks, c);
      WriteChildrenIff(blocks, ref, kind, cs[1..]);
      assert cs == [c] + cs[1..];
    }
  }

  lemma {:induction false} WriteChildIff(blocks: Blocks, c: Child)
    requires Honest(blocks) && WellFormed(c.blockref, c.kind)
    ensures WriteChild(blocks, c) == if AllFull(blocks, c.blockref.blockid) then Some(DenoteChild(c)) else None
    decreases c.blockref.blockid, 1, 0
  {
    AllFullUnfold(blocks, c.blockref.blockid);
    match FromFull(c.blockref.blockid.data, c.blockref.key, c.kind)
    case Some(Dir(cs)) => WriteChildrenIff(blocks, c.blockref, c.kind, cs);
    case _ =>
  }

  /** Writing succeeds exactly when every block of the tree is full, and then writes the folder
      that the reference denotes. */
  lemma {:induction false} WriteToDirIff(blocks: Blocks, root: BlockRef)
    requires Honest(blocks) && WellFormed(root, Directory)
    ensures WriteToDir(blocks, root) == if AllFull(blocks, root.blockid) then Some(Contents(root)) else None
  {
    AllFullUnfold(blocks, root.blockid);
    WriteChildrenIff(blocks, root, Directory, FromFull(root.blockid.data, root.key, Directory).value.children);
  }

  // ---------------------------------------------------------------- databases of folders

  /** A tree without symlinks and special files. */
  function Strip(node: Node): seq<Node>
    decreases node, 1
  {
    match node
    case FileNode(_, _) => [node]
    case FolderNode(name, entries) => [FolderNode(name, StripAll(entries))]
    case Other(_) => []
  }

  function StripAll(entries: seq<Node>): seq<Node>
    decreases entries, 0
  {
    if entries == [] then [] else Strip(entries[0]) + StripAll(entries[1..])
  }

  // ---------------------------------------------------------------- symlinks dropped

  /** What a tree holds, in order: files with their bytes and folders, each under its path. */
  datatype Listed = ListedFile(path: Path, bytes: seq<byte>) | ListedFolder(path: Path)

  function List(node: Node, path: Path): seq<Listed>
    decreases node, 1
  {
    match node
    case FileNode(name, bytes) => [ListedFile(path + [name], bytes)]
    case FolderNode(name, entries) => [ListedFolder(path + [name])] + ListAll(entries, path + [name])
    case Other(_) => []
  }

  function ListAll(entries: seq<Node>, path: Path): seq<Listed>
    decreases entries, 0
  {
    if entries == [] then [] else List(entries[0], path) + ListAll(entries[1..], path)
  }

  predicate OnlyFiles(node: Node)
    decreases node, 1
  {
    match node
    case FileNode(_, _) => true
    case FolderNode(_, entries) => OnlyFilesAll(entries)
    case Other(_) => false
  }

  predicate OnlyFilesAll(entries: seq<Node>)
    decreases entries, 0
  {
    entries == [] || (OnlyFiles(entries[0]) && OnlyFilesAll(entries[1..]))
  }

  /** Stripping drops symlinks and nothing else: the same files and folders under the same paths, in
      the same order, and a tree without symlinks stays as it is. */
  lemma {:induction false} StripKeepsFiles(entries: seq<Node>, path: Path)
    ensures ListAll(StripAll(entries), path) == ListAll(entries, path) && OnlyFilesAll(StripAll(entries))
    ensures OnlyFilesAll(entries) ==> StripAll(entries) == entries
    decreases entries, 1
  {
    if entries != [] {
      StripKeepsNode(entries[0], path);
      StripKeepsFiles(entries[1..], path);
      ListConcat(Strip(entries[0]), StripAll(entries[1..]), path);
      assert entries == [entries[0]] + entries[1..];
    }
  }

  lemma {:induction false} ListOne(node: Node, path: Path)
    ensures ListAll([node], path) == List(node, path) && (OnlyFilesAll([node]) <==> OnlyFiles(node))
  {
    assert [node][1..] == [] && ListAll([], path) == [];
    assert List(node, path) + [] == List(node, path);
  }

  lemma {:induction false} StripKeepsNode(node: Node, path: Path)
    ensures ListAll(Strip(node), path) == List(node, path) && OnlyFilesAll(Strip(node))
    ensures OnlyFiles(node) ==> Strip(node) == [node]
    decreases node, 0
  {
    match node
    case FileNode(_, _) => ListOne(node, path);
    case FolderNode(name, entries) =>
      StripKeepsFiles(entries, path + [name]);
      ListOne(FolderNode(name, StripAll(entries)), path);
    case Other(_) =>
  }

  lemma {:induction false} ListConcat(a: seq<Node>, b: seq<Node>, path: Path)
    ensures ListAll(a + b, path) == ListAll(a, path) + ListAll(b, path)
    ensures OnlyFilesAll(a + b) <==> OnlyFilesAll(a) && OnlyFilesAll(b)
  {
    if a != [] {
      assert (a + b)[1..] == a[1..] + b;
      ListConcat(a[1..], b, path);
    } else {
      assert a + b == b;
    }
  }

  /** All blocks full and honest, every directory entry stored. */
  ghost predicate Complete(blocks: Blocks) {
    && Honest(blocks)
    && (forall id :: id in blocks ==> blocks[id].Full?)
    && (forall id, c :: id in blocks && IsChild(id, c) ==> c.blockref.blockid in blocks)
  }

  ghost predicate Stored(blocks: Blocks, cs: seq<Child>) {
    forall c :: c in cs ==> c.blockref.blockid in blocks && WellFormed(c.blockref, c.kind)
  }

  lemma {:induction false} CompleteMerge(a: Blocks, b: Blocks, cs: seq<Child>, ds: seq<Child>)
    requires Complete(a) && Complete(b) && Stored(a, cs) && Stored(b, ds)
    ensures Complete(a + b) && Stored(a + b, cs + ds)
  {
  }

  lemma {:induction false} RefIsWellFormed(d: Decoded, key: Key)
    requires d.Dir? ==> forall c :: c in d.children ==> WellFormed(c.blockref, c.kind)
    ensures WellFormed(RefTo(d, key), KindOf(d))
    ensures forall c :: IsChild(RefTo(d, key).blockid, c) <==> d.Dir? && c in d.children
  {
    BlockRoundTrip(d, key);
    var data := ToBlock(d, key);
    forall i | 0 <= i < |data| && data[i].Entry? ensures WellFormed(data[i].child.blockref, data[i].child.kind) {
      assert Entry(data[i].child) in data;
    }
  }

  /** Adding a directory (or file) block over children that are all stored. */
  lemma {:induction false} CompleteAdd(blocks: Blocks, d: Decoded, key: Key, name: string)
    requires Complete(blocks) && (d.Dir? ==> Stored(blocks, d.children))
    ensures Complete(blocks + FullOf(d, key))
    ensures Stored(blocks + FullOf(d, key), [Child(name, KindOf(d), RefTo(d, key))])
  {
    RefIsWellFormed(d, key);
  }

  lemma {:induction false} NodeIsComplete(node: Node, path: Path, keys: Keys)
    ensures Complete(BlocksOf(node, path, keys)) && Stored(BlocksOf(node, path, keys), EncodeNode(node, path, keys))
    decreases node, 1
  {
    match node
    case FileNode(name, bytes) =>
      CompleteAdd(map[], File(bytes), keys(path), name);
      assert map[] + FullOf(File(bytes), keys(path)) == FullOf(File(bytes), keys(path));
    case FolderNode(name, entries) =>
      EntriesAreComplete(entries, path, keys);
      CompleteAdd(BlocksOfEntries(entries, path, keys), Dir(EncodeEntries(entries, path, keys)), keys(path), name);
    case Other(_) =>
  }

  lemma {:induction false} EntriesAreComplete(entries: seq<Node>, path: Path, keys: Keys)
    ensures Complete(BlocksOfEntries(entries, path, keys))
    ensures Stored(BlocksOfEntries(entries, path, keys), EncodeEntries(entries, path, keys))
    decreases entries, 0
  {
    if entries != [] {
      var sub := path + [entries[0].name];
      NodeIsComplete(entries[0], sub, keys);
      EntriesAreComplete(entries[1..], path, keys);
      CompleteMerge(BlocksOf(entries[0], sub, keys), BlocksOfEntries(entries[1..], path, keys),
                    EncodeNode(entries[0], sub, keys), EncodeEntries(entries[1..], path, keys));
    }
  }

  lemma {:induction false} CompleteReaches(blocks: Blocks, id: BlockId, x: BlockId)
    requires Complete(blocks) && id in blocks && Reaches(id, x)
    ensures IsFull(blocks, x)
    decreases id
  {
    if id != x {
      var i :| 0 <= i < |id.data| && id.data[i].Entry? && Reaches(id.data[i].child.blockref.blockid, x);
      assert IsChild(id, id.data[i].child);
      CompleteReaches(blocks, id.data[i].child.blockref.blockid, x);
    }
  }

  /** The database of a folder is complete, and its root well formed and stored. */
  lemma {:induction false} FolderDbIsComplete(tree: Node, path: Path, keys: Keys)
    requires tree.FolderNode?
    ensures var root, blocks := RootRef(tree, path, keys), BlocksOf(tree, path, keys);
            Complete(blocks) && WellFormed(root, Directory) && root.blockid in blocks && AllFull(blocks, root.blockid)
  {
    var root, blocks := RootRef(tree, path, keys), BlocksOf(tree, path, keys);
    NodeIsComplete(tree, path, keys);
    assert EncodeNode(tree, path, keys)[0] == Child(tree.name, Directory, root);
    assert Child(tree.name, Directory, root) in EncodeNode(tree, path, keys);
    forall x | Reaches(root.blockid, x) ensures IsFull(blocks, x) {
      CompleteReaches(blocks, root.blockid, x);
    }
  }

  lemma {:induction false} DenoteAppend(parent: BlockId, xs: seq<Child>, ys: seq<Child>)
    requires forall c :: c in xs + ys ==> IsChild(parent, c)
    ensures (forall c :: c in xs ==> IsChild(parent, c)) && (forall c :: c in ys ==> IsChild(parent, c))
    ensures DenoteChildren(parent, xs + ys) == DenoteChildren(parent, xs) + DenoteChildren(parent, ys)
  {
    assert forall c :: c in xs || c in ys ==> c in xs + ys;
    if xs == [] {
      assert xs + ys == ys;
    } else {
      assert (xs + ys)[1..] == xs[1..] + ys;
      DenoteAppend(parent, xs[1..], ys);
    }
  }

  lemma {:induction false} NodeDenotes(node: Node, path: Path, keys: Keys, parent: BlockId)
    requires forall c :: c in EncodeNode(node, path, keys) ==> IsChild(parent, c)
    ensures DenoteChildren(parent, EncodeNode(node, path, keys)) == Strip(node)
    decreases node, 1
  {
    match node
    case FileNode(name, bytes) =>
      BlockRoundTrip(File(bytes), keys(path));
    case FolderNode(name, entries) =>
      var d := Dir(EncodeEntries(entries, path, keys));
      BlockRoundTrip(d, keys(path));
      var id := Hash(ToBlock(d, keys(path)));
      assert FromFull(id.data, keys(path), Directory) == Some(d);
      EntriesDenote(entries, path, keys, id);
    case Other(_) =>
  }

  lemma {:induction false} EntriesDenote(entries: seq<Node>, path: Path, keys: Keys, parent: BlockId)
    requires forall c :: c in EncodeEntries(entries, path, keys) ==> IsChild(parent, c)
    ensures DenoteChildren(parent, EncodeEntries(entries, path, keys)) == StripAll(entries)
    decreases entries, 0
  {
    if entries != [] {
      var sub := path + [entries[0].name];
      var xs, ys := EncodeNode(entries[0], sub, keys), EncodeEntries(entries[1..], path, keys);
      DenoteAppend(parent, xs, ys);
      NodeDenotes(entries[0], sub, keys, parent);
      EntriesDenote(entries[1..], path, keys, parent);
    }
  }

  /** Building a database and writing it out reproduces the folder, symlinks dropped. */
  lemma {:induction false} FolderRoundTrip(tree: Node, path: Path, keys: Keys)
    requires tree.FolderNode?
    ensures Contents(RootRef(tree, path, keys)) == StripAll(tree.entries)
    ensures Honest(BlocksOf(tree, path, keys))
    ensures WriteToDir(BlocksOf(tree, path, keys), RootRef(tree, path, keys)) == Some(StripAll(tree.entries))
  {
    FolderDbIsComplete(tree, path, keys);
    var d := Dir(EncodeEntries(tree.entries, path, keys));
    BlockRoundTrip(d, keys(path));
    assert FromFull(RootRef(tree, path, keys).blockid.data, keys(path), Directory) == Some(d);
    EntriesDenote(tree.entries, path, keys, RootRef(tree, path, keys).blockid);
    WriteToDirIff(BlocksOf(tree, path, keys), RootRef(tree, path, keys));
  }
}
