/** Traversal of a block tree in a database, with the two visitors, and writing a tree out. */
module Visitors {
  import opened Varints
  import opened Blocks

  /** What a visitor answers at each kind of block: `Some` ends the traversal. */
  datatype Visitor<!T> = Visitor(
    visitDir: (BlockId, seq<Child>) -> Option<T>,
    visitLeaf: (BlockId, seq<byte>) -> Option<T>,
    visitPartial: BlockId -> Option<T>,
    visitMissing: BlockId -> Option<T>)

  /** A traversal ends with an answer, without one, or in a panic. */
  datatype Walk<T> = Found(value: T) | NotFound | Panic

  function FromOption<T>(o: Option<T>): Walk<T> {
    match o case Some(t) => Found(t) case None => NotFound
  }

  function Traverse<T>(blocks: Blocks, root: BlockRef, v: Visitor<T>): (r: Walk<T>)
    requires Honest(blocks)
  {
    if !IsFull(blocks, root.blockid) then Panic
    else
      match FromFull(blocks[root.blockid].data, root.key, Directory)
      case None => Panic
      case Some(dec) =>
        match v.visitDir(root.blockid, dec.children)
        case Some(t) => Found(t)
        case None => TraverseRec(blocks, root, dec, v)
  }

  function TraverseRec<T>(blocks: Blocks, ref: BlockRef, dec: Decoded, v: Visitor<T>): (r: Walk<T>)
    requires Honest(blocks)
    requires dec.Dir? ==> forall c :: c in dec.children ==> IsChild(ref.blockid, c)
    decreases ref.blockid, 1, 0
  {
    var id := ref.blockid;
    if id !in blocks then FromOption(v.visitMissing(id))
    else if blocks[id].Partial? then FromOption(v.visitPartial(id))
    else
      match dec
      case Dir(children) =>
        (match v.visitDir(id, children)
         case Some(t) => Found(t)
         case None => TraverseChildren(blocks, ref, children, v))
      case File(bytes) => FromOption(v.visitLeaf(id, bytes))
  }

  function TraverseChildren<T>(blocks: Blocks, ref: BlockRef, children: seq<Child>, v: Visitor<T>): (r: Walk<T>)
    requires Honest(blocks)
    requires forall c :: c in children ==> IsChild(ref.blockid, c)
    decreases ref.blockid, 0, |children|
  {
    if children == [] then NotFound
    else
      var c := children[0];
      assert IsChild(ref.blockid, c);
      var first := TraverseChild(blocks, ref, c, v);
      if first.NotFound? then TraverseChildren(blocks, ref, children[1..], v) else first
  }

  function TraverseChild<T>(blocks: Blocks, ref: BlockRef, c: Child, v: Visitor<T>): (r: Walk<T>)
    requires Honest(blocks)
    requires IsChild(ref.blockid, c)
    decreases ref.blockid, 0, 0
  {
    var id := c.blockref.blockid;
    if id !in blocks then FromOption(v.visitMissing(ref.blockid))
    else if blocks[id].Partial? then FromOption(v.visitPartial(id))
    else
      match FromFull(blocks[id].data, c.blockref.key, c.kind)
      case None => Panic
      case Some(dec) => TraverseRec(blocks, c.blockref, dec, v)
  }

  // ---------------------------------------------------------------- verify

  /** Every block of the tree under `id` is stored and complete. */
  ghost predicate AllFull(blocks: Blocks, id: BlockId) {
    forall x :: Reaches(id, x) ==> IsFull(blocks, x)
  }

  function VerifyVisitor(): Visitor<()> {
    Visitor((_, _) => None, (_, _) => None, _ => Some(()), _ => Some(()))
  }

  /** `None` is a panic. */
  function Verify(blocks: Blocks, root: BlockRef): (r: Option<bool>)
    requires Honest(blocks)
  {
    match Traverse(blocks, root, VerifyVisitor())
    case Panic => None
    case Found(_) => Some(false)
    case NotFound => Some(true)
  }

  lemma {:induction false} AllFullUnfold(blocks: Blocks, id: BlockId)
    ensures AllFull(blocks, id) <==>
            IsFull(blocks, id) && forall c :: IsChild(id, c) ==> AllFull(blocks, c.blockref.blockid)
  {
    if AllFull(blocks, id) {
      assert Reaches(id, id);
      forall c, x | IsChild(id, c) && Reaches(c.blockref.blockid, x) ensures IsFull(blocks, x) {
        ReachesChild(id, c, x);
      }
    }
    if IsFull(blocks, id) && forall c :: IsChild(id, c) ==> AllFull(blocks, c.blockref.blockid) {
      forall x | Reaches(id, x) ensures IsFull(blocks, x) {
        if x != id {
          var i :| 0 <= i < |id.data| && id.data[i].Entry? && Reaches(id.data[i].child.blockref.blockid, x);
          assert IsChild(id, id.data[i].child);
        }
      }
    }
  }

  ghost predicate ChildrenFull(blocks: Blocks, cs: seq<Child>) {
    forall c :: c in cs ==> AllFull(blocks, c.blockref.blockid)
  }

  lemma {:induction false} ChildrenFullUnfold(blocks: Blocks, cs: seq<Child>)
    requires cs != []
    ensures ChildrenFull(blocks, cs) <==> AllFull(blocks, cs[0].blockref.blockid) && ChildrenFull(blocks, cs[1..])
  {
    assert cs == [cs[0]] + cs[1..];
  }

  lemma {:induction false} VerifyRec(blocks: Blocks, ref: BlockRef, kind: BlockType, dec: Decoded)
    requires Honest(blocks) && WellFormed(ref, kind) && IsFull(blocks, ref.blockid)
    requires FromFull(ref.blockid.data, ref.key, kind) == Some(dec)
    ensures TraverseRec(blocks, ref, dec, VerifyVisitor())
         == if AllFull(blocks, ref.blockid) then NotFound else Found(())
    decreases ref.blockid, 1, 0
  {
    AllFullUnfold(blocks, ref.blockid);
    match dec
    case Dir(children) => VerifyChildren(blocks, ref, kind, children);
    case File(_) =>
  }

  lemma {:induction false} VerifyChildren(blocks: Blocks, ref: BlockRef, kind: BlockType, children: seq<Child>)
    requires Honest(blocks) && WellFormed(ref, kind)
    requires forall c :: c in children ==> IsChild(ref.blockid, c)
    ensures TraverseChildren(blocks, ref, children, VerifyVisitor())
         == if ChildrenFull(blocks, children) then NotFound else Found(())
    decreases ref.blockid, 0, |children|
  {
    if children != [] {
      var c := children[0];
      assert IsChild(ref.blockid, c);
      VerifyChild(blocks, ref, kind, c);
      VerifyChildren(blocks, ref, kind, children[1..]);
      ChildrenFullUnfold(blocks, children);
    }
  }

  lemma {:induction false} VerifyChild(blocks: Blocks, ref: BlockRef, kind: BlockType, c: Child)
    requires Honest(blocks) && WellFormed(ref, kind) && IsChild(ref.blockid, c)
    ensures TraverseChild(blocks, ref, c, VerifyVisitor())
         == if AllFull(blocks, c.blockref.blockid) then NotFound else Found(())
    decreases ref.blockid, 0, 0
  {
    var id := c.blockref.blockid;
    WellFormedChild(ref, kind, c);
    if IsFull(blocks, id) {
      VerifyRec(blocks, c.blockref, c.kind, FromFull(id.data, c.blockref.key, c.kind).value);
    } else {
      assert Reaches(id, id);
    }
  }

  /** With a full root, `verify` says true exactly when no block of the tree is missing or partial. */
  lemma {:induction false} VerifyIff(blocks: Blocks, root: BlockRef)
    requires Honest(blocks) && WellFormed(root, Directory) && IsFull(blocks, root.blockid)
    ensures Verify(blocks, root) == Some(AllFull(blocks, root.blockid))
  {
    VerifyRec(blocks, root, Directory, FromFull(root.blockid.data, root.key, Directory).value);
  }

  // ---------------------------------------------------------------- resolve

  function ResolveVisitor(target: BlockId): Visitor<Decoded> {
    Visitor(
      (id, children) => if id == target then Some(Dir(children)) else None,
      (id, bytes) => if id == target then Some(File(bytes)) else None,
      _ => None,
      _ => None)
  }

  /** `None` is a panic: of the traversal, or of the `unwrap` when the block was not found. */
  function Resolve(blocks: Blocks, root: BlockRef, target: BlockId): (r: Option<Decoded>)
    requires Honest(blocks)
  {
    match Traverse(blocks, root, ResolveVisitor(target))
    case Found(d) => Some(d)
    case _ => None
  }

  /** Full directories lead from `id` to the full block `target`. */
  ghost predicate FullPath(blocks: Blocks, id: BlockId, target: BlockId)
    decreases id
  {
    && IsFull(blocks, id)
    && (id == target ||
        exists i :: 0 <= i < |id.data| && id.data[i].Entry?
                    && FullPath(blocks, id.data[i].child.blockref.blockid, target))
  }

  /** `d` is the content of `target`. */
  ghost predicate DecodesTo(target: BlockId, d: Decoded) {
    exists key :: FromFull(target.data, key, KindOf(d)) == Some(d)
  }

  lemma {:induction false} DecodedChildren(target: BlockId, d: Decoded)
    requires DecodesTo(target, d)
    ensures forall c :: IsChild(target, c) <==> d.Dir? && c in d.children
  {
    var key :| FromFull(target.data, key, KindOf(d)) == Some(d);
  }

  ghost predicate ResolvedOk(target: BlockId, r: Walk<Decoded>, reachable: bool) {
    if reachable then r.Found? && DecodesTo(target, r.value) else r.NotFound?
  }

  ghost predicate PathBelow(blocks: Blocks, children: seq<Child>, target: BlockId) {
    exists c :: c in children && FullPath(blocks, c.blockref.blockid, target)
  }

  lemma {:induction false} PathBelowUnfold(blocks: Blocks, cs: seq<Child>, target: BlockId)
    requires cs != []
    ensures PathBelow(blocks, cs, target) <==>
            FullPath(blocks, cs[0].blockref.blockid, target) || PathBelow(blocks, cs[1..], target)
  {
    assert cs == [cs[0]] + cs[1..];
  }

  lemma {:induction false} FullPathUnfold(blocks: Blocks, id: BlockId, children: seq<Child>, target: BlockId)
    requires IsFull(blocks, id) && forall c :: c in children <==> IsChild(id, c)
    ensures FullPath(blocks, id, target) <==> id == target || PathBelow(blocks, children, target)
  {
    if id != target && FullPath(blocks, id, target) {
      var i :| 0 <= i < |id.data| && id.data[i].Entry? && FullPath(blocks, id.data[i].child.blockref.blockid, target);
      assert IsChild(id, id.data[i].child);
    }
    if c :| c in children && FullPath(blocks, c.blockref.blockid, target) {
      var i :| 0 <= i < |id.data| && id.data[i] == Entry(c);
    }
  }

  lemma {:induction false} ResolveRec(blocks: Blocks, ref: BlockRef, kind: BlockType, dec: Decoded, target: BlockId)
    requires Honest(blocks) && WellFormed(ref, kind) && IsFull(blocks, ref.blockid)
    requires FromFull(ref.blockid.data, ref.key, kind) == Some(dec)
    ensures ResolvedOk(target, TraverseRec(blocks, ref, dec, ResolveVisitor(target)),
                       FullPath(blocks, ref.blockid, target))
    decreases ref.blockid, 1, 0
  {
    assert KindOf(dec) == kind;
    match dec
    case Dir(children) =>
      ResolveChildren(blocks, ref, kind, children, target);
      FullPathUnfold(blocks, ref.blockid, children, target);
    case File(_) =>
      FullPathUnfold(blocks, ref.blockid, [], target);
  }

  lemma {:induction false} ResolveChildren(
      blocks: Blocks, ref: BlockRef, kind: BlockType, children: seq<Child>, target: BlockId)
    requires Honest(blocks) && WellFormed(ref, kind)
    requires forall c :: c in children ==> IsChild(ref.blockid, c)
    ensures ResolvedOk(target, TraverseChildren(blocks, ref, children, ResolveVisitor(target)),
                       PathBelow(blocks, children, target))
    decreases ref.blockid, 0, |children|
  {
    if children != [] {
      var c := children[0];
      assert IsChild(ref.blockid, c);
      ResolveChild(blocks, ref, kind, c, target);
      ResolveChildren(blocks, ref, kind, children[1..], target);
      PathBelowUnfold(blocks, children, target);
    }
  }

  lemma {:induction false} ResolveChild(blocks: Blocks, ref: BlockRef, kind: BlockType, c: Child, target: BlockId)
    requires Honest(blocks) && WellFormed(ref, kind) && IsChild(ref.blockid, c)
    ensures ResolvedOk(target, TraverseChild(blocks, ref, c, ResolveVisitor(target)),
                       FullPath(blocks, c.blockref.blockid, target))
    decreases ref.blockid, 0, 0
  {
    var id := c.blockref.blockid;
    WellFormedChild(ref, kind, c);
    if IsFull(blocks, id) {
      ResolveRec(blocks, c.blockref, c.kind, FromFull(id.data, c.blockref.key, c.kind).value, target);
    }
  }

  /** `resolve` finds a block exactly when full directories lead to it and it is full itself, and
      what it returns is that block's content; otherwise its `unwrap` panics. */
  lemma {:induction false} ResolveIff(blocks: Blocks, root: BlockRef, target: BlockId)
    requires Honest(blocks) && WellFormed(root, Directory)
    ensures Resolve(blocks, root, target).Some? <==> FullPath(blocks, root.blockid, target)
    ensures Resolve(blocks, root, target).Some? ==> DecodesTo(target, Resolve(blocks, root, target).value)
  {
    if IsFull(blocks, root.blockid) {
      ResolveRoot(blocks, root, target);
    }
  }

  lemma {:induction false} ResolveRoot(blocks: Blocks, root: BlockRef, target: BlockId)
    requires Honest(blocks) && WellFormed(root, Directory) && IsFull(blocks, root.blockid)
    ensures ResolvedOk(target, Traverse(blocks, root, ResolveVisitor(target)), FullPath(blocks, root.blockid, target))
  {
    ResolveRec(blocks, root, Directory, FromFull(root.blockid.data, root.key, Directory).value, target);
  }
}
