/** The frontier of a tree that is being fetched: what is stored, what is on its way, and why
    nothing is forgotten. */
module Frontier {
  import opened Blocks
  import opened Visitors
  import opened FolderOutput
  import opened Sync

  /** Every entry of a full directory is stored or requested. */
  ghost predicate Closed(blocks: Blocks, pending: set<BlockId>) {
    forall id, c :: IsFull(blocks, id) && IsChild(id, c) ==>
      c.blockref.blockid in blocks || c.blockref.blockid in pending
  }

  /** `x` is the root, or an entry of a directory that full directories lead to. */
  ghost predicate OnEdge(blocks: Blocks, root: BlockId, x: BlockId) {
    x == root || exists d, c :: FullPath(blocks, root, d) && IsChild(d, c) && c.blockref.blockid == x
  }

  ghost predicate IsPartial(blocks: Blocks, x: BlockId) { x in blocks && blocks[x].Partial? }

  ghost predicate FrontierOk(blocks: Blocks, pending: set<BlockId>, root: BlockId) {
    && Closed(blocks, pending)
    && (root in blocks || root in pending)
    && (forall x :: x in pending ==> x !in blocks && OnEdge(blocks, root, x))
    && (forall x :: IsPartial(blocks, x) ==> OnEdge(blocks, root, x))
  }

  ghost predicate Outstanding(blocks: Blocks, pending: set<BlockId>) {
    pending != {} || exists x :: IsPartial(blocks, x)
  }

  lemma {:induction false} FullPathGrows(a: Blocks, b: Blocks, id: BlockId, x: BlockId)
    requires FullPath(a, id, x) && forall y :: IsFull(a, y) ==> IsFull(b, y)
    ensures FullPath(b, id, x)
    decreases id
  {
    if id != x {
      var i :| 0 <= i < |id.data| && id.data[i].Entry? && FullPath(a, id.data[i].child.blockref.blockid, x);
      FullPathGrows(a, b, id.data[i].child.blockref.blockid, x);
    }
  }

  lemma {:induction false} FullPathExtends(blocks: Blocks, id: BlockId, d: BlockId, c: Child)
    requires FullPath(blocks, id, d) && IsChild(d, c) && IsFull(blocks, c.blockref.blockid)
    ensures FullPath(blocks, id, c.blockref.blockid)
    decreases id
  {
    var x := c.blockref.blockid;
    assert FullPath(blocks, x, x);
    if id == d {
      var i :| 0 <= i < |d.data| && d.data[i] == Entry(c);
      assert d.data[i].Entry? && FullPath(blocks, d.data[i].child.blockref.blockid, x);
    } else {
      var i :| 0 <= i < |id.data| && id.data[i].Entry? && FullPath(blocks, id.data[i].child.blockref.blockid, d);
      FullPathExtends(blocks, id.data[i].child.blockref.blockid, d, c);
    }
  }

  lemma {:induction false} FullPathReaches(blocks: Blocks, id: BlockId, x: BlockId)
    requires FullPath(blocks, id, x)
    ensures Reaches(id, x) && IsFull(blocks, x)
    decreases id
  {
    if id != x {
      var i :| 0 <= i < |id.data| && id.data[i].Entry? && FullPath(blocks, id.data[i].child.blockref.blockid, x);
      FullPathReaches(blocks, id.data[i].child.blockref.blockid, x);
    }
  }

  lemma {:induction false} OnEdgeGrows(a: Blocks, b: Blocks, root: BlockId, x: BlockId)
    requires OnEdge(a, root, x) && forall y :: IsFull(a, y) ==> IsFull(b, y)
    ensures OnEdge(b, root, x)
  {
    if x != root {
      var d, c :| FullPath(a, root, d) && IsChild(d, c) && c.blockref.blockid == x;
      FullPathGrows(a, b, root, d);
    }
  }

  lemma {:induction false} OnEdgeReaches(blocks: Blocks, root: BlockId, x: BlockId)
    requires OnEdge(blocks, root, x)
    ensures Reaches(root, x)
  {
    if x != root {
      var d, c :| FullPath(blocks, root, d) && IsChild(d, c) && c.blockref.blockid == x;
      FullPathReaches(blocks, root, d);
      assert Reaches(x, x);
      ReachesChild(d, c, x);
      ReachesTransitive(root, d, x);
    }
  }

  lemma {:induction false} OnEdgeBecomesPath(blocks: Blocks, root: BlockId, x: BlockId)
    requires OnEdge(blocks, root, x) && IsFull(blocks, x)
    ensures FullPath(blocks, root, x)
  {
    if x != root {
      var d, c :| FullPath(blocks, root, d) && IsChild(d, c) && c.blockref.blockid == x;
      FullPathExtends(blocks, root, d, c);
    }
  }

  /** Nothing on its way: then every block of the tree is full. */
  lemma {:induction false} NothingOutstanding(blocks: Blocks, pending: set<BlockId>, id: BlockId, x: BlockId)
    requires Closed(blocks, pending) && !Outstanding(blocks, pending)
    requires id in blocks && Reaches(id, x)
    ensures IsFull(blocks, x)
    decreases id
  {
    assert IsFull(blocks, id) by {
      assert !IsPartial(blocks, id);
    }
    if id != x {
      var i :| 0 <= i < |id.data| && id.data[i].Entry? && Reaches(id.data[i].child.blockref.blockid, x);
      assert IsChild(id, id.data[i].child);
      NothingOutstanding(blocks, pending, id.data[i].child.blockref.blockid, x);
    }
  }

  /** The tree is complete exactly when nothing is outstanding. */
  lemma {:induction false} CompleteIff(blocks: Blocks, pending: set<BlockId>, root: BlockId)
    requires FrontierOk(blocks, pending, root)
    ensures AllFull(blocks, root) <==> !Outstanding(blocks, pending)
  {
    if AllFull(blocks, root) {
      if x :| x in pending {
        OnEdgeReaches(blocks, root, x);
        assert false;
      }
      if x :| IsPartial(blocks, x) {
        OnEdgeReaches(blocks, root, x);
        assert false;
      }
    }
    if !Outstanding(blocks, pending) {
      forall x | Reaches(root, x) ensures IsFull(blocks, x) {
        NothingOutstanding(blocks, pending, root, x);
      }
    }
  }

  /** A requested block is stored as partial. */
  lemma {:induction false} FrontierAdd(blocks: Blocks, pending: set<BlockId>, root: BlockId, b: Block)
    requires FrontierOk(blocks, pending, root) && b.Partial? && b.id in pending
    ensures FrontierOk(blocks[b.id := b], pending - {b.id}, root)
  {
    var blocks' := blocks[b.id := b];
    forall x | OnEdge(blocks, root, x) ensures OnEdge(blocks', root, x) {
      OnEdgeGrows(blocks, blocks', root, x);
    }
    forall x | IsPartial(blocks', x) ensures OnEdge(blocks', root, x) {
      assert x == b.id || IsPartial(blocks, x);
    }
    assert forall id :: IsFull(blocks', id) ==> IsFull(blocks, id);
  }

  /** A chunk is stored in a partial block, which stays partial. */
  lemma {:induction false} FrontierStore(blocks: Blocks, pending: set<BlockId>, root: BlockId, b: Block)
    requires FrontierOk(blocks, pending, root) && b.Partial? && IsPartial(blocks, b.id)
    ensures FrontierOk(blocks[b.id := b], pending, root)
  {
    var blocks' := blocks[b.id := b];
    forall x | OnEdge(blocks, root, x) ensures OnEdge(blocks', root, x) {
      OnEdgeGrows(blocks, blocks', root, x);
    }
    assert forall id :: IsFull(blocks', id) <==> IsFull(blocks, id);
    assert forall x :: IsPartial(blocks', x) ==> IsPartial(blocks, x);
  }

  /** A partial block becomes full and its missing entries are requested. */
  lemma {:induction false} FrontierPromote(blocks: Blocks, pending: set<BlockId>, root: BlockId, b: Block, d: Decoded)
    requires FrontierOk(blocks, pending, root) && b.Full? && IsPartial(blocks, b.id)
    requires DecodesTo(b.id, d)
    ensures var blocks' := blocks[b.id := b];
            FullPath(blocks', root, b.id) && FrontierOk(blocks', pending + Wanted(d, blocks'), root)
  {
    var blocks' := blocks[b.id := b];
    var pending' := pending + Wanted(d, blocks');
    DecodedChildren(b.id, d);
    assert forall y :: IsFull(blocks, y) ==> IsFull(blocks', y);
    forall x | OnEdge(blocks, root, x) ensures OnEdge(blocks', root, x) {
      OnEdgeGrows(blocks, blocks', root, x);
    }
    OnEdgeBecomesPath(blocks', root, b.id);
    forall x | x in pending' ensures x !in blocks' && OnEdge(blocks', root, x) {
      if x !in pending {
        var c :| c in d.children && c.blockref.blockid == x;
        assert IsChild(b.id, c);
      }
    }
    forall id, c | IsFull(blocks', id) && IsChild(id, c)
      ensures c.blockref.blockid in blocks' || c.blockref.blockid in pending'
    {
      if id == b.id {
        assert d.Dir? && c in d.children;
      } else {
        assert IsFull(blocks, id);
      }
    }
    assert forall x :: IsPartial(blocks', x) ==> IsPartial(blocks, x);
  }

  /** A new root is requested over a complete database that does not have it. */
  lemma {:induction false} FrontierStart(blocks: Blocks, root: BlockId)
    requires Complete(blocks) && root !in blocks
    ensures FrontierOk(blocks, {root}, root)
  {
  }
}
