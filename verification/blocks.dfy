/** v2 blocks, block references and the block database.

    The hash is ideal: a block id is its content behind an injective constructor, so two blocks
    have the same id exactly when they have the same data, and no block can contain its own id.
    A block's data is a stream of atoms: the cipher's initial value, which stands for the key that
    opens the block, and then bytes (a leaf) or child entries (a directory). */
module Blocks {
  import opened Varints

  type Key = nat

  datatype Atom = Iv(key: Key) | Byte(b: byte) | Entry(child: Child)
  datatype BlockId = Hash(data: seq<Atom>)
  datatype BlockRef = BlockRef(blockid: BlockId, key: Key)
  datatype BlockType = Directory | Leaf
  datatype Child = Child(name: string, kind: BlockType, blockref: BlockRef)

  // ---------------------------------------------------------------- encoding

  datatype Decoded = Dir(children: seq<Child>) | File(bytes: seq<byte>)

  function ToBlock(d: Decoded, key: Key): (data: seq<Atom>)
    ensures data != []
  {
    match d
    case Dir(cs) => [Iv(key)] + seq(|cs|, i requires 0 <= i < |cs| => Entry(cs[i]))
    case File(bs) => [Iv(key)] + seq(|bs|, i requires 0 <= i < |bs| => Byte(bs[i]))
  }

  /** `from_full`: fails with the wrong key or when the content is not of the expected type. */
  function FromFull(data: seq<Atom>, key: Key, kind: BlockType): (r: Option<Decoded>)
    ensures r.Some? && kind.Directory? ==> r.value.Dir? && forall c :: c in r.value.children <==> Entry(c) in data
    ensures r.Some? && kind.Leaf? ==> r.value.File? && forall c :: Entry(c) !in data
  {
    if data == [] || data[0] != Iv(key) then None
    else
      match kind
      case Directory =>
        if forall i :: 1 <= i < |data| ==> data[i].Entry? then
          var cs := seq(|data| - 1, i requires 0 <= i < |data| - 1 => data[i + 1].child);
          assert forall i :: 1 <= i < |data| ==> data[i] == Entry(cs[i - 1]);
          Some(Dir(cs))
        else None
      case Leaf =>
        if forall i :: 1 <= i < |data| ==> data[i].Byte? then
          Some(File(seq(|data| - 1, i requires 0 <= i < |data| - 1 => data[i + 1].b)))
        else None
  }

  function KindOf(d: Decoded): BlockType { if d.Dir? then Directory else Leaf }

  lemma {:induction false} BlockRoundTrip(d: Decoded, key: Key)
    ensures FromFull(ToBlock(d, key), key, KindOf(d)) == Some(d)
  {
    var data := ToBlock(d, key);
    match d
    case Dir(cs) =>
      assert forall i :: 1 <= i < |data| ==> data[i] == Entry(cs[i - 1]);
      assert FromFull(data, key, Directory).value.children == cs;
    case File(bs) =>
      assert forall i :: 1 <= i < |data| ==> data[i] == Byte(bs[i - 1]);
      assert FromFull(data, key, Leaf).value.bytes == bs;
  }

  /** A block opens with its own key and no other, and as the type it was made as; only empty content
      could be either type. */
  lemma {:induction false} OpensIff(d: Decoded, key: Key, with: Key, kind: BlockType)
    ensures FromFull(ToBlock(d, key), with, kind).Some? <==>
            with == key && (kind == KindOf(d) || |ToBlock(d, key)| == 1)
  {
    var data := ToBlock(d, key);
    assert data[0] == Iv(key);
    BlockRoundTrip(d, key);
    if |data| > 1 && kind != KindOf(d) {
      assert data[1].Entry? <==> d.Dir?;
      assert data[1].Byte? <==> d.File?;
    }
  }

  // ---------------------------------------------------------------- the tree behind an id

  ghost predicate IsChild(parent: BlockId, c: Child) { Entry(c) in parent.data }

  /** `x` is `id` or a block below it. */
  ghost predicate Reaches(id: BlockId, x: BlockId)
    decreases id
  {
    id == x || exists i :: 0 <= i < |id.data| && id.data[i].Entry? && Reaches(id.data[i].child.blockref.blockid, x)
  }

  /** Every block of the tree opens with the key, and has the type, that its reference says. */
  ghost predicate WellFormed(ref: BlockRef, kind: BlockType)
    decreases ref.blockid
  {
    && FromFull(ref.blockid.data, ref.key, kind).Some?
    && forall i :: 0 <= i < |ref.blockid.data| && ref.blockid.data[i].Entry? ==>
         WellFormed(ref.blockid.data[i].child.blockref, ref.blockid.data[i].child.kind)
  }

  lemma {:induction false} WellFormedChild(ref: BlockRef, kind: BlockType, c: Child)
    requires WellFormed(ref, kind) && IsChild(ref.blockid, c)
    ensures WellFormed(c.blockref, c.kind)
    ensures kind.Directory?
  {
    var i :| 0 <= i < |ref.blockid.data| && ref.blockid.data[i] == Entry(c);
  }

  lemma {:induction false} ReachesChild(id: BlockId, c: Child, x: BlockId)
    requires IsChild(id, c) && Reaches(c.blockref.blockid, x)
    ensures Reaches(id, x)
  {
    var i :| 0 <= i < |id.data| && id.data[i] == Entry(c);
  }

  lemma {:induction false} ReachesTransitive(a: BlockId, b: BlockId, c: BlockId)
    requires Reaches(a, b) && Reaches(b, c)
    ensures Reaches(a, c)
    decreases a
  {
    if a != b {
      var i :| 0 <= i < |a.data| && a.data[i].Entry? && Reaches(a.data[i].child.blockref.blockid, b);
      ReachesTransitive(a.data[i].child.blockref.blockid, b, c);
    }
  }

  // ---------------------------------------------------------------- the database

  datatype Block =
    | Partial(id: BlockId, data: seq<Atom>, available: seq<bool>)
    | Full(id: BlockId, data: seq<Atom>)

  type Blocks = map<BlockId, Block>

  datatype Db = Db(root: BlockRef, pendingRoot: Option<BlockRef>, blocks: Blocks)

  predicate IsFull(blocks: Blocks, id: BlockId) { id in blocks && blocks[id].Full? }

  /** Full blocks hold the data their id was made from. */
  ghost predicate Honest(blocks: Blocks) {
    && (forall id :: id in blocks ==> blocks[id].id == id)
    && (forall id :: IsFull(blocks, id) ==> blocks[id].data == id.data)
  }

  predicate AllAvailable(available: seq<bool>) { forall i :: 0 <= i < |available| ==> available[i] }

  /** `try_promote`: `None` is the panic on a missing or already full block. */
  function TryPromote(blocks: Blocks, id: BlockId): (r: Option<(bool, Blocks)>) {
    if id !in blocks || blocks[id].Full? then None
    else if !AllAvailable(blocks[id].available) then Some((false, blocks))
    else Some((true, blocks[id := Full(blocks[id].id, blocks[id].data)]))
  }

  class BlockDb {
    var root: BlockRef
    var pendingRoot: Option<BlockRef>
    var blocks: Blocks

    ghost function View(): Db
      reads this
    {
      Db(root, pendingRoot, blocks)
    }

    constructor (root: BlockRef, blocks: Blocks)
      ensures View() == Db(root, None, blocks)
    {
      this.root, this.pendingRoot, this.blocks := root, None, blocks;
    }

    method SetPendingRoot(ref: BlockRef)
      modifies this`pendingRoot
      ensures pendingRoot == Some(ref)
    {
      pendingRoot := Some(ref);
    }

    /** Swaps the pending root in and returns the old one. */
    method ApplyPending() returns (was: BlockRef)
      requires pendingRoot.Some?
      modifies this`root, this`pendingRoot
      ensures was == old(root)
      ensures View() == Db(old(pendingRoot).value, None, old(blocks))
    {
      was := root;
      root := pendingRoot.value;
      pendingRoot := None;
    }

    /** `entry(id).or_insert(block)`: a block that is already stored stays. */
    method Add(block: Block)
      modifies this`blocks
      ensures blocks == if block.id in old(blocks) then old(blocks) else old(blocks)[block.id := block]
    {
      if block.id !in blocks {
        blocks := blocks[block.id := block];
      }
    }

    /** `false` in `ok` is a panic. */
    method Promote(id: BlockId) returns (ok: bool, promoted: bool)
      modifies this`blocks
      ensures ok <==> TryPromote(old(blocks), id).Some?
      ensures ok ==> TryPromote(old(blocks), id) == Some((promoted, blocks))
      ensures ok <==> id in old(blocks) && old(blocks)[id].Partial?
      ensures ok ==> (promoted <==> forall k :: 0 <= k < |old(blocks)[id].available| ==> old(blocks)[id].available[k])
      ensures ok && promoted ==> blocks == old(blocks)[id := Full(old(blocks)[id].id, old(blocks)[id].data)]
      ensures !(ok && promoted) ==> blocks == old(blocks)
    {
      promoted := false;
      if id !in blocks || blocks[id].Full? {
        return false, false;
      }
      var partial := blocks[id];
      var i := 0;
      while i < |partial.available|
        invariant 0 <= i <= |partial.available|
        invariant forall j :: 0 <= j < i ==> partial.available[j]
      {
        if !partial.available[i] {
          return true, false;
        }
        i := i + 1;
      }
      blocks := blocks - {id};
      blocks := blocks[id := Full(partial.id, partial.data)];
      assert blocks == old(blocks)[id := Full(partial.id, partial.data)];
      return true, true;
    }
  }
}
