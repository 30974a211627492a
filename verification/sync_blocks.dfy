/** Partial blocks: what chunks that have arrived say about the data, and when a block is whole. */
module PartialBlocks {
  import opened Blocks
  import opened TransferCodec
  import opened TransferOuts
  import opened Sync

  /** The available chunks of a partial block are those of the block its id stands for. */
  ghost predicate PartialOk(b: Block)
    requires b.Partial?
  {
    && |b.data| == |b.id.data|
    && |b.available| == Chunks(|b.data|)
    && forall k :: 0 <= k < |b.available| && b.available[k] ==> ChunkOf(b.data, k) == ChunkOf(b.id.data, k)
  }

  lemma {:induction false} ChunkBounds(data: seq<Atom>, k: nat)
    requires k < Chunks(|data|)
    ensures ChunkStart(k) < |data|
    ensures 1 <= |ChunkOf(data, k)| <= CHUNK_SIZE
    ensures ChunkStart(k) + |ChunkOf(data, k)| <= |data|
    ensures ChunkStart(k + 1) <= |data| ==> |ChunkOf(data, k)| == CHUNK_SIZE
  {
  }

  lemma {:induction false} FreshPartialOk(id: BlockId)
    ensures PartialOk(EmptyPartial(id, |id.data|))
  {
  }

  function ChunkEnd(len: nat, k: nat): nat {
    if ChunkStart(k + 1) <= len then ChunkStart(k + 1) else len
  }

  lemma {:induction false} ChunkSlice(data: seq<Atom>, k: nat)
    requires k < Chunks(|data|)
    ensures ChunkStart(k) < ChunkEnd(|data|, k) <= |data|
    ensures ChunkOf(data, k) == data[ChunkStart(k)..ChunkEnd(|data|, k)]
  {
  }

  lemma {:induction false} ChunksApart(len: nat, j: nat, k: nat)
    requires j != k
    ensures ChunkEnd(len, j) <= ChunkStart(k) || ChunkEnd(len, k) <= ChunkStart(j)
  {
  }

  lemma {:induction false} SpliceOutside(s: seq<Atom>, from: nat, data: seq<Atom>, a: nat, z: nat)
    requires from + |data| <= |s| && a <= z <= |s| && (z <= from || from + |data| <= a)
    ensures (s[..from] + data + s[from + |data|..])[a..z] == s[a..z]
  {
  }

  lemma {:induction false} SpliceInside(s: seq<Atom>, from: nat, data: seq<Atom>)
    requires from + |data| <= |s|
    ensures (s[..from] + data + s[from + |data|..])[from..from + |data|] == data
  {
  }

  /** Storing chunk `k` changes that chunk and no other. */
  lemma {:induction false} StoredChunks(b: Block, k: nat, data: seq<Atom>, j: nat)
    requires b.Partial? && PartialOk(b) && k < |b.available| && data == ChunkOf(b.id.data, k)
    requires j < |b.available|
    ensures StoreChunk(b, k, data).Some?
    ensures var b' := StoreChunk(b, k, data).value;
            |b'.data| == |b.data| && ChunkOf(b'.data, j) == if j == k then data else ChunkOf(b.data, j)
  {
    ChunkBounds(b.id.data, k);
    ChunkSlice(b.id.data, k);
    var b' := StoreChunk(b, k, data).value;
    ChunkSlice(b'.data, j);
    if j == k {
      SpliceInside(b.data, ChunkStart(k), data);
    } else {
      ChunkSlice(b.data, j);
      ChunksApart(|b.data|, j, k);
      SpliceOutside(b.data, ChunkStart(k), data, ChunkStart(j), ChunkEnd(|b.data|, j));
    }
  }

  /** Any order of chunks, and any repetition of them, keeps a partial block right. */
  lemma {:induction false} StoreKeepsPartial(b: Block, k: nat, data: seq<Atom>)
    requires b.Partial? && PartialOk(b) && k < |b.available| && data == ChunkOf(b.id.data, k)
    ensures StoreChunk(b, k, data).Some?
    ensures var b' := StoreChunk(b, k, data).value;
            b'.Partial? && b'.id == b.id && b'.available == b.available[k := true] && PartialOk(b')
  {
    StoredChunks(b, k, data, k);
    var b' := StoreChunk(b, k, data).value;
    forall j | 0 <= j < |b'.available| && b'.available[j] ensures ChunkOf(b'.data, j) == ChunkOf(b'.id.data, j) {
      StoredChunks(b, k, data, j);
    }
  }

  /** A partial block with every chunk available is exactly the sender's block. */
  lemma {:induction false} WholeBlock(b: Block)
    requires b.Partial? && PartialOk(b) && AllAvailable(b.available)
    ensures b.data == b.id.data
  {
    forall p | 0 <= p < |b.data| ensures b.data[p] == b.id.data[p] {
      var k := p / CHUNK_SIZE;
      assert k < Chunks(|b.data|);
      ChunkBounds(b.data, k);
      ChunkBounds(b.id.data, k);
      assert ChunkOf(b.data, k) == ChunkOf(b.id.data, k);
      assert b.data[p] == ChunkOf(b.data, k)[p - ChunkStart(k)];
      assert b.id.data[p] == ChunkOf(b.id.data, k)[p - ChunkStart(k)];
    }
  }
}
