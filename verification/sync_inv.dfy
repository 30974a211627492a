/** What every step of the v2 synchronisation keeps. */
module SyncInvariant {
  import opened Varints
  import opened Ranges
  import opened Blocks
  import opened Visitors
  import opened FolderOutput
  import opened TransferCodec
  import opened TransferOuts
  import opened Sync
  import opened PartialBlocks
  import opened Frontier

  // ---------------------------------------------------------------- messages and allocations

  /** A range of chunk ids that lies in the used part of one allocation. */
  ghost predicate InAllocation(allocs: seq<Allocation>, r: Range) {
    exists a :: a in allocs && a.from <= r.from && r.to <= a.from + Chunks(|a.id.data|)
  }

  ghost predicate RangesAllocated(allocs: seq<Allocation>, rs: seq<Range>) {
    forall i :: 0 <= i < |rs| ==> InAllocation(allocs, rs[i])
  }

  ghost predicate StatusOk(allocs: seq<Allocation>, bytes: seq<byte>) {
    && DecodeStatus(bytes).Some?
    && Ordered(DecodeStatus(bytes).value)
    && RangesAllocated(allocs, DecodeStatus(bytes).value)
  }

  ghost predicate ResponseOk(allocs: seq<Allocation>, r: Response) {
    Allocation(r.start, r.end, r.blockid) in allocs && r.len == |r.blockid.data|
  }

  ghost predicate PayloadOk(allocs: seq<Allocation>, m: Msg) {
    exists a :: a in allocs && IsChunkOf(a, m)
  }

  ghost predicate IsChunkOf(a: Allocation, m: Msg) {
    && a.from <= m.chunkid < a.from + Chunks(|a.id.data|)
    && m.data == ChunkOf(a.id.data, m.chunkid - a.from)
  }

  ghost predicate NetOk(cfg: Config, s: State) {
    && (forall id :: id in s.requests ==> id in cfg.held)
    && Pending(s.peer) <= s.requests && Accounted(s.peer, s.requests)
    && (forall r :: r in s.responses ==> ResponseOk(s.out.transfers, r) && r.blockid in s.requests)
    && (forall m :: m in s.payloads ==> PayloadOk(s.out.transfers, m))
    && (forall u :: u in s.statuses ==> StatusOk(s.out.transfers, u))
  }

  /** Every request ever made is pending, or its block stored. */
  ghost predicate Accounted(p: Peer, requests: set<BlockId>) {
    forall id :: id in requests ==> id in Pending(p) || id in p.db.blocks
  }

  ghost predicate SenderOk(cfg: Config, out: Out) {
    && AllocationsOk(out.transfers, out.next)
    && out.next < U64_LIMIT
    && (forall a :: a in out.transfers ==> a.id in cfg.held)
    && SendingOk(out.sending)
    && RangesAllocated(out.transfers, out.sending.todo)
  }

  // ---------------------------------------------------------------- the receiver

  /** Every live transfer is allocated and its block stored; every partial block has a transfer. */
  ghost predicate TransfersOk(allocs: seq<Allocation>, ts: seq<Transfer>, blocks: Blocks) {
    && (forall t :: t in ts ==> t.blockid in blocks && Allocation(t.start, t.end, t.blockid) in allocs)
    && (forall x :: IsPartial(blocks, x) ==> HasTransfer(ts, x))
  }

  /** In ascending id order, one per block. */
  ghost predicate InOrder(ts: seq<Transfer>) {
    forall i, j :: 0 <= i < j < |ts| ==> ts[i].end <= ts[j].start && ts[i].blockid != ts[j].blockid
  }

  /** Live transfers are those of the partial blocks, one to one and in order. */
  ghost predicate Tidy(ts: seq<Transfer>, blocks: Blocks) {
    InOrder(ts) && forall t :: t in ts ==> IsPartial(blocks, t.blockid)
  }

  ghost predicate HasTransfer(ts: seq<Transfer>, x: BlockId) { exists t :: t in ts && t.blockid == x }

  ghost predicate PartialsOk(blocks: Blocks) {
    forall x :: IsPartial(blocks, x) ==> PartialOk(blocks[x])
  }

  /** A partial block lacks a chunk: with the last one it would have been promoted. */
  ghost predicate Unfinished(blocks: Blocks) {
    forall x :: IsPartial(blocks, x) ==> !AllAvailable(blocks[x].available)
  }

  ghost predicate ConnOk(cfg: Config, allocs: seq<Allocation>, blocks: Blocks, conn: Conn) {
    && TransfersOk(allocs, conn.transfers, blocks)
    && PartialsOk(blocks)
    && Unfinished(blocks)
    && FrontierOk(blocks, conn.pending, cfg.root.blockid)
    && Outstanding(blocks, conn.pending)
  }

  ghost predicate PeerOk(cfg: Config, allocs: seq<Allocation>, p: Peer) {
    && Honest(p.db.blocks)
    && WellFormed(p.db.root, Directory)
    && AllFull(p.db.blocks, p.db.root.blockid)
    && p.db.pendingRoot == (if p.conn.Some? then Some(cfg.root) else None)
    && p.disk == (if p.db.root == cfg.root then Contents(cfg.root) else cfg.peerDisk)
    && (p.conn.None? ==> p.db == Db(cfg.peerRoot, None, cfg.peerBlocks) || p.db.root == cfg.root)
    && (p.conn.Some? ==> ConnOk(cfg, allocs, p.db.blocks, p.conn.value))
  }

  ghost predicate Inv(cfg: Config, s: State) {
    SenderOk(cfg, s.out) && PeerOk(cfg, s.out.transfers, s.peer) && NetOk(cfg, s)
  }

  // ---------------------------------------------------------------- start

  lemma {:induction false} InitInv(cfg: Config)
    requires cfg.Valid()
    ensures Inv(cfg, Init(cfg))
  {
    InitPeer(cfg, []);
  }

  lemma {:induction false} InitPeer(cfg: Config, allocs: seq<Allocation>)
    requires cfg.Valid()
    ensures PeerOk(cfg, allocs, Peer(Db(cfg.peerRoot, None, cfg.peerBlocks), None, cfg.peerDisk))
  {
    forall x | Reaches(cfg.peerRoot.blockid, x) ensures IsFull(cfg.peerBlocks, x) {
      CompleteReaches(cfg.peerBlocks, cfg.peerRoot.blockid, x);
    }
  }

  /** Everything below the sender's root is held by the sender. */
  lemma {:induction false} HeldBelowRoot(cfg: Config, blocks: Blocks, pending: set<BlockId>, x: BlockId)
    requires cfg.Valid() && FrontierOk(blocks, pending, cfg.root.blockid) && x in pending
    ensures x in cfg.held
  {
    OnEdgeReaches(blocks, cfg.root.blockid, x);
    CompleteReaches(cfg.held, cfg.root.blockid, x);
  }

  lemma {:induction false} ReachableNonempty(ref: BlockRef, kind: BlockType, x: BlockId)
    requires WellFormed(ref, kind) && Reaches(ref.blockid, x)
    ensures x.data != []
    decreases ref.blockid
  {
    var id := ref.blockid;
    if id != x {
      var i :| 0 <= i < |id.data| && id.data[i].Entry? && Reaches(id.data[i].child.blockref.blockid, x);
      ReachableNonempty(id.data[i].child.blockref, id.data[i].child.kind, x);
    }
  }

  lemma {:induction false} RequestsHeld(cfg: Config, s: State, p: Peer)
    requires cfg.Valid() && NetOk(cfg, s) && PeerOk(cfg, s.out.transfers, p)
    ensures forall id :: id in s.requests + Pending(p) ==> id in cfg.held
  {
    forall id | id in Pending(p) ensures id in cfg.held {
      HeldBelowRoot(cfg, p.db.blocks, p.conn.value.pending, id);
    }
  }

  // ---------------------------------------------------------------- root updates and responses

  lemma {:induction false} RootUpdateOk(cfg: Config, allocs: seq<Allocation>, p: Peer)
    requires cfg.Valid() && PeerOk(cfg, allocs, p)
    ensures PeerOk(cfg, allocs, OnRootUpdate(p, cfg.root))
  {
    var p' := OnRootUpdate(p, cfg.root);
    if p' != p {
      FrontierStart(p.db.blocks, cfg.root.blockid);
      assert cfg.root.blockid in p'.conn.value.pending;
    }
  }

  /** Any response of the sender, also one that comes again or out of order. */
  lemma {:induction false} ResponseKeepsPeer(cfg: Config, allocs: seq<Allocation>, p: Peer, res: Response)
    requires cfg.Valid() && PeerOk(cfg, allocs, p) && ResponseOk(allocs, res)
    requires p.conn.Some? ==> res.blockid in p.conn.value.pending || res.blockid in p.db.blocks
    ensures PeerOk(cfg, allocs, OnResponse(p, res))
  {
    if p.conn.Some? {
      if res.blockid in p.db.blocks {
        RepeatedKeepsConn(cfg, allocs, p.db.blocks, p.conn.value, res);
      } else {
        var b := EmptyPartial(res.blockid, res.len);
        HonestStore(p.db.blocks, b);
        assert forall y :: IsFull(p.db.blocks, y) ==> IsFull(p.db.blocks[b.id := b], y);
        FullsKept(p.db.blocks, p.db.blocks[b.id := b], p.db.root.blockid);
        ResponseKeepsConn(cfg, allocs, p.db.blocks, p.conn.value, res);
      }
    }
  }

  /** A response for a stored block adds a transfer and changes nothing else. */
  lemma {:induction false} RepeatedKeepsConn(
      cfg: Config, allocs: seq<Allocation>, blocks: Blocks, conn: Conn, res: Response)
    requires ConnOk(cfg, allocs, blocks, conn) && ResponseOk(allocs, res) && res.blockid in blocks
    ensures ConnOk(cfg, allocs, blocks,
                   Conn(conn.pending - {res.blockid}, conn.transfers + [Transfer(res.blockid, res.start, res.end)]))
  {
    assert conn.pending - {res.blockid} == conn.pending;
    MoreTransfersOk(allocs, conn.transfers, blocks, Transfer(res.blockid, res.start, res.end));
  }

  lemma {:induction false} MoreTransfersOk(allocs: seq<Allocation>, ts: seq<Transfer>, blocks: Blocks, t: Transfer)
    requires t.blockid in blocks && Allocation(t.start, t.end, t.blockid) in allocs
    requires forall u :: u in ts ==> u.blockid in blocks && Allocation(u.start, u.end, u.blockid) in allocs
    requires forall x :: IsPartial(blocks, x) && x != t.blockid ==> HasTransfer(ts, x)
    ensures TransfersOk(allocs, ts + [t], blocks)
  {
    forall x | IsPartial(blocks, x) ensures HasTransfer(ts + [t], x) {
      if x == t.blockid {
        assert t in ts + [t];
      } else {
        var u :| u in ts && u.blockid == x;
        assert u in ts + [t];
      }
    }
  }

  lemma {:induction false} ResponseKeepsConn(
      cfg: Config, allocs: seq<Allocation>, blocks: Blocks, conn: Conn, res: Response)
    requires cfg.Valid() && ConnOk(cfg, allocs, blocks, conn) && ResponseOk(allocs, res)
    requires res.blockid in conn.pending
    ensures ConnOk(cfg, allocs, blocks[res.blockid := EmptyPartial(res.blockid, res.len)],
                   Conn(conn.pending - {res.blockid}, conn.transfers + [Transfer(res.blockid, res.start, res.end)]))
  {
    var b := EmptyPartial(res.blockid, res.len);
    var blocks' := blocks[b.id := b];
    FrontierAdd(blocks, conn.pending, cfg.root.blockid, b);
    FreshPartialOk(res.blockid);
    assert forall x :: IsPartial(blocks', x) ==> x == b.id || IsPartial(blocks, x);
    MoreTransfersOk(allocs, conn.transfers, blocks', Transfer(res.blockid, res.start, res.end));
    OnEdgeReaches(blocks, cfg.root.blockid, res.blockid);
    ReachableNonempty(cfg.root, Directory, res.blockid);
    assert IsPartial(blocks', b.id) && !b.available[0];
  }

  // ---------------------------------------------------------------- payloads

  /** The live transfer that a chunk id belongs to is the allocation the payload was made from. */
  lemma {:induction false} PayloadFitsTransfer(
      allocs: seq<Allocation>, next: nat, ts: seq<Transfer>, blocks: Blocks, m: Msg, t: Transfer)
    requires AllocationsOk(allocs, next) && TransfersOk(allocs, ts, blocks) && PartialsOk(blocks) && Honest(blocks)
    requires PayloadOk(allocs, m) && t in ts && t.start <= m.chunkid < t.end && IsPartial(blocks, t.blockid)
    ensures PartialOk(blocks[t.blockid]) && blocks[t.blockid].id == t.blockid
    ensures m.chunkid - t.start < |blocks[t.blockid].available|
    ensures m.data == ChunkOf(t.blockid.data, m.chunkid - t.start)
  {
    var a :| a in allocs && IsChunkOf(a, m);
    UsedPart(allocs, next, a);
    AllocationUnique(allocs, next, m.chunkid, a, Allocation(t.start, t.end, t.blockid));
  }

  /** The used part of an allocation lies in it. */
  lemma {:induction false} UsedPart(allocs: seq<Allocation>, next: nat, a: Allocation)
    requires AllocationsOk(allocs, next) && a in allocs
    ensures a.from + Chunks(|a.id.data|) <= a.to <= next
  {
    assert Chunks(|a.id.data|) <= |a.id.data|;
    var i :| 0 <= i < |allocs| && allocs[i] == a;
  }

  lemma {:induction false} PayloadUnfold(p: Peer, m: Msg, t: Transfer)
    requires p.conn.Some? && FindTransfer(p.conn.value.transfers, m.chunkid) == Some(t) && t.blockid in p.db.blocks
    requires StoreChunk(p.db.blocks[t.blockid], m.chunkid - t.start, m.data).Some?
    ensures OnPayload(p, m.chunkid, m.data)
         == OnStored(p, t, StoreChunk(p.db.blocks[t.blockid], m.chunkid - t.start, m.data).value)
  {
  }

  lemma {:induction false} RemoveOne(ts: seq<Transfer>, t: Transfer)
    ensures forall u :: u in Remove(ts, t) ==> u in ts
    ensures forall u :: u in ts && u != t ==> u in Remove(ts, t)
  {
    if ts != [] && ts[0] != t {
      RemoveOne(ts[1..], t);
      var rest := [ts[0]] + Remove(ts[1..], t);
      assert rest[0] == ts[0] && rest[1..] == Remove(ts[1..], t);
      assert forall u :: u in ts <==> u == ts[0] || u in ts[1..];
    }
  }

  lemma {:induction false} PromotionKeepsTransfers(
      allocs: seq<Allocation>, ts: seq<Transfer>, blocks: Blocks, t: Transfer, b: Block)
    requires TransfersOk(allocs, ts, blocks) && t in ts && b.Full? && b.id == t.blockid
    ensures TransfersOk(allocs, Remove(ts, t), blocks[b.id := b])
  {
    var blocks' := blocks[b.id := b];
    RemoveOne(ts, t);
    forall x | IsPartial(blocks', x) ensures HasTransfer(Remove(ts, t), x) {
      assert IsPartial(blocks, x);
      var u :| u in ts && u.blockid == x;
      assert u in Remove(ts, t);
    }
  }

  lemma {:induction false} StoreKeepsTransfers(allocs: seq<Allocation>, ts: seq<Transfer>, blocks: Blocks, b: Block)
    requires TransfersOk(allocs, ts, blocks) && b.Partial? && IsPartial(blocks, b.id)
    ensures TransfersOk(allocs, ts, blocks[b.id := b])
  {
    var blocks' := blocks[b.id := b];
    assert forall x :: IsPartial(blocks', x) <==> IsPartial(blocks, x);
  }

  lemma {:induction false} StoreKeepsConn(cfg: Config, allocs: seq<Allocation>, blocks: Blocks, conn: Conn, b: Block)
    requires ConnOk(cfg, allocs, blocks, conn) && b.Partial? && IsPartial(blocks, b.id) && PartialOk(b)
    requires !AllAvailable(b.available)
    ensures ConnOk(cfg, allocs, blocks[b.id := b], conn)
  {
    var blocks' := blocks[b.id := b];
    StoreKeepsTransfers(allocs, conn.transfers, blocks, b);
    FrontierStore(blocks, conn.pending, cfg.root.blockid, b);
    assert IsPartial(blocks', b.id);
    forall x | IsPartial(blocks', x) ensures PartialOk(blocks'[x]) && !AllAvailable(blocks'[x].available) {
      assert x == b.id || IsPartial(blocks, x);
    }
  }

  /** Storing a chunk of a block that stays partial changes nothing else. */
  lemma {:induction false} PayloadStored(cfg: Config, allocs: seq<Allocation>, p: Peer, b: Block)
    requires PeerOk(cfg, allocs, p) && p.conn.Some?
    requires b.Partial? && IsPartial(p.db.blocks, b.id) && PartialOk(b) && !AllAvailable(b.available)
    ensures PeerOk(cfg, allocs, p.(db := p.db.(blocks := p.db.blocks[b.id := b])))
  {
    var blocks, blocks' := p.db.blocks, p.db.blocks[b.id := b];
    StoreKeepsConn(cfg, allocs, blocks, p.conn.value, b);
    HonestStore(blocks, b);
    FullsKept(blocks, blocks', p.db.root.blockid);
  }

  lemma {:induction false} HonestStore(blocks: Blocks, b: Block)
    requires Honest(blocks) && (b.Full? ==> b.data == b.id.data)
    ensures Honest(blocks[b.id := b])
  {
    var blocks' := blocks[b.id := b];
    assert forall id :: IsFull(blocks', id) ==> id == b.id || IsFull(blocks, id);
  }

  lemma {:induction false} FullsKept(blocks: Blocks, blocks': Blocks, root: BlockId)
    requires AllFull(blocks, root) && forall y :: IsFull(blocks, y) ==> IsFull(blocks', y)
    ensures AllFull(blocks', root)
  {
  }

  lemma {:induction false} PromotedPath(blocks: Blocks, pending: set<BlockId>, root: BlockId, b: Block)
    requires FrontierOk(blocks, pending, root) && b.Full? && IsPartial(blocks, b.id)
    ensures FullPath(blocks[b.id := b], root, b.id)
    ensures IsFull(blocks[b.id := b], root)
  {
    var blocks' := blocks[b.id := b];
    assert forall y :: IsFull(blocks, y) ==> IsFull(blocks', y);
    OnEdgeGrows(blocks, blocks', root, b.id);
    OnEdgeBecomesPath(blocks', root, b.id);
  }

  /** The children that the handler asks for when block `id` is whole. */
  ghost function Asked(blocks: Blocks, root: BlockRef, id: BlockId): (r: set<BlockId>)
    requires Honest(blocks) && WellFormed(root, Directory) && FullPath(blocks, root.blockid, id)
  {
    ResolveIff(blocks, root, id);
    Wanted(Resolve(blocks, root, id).value, blocks)
  }

  /** A block becomes whole: the handler does not panic, asks for exactly what is missing below it,
      and swaps the root in this very step if and only if nothing is outstanding any more. */
  lemma {:induction false} PromotedOutcome(p: Peer, root: BlockRef, id: BlockId)
    requires p.conn.Some? && p.db.pendingRoot == Some(root)
    requires Honest(p.db.blocks) && WellFormed(root, Directory) && FullPath(p.db.blocks, root.blockid, id)
    requires FrontierOk(p.db.blocks, p.conn.value.pending + Asked(p.db.blocks, root, id), root.blockid)
    ensures var asked := p.conn.value.pending + Asked(p.db.blocks, root, id);
            OnPromoted(p, id) == Some(
              if Outstanding(p.db.blocks, asked)
              then p.(conn := Some(p.conn.value.(pending := asked)))
              else Peer(Db(root, None, p.db.blocks), None, Contents(root)))
    ensures AllFull(p.db.blocks, root.blockid)
       <==> !Outstanding(p.db.blocks, p.conn.value.pending + Asked(p.db.blocks, root, id))
  {
    var blocks := p.db.blocks;
    ResolveIff(blocks, root, id);
    VerifyIff(blocks, root);
    WriteToDirIff(blocks, root);
    CompleteIff(blocks, p.conn.value.pending + Asked(blocks, root, id), root.blockid);
  }

  lemma {:induction false} PromotionKeepsConn(
      cfg: Config, allocs: seq<Allocation>, blocks: Blocks, conn: Conn, t: Transfer, b: Block, asked: set<BlockId>)
    requires ConnOk(cfg, allocs, blocks, conn) && t in conn.transfers && b.Full? && b.id == t.blockid
    requires FrontierOk(blocks[b.id := b], asked, cfg.root.blockid) && Outstanding(blocks[b.id := b], asked)
    ensures ConnOk(cfg, allocs, blocks[b.id := b], Conn(asked, Remove(conn.transfers, t)))
  {
    var blocks' := blocks[b.id := b];
    PromotionKeepsTransfers(allocs, conn.transfers, blocks, t, b);
    forall x | IsPartial(blocks', x) ensures PartialOk(blocks'[x]) && !AllAvailable(blocks'[x].available) {
      assert IsPartial(blocks, x);
    }
  }

  lemma {:induction false} PromotedOk(cfg: Config, allocs: seq<Allocation>, p: Peer, t: Transfer)
    requires cfg.Valid() && PeerOk(cfg, allocs, p) && p.conn.Some? && t in p.conn.value.transfers
    requires IsPartial(p.db.blocks, t.blockid)
    ensures var r := OnPromoted(Promote(p, t, t.blockid.data), t.blockid); r.Some? && PeerOk(cfg, allocs, r.value)
  {
    var p' := Promote(p, t, t.blockid.data);
    var conn, blocks, blocks' := p.conn.value, p.db.blocks, p'.db.blocks;
    var root, b := cfg.root, Full(t.blockid, t.blockid.data);
    assert IsPartial(blocks, t.blockid);
    HonestStore(blocks, b);
    FullsKept(blocks, blocks', p.db.root.blockid);
    PromotedPath(blocks, conn.pending, root.blockid, b);
    ResolveIff(blocks', root, t.blockid);
    FrontierPromote(blocks, conn.pending, root.blockid, b, Resolve(blocks', root, t.blockid).value);
    var asked := conn.pending + Asked(blocks', root, t.blockid);
    PromotedOutcome(p', root, t.blockid);
    if Outstanding(blocks', asked) {
      PromotionKeepsConn(cfg, allocs, blocks, conn, t, b, asked);
    }
  }

  /** The chunk belongs to a live transfer of a block that is still partial. */
  ghost predicate Wanting(p: Peer, chunkid: nat) {
    && p.conn.Some? && FindTransfer(p.conn.value.transfers, chunkid).Some?
    && IsPartial(p.db.blocks, FindTransfer(p.conn.value.transfers, chunkid).value.blockid)
  }

  /** Any payload of the sender, in any order and however often: it panics exactly when the connection
      is open and no live transfer of a partial block wants it, and otherwise keeps the invariant. */
  lemma {:induction false} PayloadKeepsPeer(cfg: Config, out: Out, p: Peer, m: Msg)
    requires cfg.Valid() && SenderOk(cfg, out) && PeerOk(cfg, out.transfers, p) && PayloadOk(out.transfers, m)
    ensures OnPayload(p, m.chunkid, m.data).None? <==> p.conn.Some? && !Wanting(p, m.chunkid)
    ensures OnPayload(p, m.chunkid, m.data).Some? ==>
            PeerOk(cfg, out.transfers, OnPayload(p, m.chunkid, m.data).value)
  {
    if Wanting(p, m.chunkid) {
      LivePayload(cfg, out, p, m, FindTransfer(p.conn.value.transfers, m.chunkid).value);
    } else if p.conn.Some? {
      UnwantedPanics(p, m);
    }
  }

  lemma {:induction false} UnwantedPanics(p: Peer, m: Msg)
    requires p.conn.Some? && !Wanting(p, m.chunkid)
    ensures OnPayload(p, m.chunkid, m.data).None?
  {
  }

  /** The chunk of a live transfer goes into its block. */
  lemma {:induction false} LiveChunk(
      allocs: seq<Allocation>, next: nat, ts: seq<Transfer>, blocks: Blocks, m: Msg, t: Transfer)
    requires AllocationsOk(allocs, next) && TransfersOk(allocs, ts, blocks) && PartialsOk(blocks) && Honest(blocks)
    requires PayloadOk(allocs, m) && t in ts && t.start <= m.chunkid < t.end && IsPartial(blocks, t.blockid)
    ensures m.chunkid - t.start < |blocks[t.blockid].available|
    ensures var r := StoreChunk(blocks[t.blockid], m.chunkid - t.start, m.data);
            && r.Some? && r.value.id == t.blockid && PartialOk(r.value)
            && r.value.available == blocks[t.blockid].available[m.chunkid - t.start := true]
  {
    PayloadFitsTransfer(allocs, next, ts, blocks, m, t);
    var b, k := blocks[t.blockid], m.chunkid - t.start;
    assert k < |b.available| && m.data == ChunkOf(t.blockid.data, k);
    ChunkFits(b, t.blockid, k, m.data);
  }

  lemma {:induction false} ChunkFits(b: Block, id: BlockId, k: nat, data: seq<Atom>)
    requires b.Partial? && PartialOk(b) && b.id == id && k < |b.available| && data == ChunkOf(id.data, k)
    ensures StoreChunk(b, k, data).Some?
    ensures var b' := StoreChunk(b, k, data).value;
            b'.id == id && PartialOk(b') && b'.available == b.available[k := true]
  {
    StoreKeepsPartial(b, k, data);
  }

  /** A payload for a live transfer of a partial block is stored without a panic. */
  lemma {:induction false} LiveStored(allocs: seq<Allocation>, next: nat, p: Peer, m: Msg, t: Transfer)
    requires p.conn.Some? && FindTransfer(p.conn.value.transfers, m.chunkid) == Some(t)
    requires AllocationsOk(allocs, next) && PayloadOk(allocs, m) && IsPartial(p.db.blocks, t.blockid)
    requires TransfersOk(allocs, p.conn.value.transfers, p.db.blocks) && PartialsOk(p.db.blocks) && Honest(p.db.blocks)
    ensures var r := StoreChunk(p.db.blocks[t.blockid], m.chunkid - t.start, m.data);
            && r.Some? && r.value.id == t.blockid && PartialOk(r.value)
            && m.chunkid - t.start < |p.db.blocks[t.blockid].available|
            && r.value.available == p.db.blocks[t.blockid].available[m.chunkid - t.start := true]
            && OnPayload(p, m.chunkid, m.data) == OnStored(p, t, r.value)
  {
    LiveChunk(allocs, next, p.conn.value.transfers, p.db.blocks, m, t);
    PayloadUnfold(p, m, t);
  }

  lemma {:induction false} LivePayload(cfg: Config, out: Out, p: Peer, m: Msg, t: Transfer)
    requires cfg.Valid() && SenderOk(cfg, out) && PeerOk(cfg, out.transfers, p) && PayloadOk(out.transfers, m)
    requires p.conn.Some? && FindTransfer(p.conn.value.transfers, m.chunkid) == Some(t)
    requires IsPartial(p.db.blocks, t.blockid)
    ensures OnPayload(p, m.chunkid, m.data).Some?
    ensures PeerOk(cfg, out.transfers, OnPayload(p, m.chunkid, m.data).value)
  {
    LiveStored(out.transfers, out.next, p, m, t);
    StoredOk(cfg, out.transfers, p, t, StoreChunk(p.db.blocks[t.blockid], m.chunkid - t.start, m.data).value);
  }

  lemma {:induction false} StoredOk(cfg: Config, allocs: seq<Allocation>, p: Peer, t: Transfer, b: Block)
    requires cfg.Valid() && PeerOk(cfg, allocs, p) && p.conn.Some? && t in p.conn.value.transfers
    requires IsPartial(p.db.blocks, t.blockid) && b.Partial? && b.id == t.blockid && PartialOk(b)
    ensures OnStored(p, t, b).Some? && PeerOk(cfg, allocs, OnStored(p, t, b).value)
  {
    if AllAvailable(b.available) {
      WholeBlock(b);
      PromotedOk(cfg, allocs, p, t);
    } else {
      PayloadStored(cfg, allocs, p, b);
    }
  }
}
