/** What holds over every run of the v2 synchronisation, whichever responses come again or out of
    order; only where it says so must they come once and in order. */
module SyncTheorems {
  import opened Varints
  import opened Ranges
  import opened Blocks
  import opened Visitors
  import opened Folders
  import opened FolderOutput
  import opened TransferCodec
  import opened TransferOuts
  import opened Sync
  import opened PartialBlocks
  import opened Frontier
  import opened SyncInvariant
  import opened SyncSteps
  import opened SyncResponses
  import opened Ledger

  // ---------------------------------------------------------------- fetching

  /** While a root is pending, every entry of every full directory is stored or requested, and
      something is always on its way: a request, or a partial block. */
  lemma {:induction false} FetchNeverStalls(cfg: Config, steps: seq<Step>)
    requires cfg.Valid() && Exec(cfg, steps).Some?
    ensures var p := Exec(cfg, steps).value.peer;
            && (p.db.pendingRoot.Some? <==> p.conn.Some?)
            && (p.conn.Some? ==> Closed(p.db.blocks, p.conn.value.pending)
                                 && Outstanding(p.db.blocks, p.conn.value.pending))
  {
    RunInv(cfg, steps);
  }

  /** The root is swapped in the very step in which the last outstanding block becomes whole: after
      any step the connection is over exactly when the sender's tree is complete. */
  lemma {:induction false} SwappedExactlyWhenComplete(cfg: Config, steps: seq<Step>, step: Step)
    requires cfg.Valid() && Exec(cfg, steps).Some? && Apply(cfg, Exec(cfg, steps).value, step).Some?
    requires Exec(cfg, steps).value.peer.conn.Some?
    ensures var p := Apply(cfg, Exec(cfg, steps).value, step).value.peer;
            && (p.conn.None? <==> AllFull(p.db.blocks, cfg.root.blockid))
            && (p.conn.None? <==> p.db == Db(cfg.root, None, p.db.blocks))
  {
    var s := Exec(cfg, steps).value;
    RunInv(cfg, steps);
    StepInv(cfg, s, step);
    ClosedWithRoot(cfg, s, step);
    var p := Apply(cfg, s, step).value.peer;
    if p.conn.Some? {
      CompleteIff(p.db.blocks, p.conn.value.pending, cfg.root.blockid);
    }
  }

  /** A connection that a step ends, ends with the sender's root. */
  lemma {:induction false} ClosedWithRoot(cfg: Config, s: State, step: Step)
    requires s.peer.conn.Some? && s.peer.db.pendingRoot == Some(cfg.root) && Apply(cfg, s, step).Some?
    ensures var p := Apply(cfg, s, step).value.peer; p.conn.None? ==> p.db.root == cfg.root
  {
    match step
    case PayloadArrives(m) => EndsWithPending(s.peer, m);
    case ResponseArrives(res) => assert OnResponse(s.peer, res).conn.Some?;
    case _ =>
  }

  lemma {:induction false} EndsWithPending(p: Peer, m: Msg)
    requires p.conn.Some? && OnPayload(p, m.chunkid, m.data).Some?
    ensures var p' := OnPayload(p, m.chunkid, m.data).value;
            p'.conn.None? ==> p.db.pendingRoot == Some(p'.db.root)
  {
  }

  /** The official root always denotes a tree of full blocks, so writing it out never panics; and the
      folder is as it was until the root is swapped, and the sender's from then on. */
  lemma {:induction false} OfficialRootIsComplete(cfg: Config, steps: seq<Step>)
    requires cfg.Valid() && Exec(cfg, steps).Some?
    ensures var db := Exec(cfg, steps).value.peer.db;
            && AllFull(db.blocks, db.root.blockid)
            && Honest(db.blocks)
            && WriteToDir(db.blocks, db.root) == Some(Contents(db.root))
            && (db.root == cfg.root || db.root == cfg.peerRoot)
            && Exec(cfg, steps).value.peer.disk == if db.root == cfg.root then Contents(cfg.root) else cfg.peerDisk
  {
    RunInv(cfg, steps);
    var db := Exec(cfg, steps).value.peer.db;
    WriteToDirIff(db.blocks, db.root);
    RootIsOneOfTwo(cfg, steps);
  }

  lemma {:induction false} RootIsOneOfTwo(cfg: Config, steps: seq<Step>)
    requires cfg.Valid() && Exec(cfg, steps).Some?
    ensures var db := Exec(cfg, steps).value.peer.db; db.root == cfg.root || db.root == cfg.peerRoot
  {
    if steps != [] {
      var before := steps[..|steps| - 1];
      RootIsOneOfTwo(cfg, before);
      RunInv(cfg, before);
      RootKept(cfg, Exec(cfg, before).value, steps[|steps| - 1]);
    }
  }

  lemma {:induction false} RootKept(cfg: Config, s: State, step: Step)
    requires Apply(cfg, s, step).Some?
    ensures var p := Apply(cfg, s, step).value.peer;
            p.db.root == s.peer.db.root || s.peer.db.pendingRoot == Some(p.db.root)
  {
    if step.PayloadArrives? {
      PayloadKeepsRoot(s.peer, step.msg);
    }
  }

  lemma {:induction false} PayloadKeepsRoot(p: Peer, m: Msg)
    requires OnPayload(p, m.chunkid, m.data).Some?
    ensures var p' := OnPayload(p, m.chunkid, m.data).value;
            p'.db.root == p.db.root || p.db.pendingRoot == Some(p'.db.root)
  {
  }

  /** End to end: when the sender's database was built from a folder, a receiver that has switched
      to the sender's root has written exactly that folder, symlinks dropped. */
  lemma {:induction false} SyncedFolder(cfg: Config, tree: Node, path: Path, keys: Keys, steps: seq<Step>)
    requires tree.FolderNode? && cfg.root == RootRef(tree, path, keys) && cfg.held == BlocksOf(tree, path, keys)
    requires cfg.Valid() && Exec(cfg, steps).Some?
    requires Exec(cfg, steps).value.peer.db.root == cfg.root
    ensures Exec(cfg, steps).value.peer.disk == StripAll(tree.entries)
  {
    OfficialRootIsComplete(cfg, steps);
    FolderRoundTrip(tree, path, keys);
  }

  // ---------------------------------------------------------------- transfers

  /** Every partial block has a live transfer, and what has arrived of it is the sender's data; when
      responses come once and in order, live transfers and partial blocks correspond one to one. */
  lemma {:induction false} TransfersArePartials(cfg: Config, steps: seq<Step>)
    requires cfg.Valid() && Exec(cfg, steps).Some? && Exec(cfg, steps).value.peer.conn.Some?
    ensures var p := Exec(cfg, steps).value.peer;
            var ts := p.conn.value.transfers;
            && (forall x :: IsPartial(p.db.blocks, x) ==> HasTransfer(ts, x) && PartialOk(p.db.blocks[x]))
            && (InOrderRun(cfg, steps) ==> InOrder(ts) && forall t :: t in ts ==> IsPartial(p.db.blocks, t.blockid))
  {
    RunInv(cfg, steps);
    if InOrderRun(cfg, steps) {
      TidyRun(cfg, steps);
    }
  }

  /** Every full block, however its chunks arrived, is exactly the block its id stands for. */
  lemma {:induction false} FullBlocksAreExact(cfg: Config, steps: seq<Step>, id: BlockId)
    requires cfg.Valid() && Exec(cfg, steps).Some?
    requires IsFull(Exec(cfg, steps).value.peer.db.blocks, id)
    ensures Exec(cfg, steps).value.peer.db.blocks[id] == Full(id, id.data)
  {
    RunInv(cfg, steps);
  }

  lemma {:induction false} ExactlyOneAllocation(allocs: seq<Allocation>, next: nat, x: nat)
    requires AllocationsOk(allocs, next) && FindChunk(allocs, x).Some?
    ensures exists a :: a in allocs && a.from <= x < a.to
    ensures forall a, b :: a in allocs && b in allocs && a.from <= x < a.to && b.from <= x < b.to ==> a == b
  {
    forall a, b | a in allocs && b in allocs && a.from <= x < a.to && b.from <= x < b.to ensures a == b {
      AllocationUnique(allocs, next, x, a, b);
    }
  }

  /** Every id in any status ever sent lies in exactly one allocated range. */
  lemma {:induction false} StatusIdsAreAllocated(cfg: Config, steps: seq<Step>, u: seq<byte>, x: nat)
    requires cfg.Valid() && Exec(cfg, steps).Some? && u in Exec(cfg, steps).value.statuses
    requires DecodeStatus(u).Some? && Covers(DecodeStatus(u).value, x)
    ensures var allocs := Exec(cfg, steps).value.out.transfers;
            && (exists a :: a in allocs && a.from <= x < a.to)
            && (forall a, b :: a in allocs && b in allocs && a.from <= x < a.to && b.from <= x < b.to ==> a == b)
  {
    RunInv(cfg, steps);
    var out := Exec(cfg, steps).value.out;
    TodoIsAllocated(out.transfers, out.next, DecodeStatus(u).value, x);
    ExactlyOneAllocation(out.transfers, out.next, x);
  }

  /** The whole way of a status, from availability to the sender's list: the ranges cover exactly the
      chunks that have not arrived, and the sender reads a prefix of them, all when nothing is cut. It
      works whenever the status can be made, as it can when responses come once and in order. */
  lemma {:induction false} StatusPipeline(cfg: Config, steps: seq<Step>)
    requires cfg.Valid() && Exec(cfg, steps).Some? && Exec(cfg, steps).value.peer.conn.Some?
    requires CanTell(Exec(cfg, steps).value.peer) || InOrderRun(cfg, steps)
    ensures var p := Exec(cfg, steps).value.peer;
            var rs := StatusRanges(p.conn.value.transfers, p.db.blocks);
            && rs.Some? && Ascending(Flat(rs.value), 0)
            && RangesThatFit(rs.value) <= |rs.value|
            && DecodeStatus(StatusMessage(rs.value)) == Some(rs.value[..RangesThatFit(rs.value)])
            && (1 + |EncodeAll(Deltas(Flat(rs.value), 0))| <= MTU ==> DecodeStatus(StatusMessage(rs.value)) == rs)
            && forall x :: Covers(rs.value, x) <==>
                           exists t :: t in p.conn.value.transfers && IsMissing(p.db.blocks, t, x)
  {
    RunInv(cfg, steps);
    if InOrderRun(cfg, steps) {
      TidyRun(cfg, steps);
    }
    var s := Exec(cfg, steps).value;
    CanTellIffTidy(cfg, s.out, s.peer);
    PeerStatus(s.out.transfers, s.out.next, s.peer);
    StatusWire(MissingNow(s.peer).value);
    RangesExact(s.peer.conn.value.transfers, s.peer.db.blocks);
  }

  lemma {:induction false} RangesExact(ts: seq<Transfer>, blocks: Blocks)
    requires StatusRanges(ts, blocks).Some?
    ensures forall x :: Covers(StatusRanges(ts, blocks).value, x) <==> exists t :: t in ts && IsMissing(blocks, t, x)
  {
    forall x {
      StatusRangesExact(ts, blocks, x);
    }
  }

  /** Allocations are never changed or withdrawn. */
  lemma {:induction false} AllocationsOnlyGrow(cfg: Config, steps: seq<Step>, m: nat)
    requires cfg.Valid() && Exec(cfg, steps).Some? && m <= |steps|
    ensures Exec(cfg, steps[..m]).Some?
    ensures Exec(cfg, steps[..m]).value.out.transfers <= Exec(cfg, steps).value.out.transfers
    decreases |steps|
  {
    if m < |steps| {
      var shorter := steps[..|steps| - 1];
      AllocationsOnlyGrow(cfg, shorter, m);
      assert shorter[..m] == steps[..m];
      StepGrows(cfg, Exec(cfg, shorter).value, steps[|steps| - 1]);
    } else {
      assert steps[..m] == steps;
    }
  }

  lemma {:induction false} StepGrows(cfg: Config, s: State, step: Step)
    requires Apply(cfg, s, step).Some?
    ensures s.out.transfers <= Apply(cfg, s, step).value.out.transfers
  {
  }

  // ---------------------------------------------------------------- panics

  lemma {:induction false} MessagesAccepted(cfg: Config, s: State)
    requires forall u :: u in s.statuses ==> DecodeStatus(u).Some?
    ensures forall u :: u in s.statuses ==> Apply(cfg, s, Step.StatusArrives(u)).Some?
    ensures forall res :: res in s.responses ==> Apply(cfg, s, Step.ResponseArrives(res)).Some?
  {
  }

  /** In no reachable state does a request, a response, a status or a sender loop panic, an allocation
      only when 64-bit ids run out; nor does the making of a status, when responses come once and in
      order. */
  lemma {:induction false} NoPanic(cfg: Config, steps: seq<Step>)
    requires cfg.Valid() && Exec(cfg, steps).Some?
    ensures var s := Exec(cfg, steps).value;
            && (forall id :: id in s.requests ==> id in cfg.held)
            && (forall res :: res in s.responses ==> Apply(cfg, s, Step.ResponseArrives(res)).Some?)
            && (forall u :: u in s.statuses ==> Apply(cfg, s, Step.StatusArrives(u)).Some?)
            && (s.out.sending.loops > 0 ==> Apply(cfg, s, Step.LoopRuns).Some?)
            && (InOrderRun(cfg, steps) ==> CanTell(s.peer))
  {
    RunInv(cfg, steps);
    var s := Exec(cfg, steps).value;
    MessagesAccepted(cfg, s);
    if s.out.sending.loops > 0 {
      LoopStep(cfg, s);
    }
    if InOrderRun(cfg, steps) {
      TidyRun(cfg, steps);
    }
  }

  /** A payload in flight panics the receiver exactly when the connection is open and the chunk is not
      one of a live transfer of a block that is still partial: a late duplicate of a promoted block's
      chunk. */
  lemma {:induction false} PayloadPanicsIff(cfg: Config, steps: seq<Step>, m: Msg)
    requires cfg.Valid() && Exec(cfg, steps).Some? && m in Exec(cfg, steps).value.payloads
    ensures var s := Exec(cfg, steps).value;
            Apply(cfg, s, PayloadArrives(m)).None? <==>
            s.peer.conn.Some? && !exists t :: WantedBy(s.peer, t, m.chunkid)
  {
    RunInv(cfg, steps);
    var s := Exec(cfg, steps).value;
    PayloadKeepsPeer(cfg, s.out, s.peer, m);
    ArrivalPanics(cfg, s, m);
    if s.peer.conn.Some? {
      WantingIff(s.out.transfers, s.out.next, s.peer, m.chunkid);
    }
  }

  ghost predicate WantedBy(p: Peer, t: Transfer, chunkid: nat)
    requires p.conn.Some?
  {
    t in p.conn.value.transfers && t.start <= chunkid < t.end && IsPartial(p.db.blocks, t.blockid)
  }

  /** Transfers that share an id are of the same block, so the first one found decides. */
  lemma {:induction false} WantingIff(allocs: seq<Allocation>, next: nat, p: Peer, chunkid: nat)
    requires AllocationsOk(allocs, next) && p.conn.Some?
    requires TransfersOk(allocs, p.conn.value.transfers, p.db.blocks)
    ensures Wanting(p, chunkid) <==> exists t :: WantedBy(p, t, chunkid)
  {
    var found := FindTransfer(p.conn.value.transfers, chunkid);
    if t :| WantedBy(p, t, chunkid) {
      var u := found.value;
      var a, b := Allocation(t.start, t.end, t.blockid), Allocation(u.start, u.end, u.blockid);
      AllocationUnique(allocs, next, chunkid, a, b);
    }
    if Wanting(p, chunkid) {
      assert WantedBy(p, found.value, chunkid);
    }
  }

  lemma {:induction false} ArrivalPanics(cfg: Config, s: State, m: Msg)
    requires m in s.payloads
    ensures Apply(cfg, s, PayloadArrives(m)).None? <==> OnPayload(s.peer, m.chunkid, m.data).None?
  {
  }

  /** The packet of a payload in flight exceeds the MTU, which the codec asserts it does not, exactly
      when a full chunk has an id of 2^63 or more. */
  lemma {:induction false} PayloadFitsMtuIff(cfg: Config, steps: seq<Step>, m: Msg)
    requires cfg.Valid() && Exec(cfg, steps).Some? && m in Exec(cfg, steps).value.payloads
    ensures 1 + |Encode(m.chunkid)| + |m.data| <= MTU <==> m.chunkid < 0x8000_0000_0000_0000 || |m.data| < CHUNK_SIZE
  {
    RunInv(cfg, steps);
    var out := Exec(cfg, steps).value.out;
    PayloadBounds(out.transfers, out.next, m);
    FitsMtuIff(m.chunkid, |m.data|);
  }

  lemma {:induction false} PayloadBounds(allocs: seq<Allocation>, next: nat, m: Msg)
    requires AllocationsOk(allocs, next) && PayloadOk(allocs, m)
    ensures m.chunkid < next && 1 <= |m.data| <= CHUNK_SIZE
  {
    var a :| a in allocs && IsChunkOf(a, m);
    UsedPart(allocs, next, a);
    ChunkBounds(a.id.data, m.chunkid - a.from);
  }
}
