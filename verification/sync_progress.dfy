/** No run of the v2 synchronisation is a dead end. */
module SyncProgress {
  import opened Varints
  import opened BitMaps
  import Geometry
  import opened Blocks
  import opened Folders
  import opened FolderOutput
  import opened TransferCodec
  import opened TransferOuts
  import opened Sync
  import opened Frontier
  import opened SyncInvariant
  import opened SyncSteps
  import opened SyncResponses
  import opened Ledger
  import opened SyncTheorems

  // ---------------------------------------------------------------- chunk ids suffice

  function TotalLength(ids: seq<BlockId>): nat {
    if ids == [] then 0 else |ids[0].data| + TotalLength(ids[1..])
  }

  ghost predicate Distinct(ids: seq<BlockId>) {
    forall i, j :: 0 <= i < j < |ids| ==> ids[i] != ids[j]
  }

  /** Payloads with ids from here on do not fit the MTU. */
  const ID_LIMIT: nat := 0x8000_0000_0000_0000

  /** The sender's blocks, one chunk id per byte, fit below 2^63. */
  ghost predicate IdsSuffice(cfg: Config) {
    forall ids :: Distinct(ids) && (forall i :: 0 <= i < |ids| ==> ids[i] in cfg.held) ==>
      cfg.start + TotalLength(ids) < ID_LIMIT
  }

  lemma {:induction false} DistinctCount(ids: seq<BlockId>, all: set<BlockId>)
    requires Distinct(ids) && forall i :: 0 <= i < |ids| ==> ids[i] in all
    ensures |ids| <= |all|
  {
    if ids != [] {
      assert Distinct(ids[1..]);
      DistinctCount(ids[1..], all - {ids[0]});
    }
  }

  lemma {:induction false} TotalAtMost(ids: seq<BlockId>, most: nat)
    requires forall i :: 0 <= i < |ids| ==> |ids[i].data| <= most
    ensures TotalLength(ids) <= |ids| * most
  {
    if ids != [] {
      TotalAtMost(ids[1..], most);
      assert |ids| * most == |ids[1..]| * most + most;
    }
  }

  /** Blocks of at most `most` bytes each need no more ids than that. */
  lemma {:induction false} SmallBlocksSuffice(cfg: Config, most: nat)
    requires forall id :: id in cfg.held ==> |id.data| <= most
    requires cfg.start + |cfg.held.Keys| * most < ID_LIMIT
    ensures IdsSuffice(cfg)
  {
    forall ids | Distinct(ids) && (forall i :: 0 <= i < |ids| ==> ids[i] in cfg.held)
      ensures cfg.start + TotalLength(ids) < ID_LIMIT
    {
      DistinctCount(ids, cfg.held.Keys);
      TotalAtMost(ids, most);
      Geometry.ProductLe(|ids|, |cfg.held.Keys|, most);
    }
  }

  function IdsOf(allocs: seq<Allocation>): seq<BlockId> {
    seq(|allocs|, i requires 0 <= i < |allocs| => allocs[i].id)
  }

  lemma {:induction false} TotalAppend(ids: seq<BlockId>, id: BlockId)
    ensures TotalLength(ids + [id]) == TotalLength(ids) + |id.data|
  {
    if ids != [] {
      assert (ids + [id])[1..] == ids[1..] + [id];
      TotalAppend(ids[1..], id);
    } else {
      assert [id][1..] == [];
    }
  }

  lemma {:induction false} AllocateTotal(out: Out, id: BlockId, start: nat)
    requires Allocate(out, id).Some? && out.next == start + TotalLength(IdsOf(out.transfers))
    ensures var out' := Allocate(out, id).value; out'.next == start + TotalLength(IdsOf(out'.transfers))
  {
    var out' := Allocate(out, id).value;
    if out' != out {
      TotalAppend(IdsOf(out.transfers), id);
      assert IdsOf(out'.transfers) == IdsOf(out.transfers) + [id];
    }
  }

  lemma {:induction false} StepTotal(cfg: Config, s: State, step: Step)
    requires Apply(cfg, s, step).Some? && s.out.next == cfg.start + TotalLength(IdsOf(s.out.transfers))
    ensures var out := Apply(cfg, s, step).value.out; out.next == cfg.start + TotalLength(IdsOf(out.transfers))
  {
    if step.RequestArrives? {
      AllocateTotal(s.out, step.id, cfg.start);
    }
  }

  /** In every run the next free id is the start plus the bytes of the blocks allocated so far. */
  lemma {:induction false} NextIsTotal(cfg: Config, steps: seq<Step>)
    requires Exec(cfg, steps).Some?
    ensures var out := Exec(cfg, steps).value.out; out.next == cfg.start + TotalLength(IdsOf(out.transfers))
  {
    if steps != [] {
      NextIsTotal(cfg, steps[..|steps| - 1]);
      StepTotal(cfg, Exec(cfg, steps[..|steps| - 1]).value, steps[|steps| - 1]);
    }
  }

  lemma {:induction false} DistinctAllocations(allocs: seq<Allocation>, next: nat, id: BlockId)
    requires AllocationsOk(allocs, next) && Find(allocs, id).None?
    ensures Distinct(IdsOf(allocs) + [id])
  {
    assert forall i :: 0 <= i < |allocs| ==> allocs[i] in allocs && allocs[i].id != id;
  }

  lemma {:induction false} IdsHeld(cfg: Config, allocs: seq<Allocation>, id: BlockId)
    requires (forall a :: a in allocs ==> a.id in cfg.held) && id in cfg.held
    ensures var ids := IdsOf(allocs) + [id]; forall i :: 0 <= i < |ids| ==> ids[i] in cfg.held
  {
    assert forall i :: 0 <= i < |allocs| ==> allocs[i] in allocs;
  }

  /** With ids enough for all blocks, no allocation fails. */
  lemma {:induction false} AllocateSucceeds(cfg: Config, out: Out, id: BlockId)
    requires IdsSuffice(cfg) && AllocationsOk(out.transfers, out.next)
    requires (forall a :: a in out.transfers ==> a.id in cfg.held) && id in cfg.held
    requires out.next == cfg.start + TotalLength(IdsOf(out.transfers))
    ensures Allocate(out, id).Some?
  {
    if Find(out.transfers, id).None? {
      DistinctAllocations(out.transfers, out.next, id);
      IdsHeld(cfg, out.transfers, id);
      TotalAppend(IdsOf(out.transfers), id);
    }
  }

  lemma {:induction false} NextBelowLimit(cfg: Config, out: Out)
    requires IdsSuffice(cfg) && AllocationsOk(out.transfers, out.next)
    requires forall a :: a in out.transfers ==> a.id in cfg.held
    requires out.next == cfg.start + TotalLength(IdsOf(out.transfers))
    ensures out.next < ID_LIMIT
  {
    assert forall i :: 0 <= i < |out.transfers| ==> out.transfers[i] in out.transfers;
    assert Distinct(IdsOf(out.transfers));
  }

  /** Then every payload ever sent fits the MTU, as the codec asserts. */
  lemma {:induction false} PayloadsFit(cfg: Config, steps: seq<Step>, m: Msg)
    requires cfg.Valid() && IdsSuffice(cfg) && Exec(cfg, steps).Some? && m in Exec(cfg, steps).value.payloads
    ensures 1 + |Encode(m.chunkid)| + |m.data| <= MTU
  {
    RunInv(cfg, steps);
    NextIsTotal(cfg, steps);
    var out := Exec(cfg, steps).value.out;
    NextBelowLimit(cfg, out);
    PayloadBounds(out.transfers, out.next, m);
    PayloadFitsMtuIff(cfg, steps, m);
  }

  // ---------------------------------------------------------------- single steps

  ghost function After(cfg: Config, steps: seq<Step>): State
    requires Exec(cfg, steps).Some?
  {
    Exec(cfg, steps).value
  }

  /** A run after which the receiver can say what it lacks, as after every run whose responses came
      once and in order. */
  ghost predicate Ready(cfg: Config, steps: seq<Step>) {
    cfg.Valid() && Exec(cfg, steps).Some? && TidyPeer(After(cfg, steps).peer)
  }

  /** That is exactly when its next status can be made. */
  lemma {:induction false} ReadyIff(cfg: Config, steps: seq<Step>)
    requires cfg.Valid() && Exec(cfg, steps).Some?
    ensures Ready(cfg, steps) <==> CanTell(After(cfg, steps).peer)
    ensures InOrderRun(cfg, steps) ==> Ready(cfg, steps)
  {
    CanTellIff(cfg, steps);
    if InOrderRun(cfg, steps) {
      TidyRun(cfg, steps);
    }
  }

  /** `run` goes on from `steps`; if responses came once and in order, they still do. */
  ghost predicate Extends(cfg: Config, steps: seq<Step>, run: seq<Step>) {
    steps <= run && Ready(cfg, run) && (InOrderRun(cfg, steps) ==> InOrderRun(cfg, run))
  }

  lemma {:induction false} Take(cfg: Config, steps: seq<Step>, step: Step)
    requires Ready(cfg, steps) && Apply(cfg, After(cfg, steps), step).Some? && InOrderStep(After(cfg, steps), step)
    ensures Exec(cfg, steps + [step]) == Apply(cfg, After(cfg, steps), step)
    ensures Extends(cfg, steps, steps + [step])
  {
    assert (steps + [step])[..|steps|] == steps;
    RunInv(cfg, steps);
    TidyStep(cfg, After(cfg, steps), step);
  }

  // ---------------------------------------------------------------- a request is answered

  lemma {:induction false} RequestUnfold(cfg: Config, s: State, id: BlockId)
    requires id in s.requests && id in cfg.held && Allocate(s.out, id).Some?
    requires Find(Allocate(s.out, id).value.transfers, id).Some?
    ensures Apply(cfg, s, RequestArrives(id)).Some?
    ensures var s' := Apply(cfg, s, RequestArrives(id)).value;
            && s'.peer == s.peer && s.responses <= s'.responses
            && Find(s'.out.transfers, id).Some?
            && ResponseTo(Find(s'.out.transfers, id).value) in s'.responses
  {
  }

  lemma {:induction false} ResponseUnfold(cfg: Config, s: State, res: Response)
    requires res in s.responses && s.peer.conn.Some? && s.peer.conn.value.transfers == []
    requires res.blockid in s.peer.conn.value.pending
    ensures Apply(cfg, s, ResponseArrives(res)) == Some(s.(peer := OnResponse(s.peer, res), due := s.due + 1))
  {
  }

  /** The sender's blocks that the receiver does not have in full. */
  ghost function Lacking(cfg: Config, blocks: Blocks): set<BlockId> {
    set id | id in cfg.held && !IsFull(blocks, id)
  }

  lemma {:induction false} ResponseLacking(cfg: Config, p: Peer, res: Response)
    requires p.conn.Some?
    ensures Lacking(cfg, OnResponse(p, res).db.blocks) == Lacking(cfg, p.db.blocks)
    ensures OnResponse(p, res).conn.Some? && OnResponse(p, res).conn.value.transfers != []
  {
    var blocks := OnResponse(p, res).db.blocks;
    assert forall y :: IsFull(blocks, y) <==> IsFull(p.db.blocks, y);
  }

  /** Without a transfer there is a request on its way. */
  lemma {:induction false} SomethingPending(ts: seq<Transfer>, blocks: Blocks, pending: set<BlockId>)
    requires ts == [] && Outstanding(blocks, pending) && forall x :: IsPartial(blocks, x) ==> HasTransfer(ts, x)
    ensures pending != {}
  {
  }

  lemma {:induction false} RequestEnabled(cfg: Config, s: State, id: BlockId)
    requires IdsSuffice(cfg) && SenderOk(cfg, s.out) && id in s.requests && id in cfg.held
    requires s.out.next == cfg.start + TotalLength(IdsOf(s.out.transfers))
    ensures Apply(cfg, s, RequestArrives(id)).Some?
    ensures var s' := Apply(cfg, s, RequestArrives(id)).value;
            && s'.peer == s.peer && s.responses <= s'.responses
            && Find(s'.out.transfers, id).Some?
            && ResponseTo(Find(s'.out.transfers, id).value) in s'.responses
  {
    AllocateSucceeds(cfg, s.out, id);
    AllocateOk(s.out, id);
    RequestUnfold(cfg, s, id);
  }

  /** With no transfer live, a request can be answered, which opens one. */
  lemma {:induction false} OpenTransfer(cfg: Config, steps: seq<Step>) returns (run: seq<Step>, res: Response)
    requires IdsSuffice(cfg) && Ready(cfg, steps)
    requires var p := After(cfg, steps).peer; p.conn.Some? && p.conn.value.transfers == []
    ensures Extends(cfg, steps, run)
    ensures var p, p' := After(cfg, steps).peer, After(cfg, run).peer;
            && p' == OnResponse(p, res) && res.blockid in p.conn.value.pending && res in After(cfg, run).responses
            && p'.conn.value.transfers != [] && After(cfg, run).due > 0
            && Lacking(cfg, p'.db.blocks) == Lacking(cfg, p.db.blocks)
  {
    RunInv(cfg, steps);
    NextIsTotal(cfg, steps);
    var s := After(cfg, steps);
    var conn := s.peer.conn.value;
    SomethingPending(conn.transfers, s.peer.db.blocks, conn.pending);
    var id :| id in conn.pending;
    RequestEnabled(cfg, s, id);
    Take(cfg, steps, RequestArrives(id));
    var mid := steps + [RequestArrives(id)];
    var t := After(cfg, mid);
    res := ResponseTo(Find(t.out.transfers, id).value);
    ResponseUnfold(cfg, t, res);
    Take(cfg, mid, ResponseArrives(res));
    ResponseLacking(cfg, s.peer, res);
    run := mid + [ResponseArrives(res)];
  }

  // ---------------------------------------------------------------- a chunk is delivered

  lemma {:induction false} ArrivalUnfold(cfg: Config, s: State, u: seq<byte>)
    requires u in s.statuses && DecodeStatus(u).Some?
    ensures Apply(cfg, s, Step.StatusArrives(u))
         == Some(s.(out := s.out.(sending := OnStatus(s.out.sending, DecodeStatus(u).value))))
  {
  }

  lemma {:induction false} ArrivalAims(cfg: Config, s: State, u: seq<byte>)
    requires SendingOk(s.out.sending) && u in s.statuses && DecodeStatus(u).Some? && DecodeStatus(u).value != []
    ensures Apply(cfg, s, Step.StatusArrives(u)).Some?
    ensures var s' := Apply(cfg, s, Step.StatusArrives(u)).value;
            && s'.peer == s.peer && s'.due == s.due && s'.out.sending.loops > 0
            && s'.out.sending.cursor == Some(DecodeStatus(u).value[0].from)
  {
    ArrivalUnfold(cfg, s, u);
  }

  /** A status in flight can make the sender aim at its first range. */
  lemma {:induction false} Aim(cfg: Config, steps: seq<Step>, u: seq<byte>) returns (run: seq<Step>)
    requires Ready(cfg, steps) && u in After(cfg, steps).statuses
    requires DecodeStatus(u).Some? && DecodeStatus(u).value != []
    ensures Extends(cfg, steps, run)
    ensures var s, s' := After(cfg, steps), After(cfg, run);
            && s'.peer == s.peer && s'.due == s.due && s'.out.sending.loops > 0
            && s'.out.sending.cursor == Some(DecodeStatus(u).value[0].from)
  {
    RunInv(cfg, steps);
    ArrivalAims(cfg, After(cfg, steps), u);
    Take(cfg, steps, Step.StatusArrives(u));
    run := steps + [Step.StatusArrives(u)];
  }

  /** When a status is due, the sender can be brought to aim at a missing chunk of the first transfer. */
  lemma {:induction false} AimAtMissing(cfg: Config, steps: seq<Step>) returns (run: seq<Step>)
    requires Ready(cfg, steps) && After(cfg, steps).due > 0
    requires var p := After(cfg, steps).peer; p.conn.Some? && p.conn.value.transfers != []
    ensures Extends(cfg, steps, run)
    ensures var s, s' := After(cfg, steps), After(cfg, run);
            && s'.peer == s.peer && s'.out.sending.cursor.Some? && s'.out.sending.loops > 0
            && IsMissing(s.peer.db.blocks, s.peer.conn.value.transfers[0], s'.out.sending.cursor.value)
  {
    RunInv(cfg, steps);
    var s := After(cfg, steps);
    StatusAims(s.out.transfers, s.out.next, s.peer);
    var rs := MissingNow(s.peer).value;
    StatusUnfold(cfg, s, rs);
    Take(cfg, steps, StatusSent);
    run := Aim(cfg, steps + [StatusSent], StatusMessage(rs));
  }

  /** The chunk under the cursor can be sent. */
  lemma {:induction false} SendChunk(cfg: Config, steps: seq<Step>, c: nat) returns (run: seq<Step>, m: Msg)
    requires Ready(cfg, steps)
    requires var s := After(cfg, steps); s.out.sending.cursor == Some(c) && s.out.sending.loops > 0
    ensures Extends(cfg, steps, run)
    ensures After(cfg, run).peer == After(cfg, steps).peer && m.chunkid == c && m in After(cfg, run).payloads
  {
    RunInv(cfg, steps);
    var s := After(cfg, steps);
    LoopPayload(s.out.transfers, s.out.next, s.out.sending.todo, c);
    assert IsFull(cfg.held, FindChunk(s.out.transfers, c).value.id);
    LoopUnfold(cfg, s, c);
    Take(cfg, steps, Step.LoopRuns);
    run, m := steps + [Step.LoopRuns], PayloadAt(s.out.transfers, c);
  }

  lemma {:induction false} PayloadStepUnfold(cfg: Config, s: State, m: Msg)
    requires m in s.payloads && OnPayload(s.peer, m.chunkid, m.data).Some?
    ensures Apply(cfg, s, PayloadArrives(m)).Some?
    ensures var s' := Apply(cfg, s, PayloadArrives(m)).value;
            && s'.peer == OnPayload(s.peer, m.chunkid, m.data).value && s'.payloads == s.payloads
            && s'.due == s.due + if s.peer.conn.Some? then 1 else 0
  {
  }

  /** One chunk nearer: the connection is over, or a block more is full, or the first transfer lacks
      a chunk less. */
  ghost predicate Nearer(cfg: Config, p: Peer, p': Peer)
    requires p.conn.Some? && p.conn.value.transfers != []
  {
    || p'.conn.None?
    || Lacking(cfg, p'.db.blocks) < Lacking(cfg, p.db.blocks)
    || (Lacking(cfg, p'.db.blocks) == Lacking(cfg, p.db.blocks) && p'.conn == p.conn && ZerosFirst(p') < ZerosFirst(p))
  }

  /** Chunks that the first transfer lacks. */
  ghost function ZerosFirst(p: Peer): nat {
    if p.conn.None? || p.conn.value.transfers == [] then 0
    else
      var id := p.conn.value.transfers[0].blockid;
      if IsPartial(p.db.blocks, id) then ZeroCount(p.db.blocks[id].available) else 0
  }

  lemma {:induction false} StoredNearer(cfg: Config, p: Peer, t: Transfer, b: Block, k: nat)
    requires p.conn.Some? && p.conn.value.transfers != [] && t == p.conn.value.transfers[0]
    requires IsPartial(p.db.blocks, t.blockid) && t.blockid in cfg.held && b.Partial?
    requires k < |p.db.blocks[t.blockid].available| && !p.db.blocks[t.blockid].available[k]
    requires b.available == p.db.blocks[t.blockid].available[k := true]
    requires OnStored(p, t, b).Some?
    ensures Nearer(cfg, p, OnStored(p, t, b).value)
  {
    var blocks := p.db.blocks;
    if AllAvailable(b.available) {
      PromotionLacks(cfg, blocks, t.blockid, b.data);
      PromotedBlocks(Promote(p, t, b.data), t.blockid);
    } else {
      ZeroCountUpdate(blocks[t.blockid].available, k, true);
      assert forall y :: IsFull(blocks[t.blockid := b], y) <==> IsFull(blocks, y);
    }
  }

  lemma {:induction false} PromotionLacks(cfg: Config, blocks: Blocks, id: BlockId, data: seq<Atom>)
    requires IsPartial(blocks, id) && id in cfg.held
    ensures Lacking(cfg, blocks[id := Full(id, data)]) < Lacking(cfg, blocks)
  {
    assert id in Lacking(cfg, blocks) && id !in Lacking(cfg, blocks[id := Full(id, data)]);
  }

  lemma {:induction false} PromotedBlocks(p: Peer, id: BlockId)
    requires p.conn.Some? && OnPromoted(p, id).Some?
    ensures OnPromoted(p, id).value.db.blocks == p.db.blocks
  {
  }

  lemma {:induction false} FoundFirst(ts: seq<Transfer>, c: nat)
    requires ts != [] && ts[0].start <= c < ts[0].end
    ensures FindTransfer(ts, c) == Some(ts[0])
  {
  }

  lemma {:induction false} ChunkNearer(cfg: Config, allocs: seq<Allocation>, next: nat, p: Peer, m: Msg)
    requires AllocationsOk(allocs, next) && PayloadOk(allocs, m) && OnPayload(p, m.chunkid, m.data).Some?
    requires Honest(p.db.blocks) && PartialsOk(p.db.blocks)
    requires p.conn.Some? && p.conn.value.transfers != []
    requires TransfersOk(allocs, p.conn.value.transfers, p.db.blocks)
    requires p.conn.value.transfers[0].blockid in cfg.held
    requires IsMissing(p.db.blocks, p.conn.value.transfers[0], m.chunkid)
    requires FindTransfer(p.conn.value.transfers, m.chunkid) == Some(p.conn.value.transfers[0])
    ensures Nearer(cfg, p, OnPayload(p, m.chunkid, m.data).value)
  {
    var t := p.conn.value.transfers[0];
    var b := StoredBlock(allocs, next, p, m, t);
    StoredNearer(cfg, p, t, b, m.chunkid - t.start);
  }

  /** The block that the chunk of a live transfer gives. */
  lemma {:induction false} StoredBlock(
      allocs: seq<Allocation>, next: nat, p: Peer, m: Msg, t: Transfer) returns (b: Block)
    requires p.conn.Some? && FindTransfer(p.conn.value.transfers, m.chunkid) == Some(t)
    requires AllocationsOk(allocs, next) && PayloadOk(allocs, m) && IsPartial(p.db.blocks, t.blockid)
    requires TransfersOk(allocs, p.conn.value.transfers, p.db.blocks) && PartialsOk(p.db.blocks) && Honest(p.db.blocks)
    ensures m.chunkid - t.start < |p.db.blocks[t.blockid].available|
    ensures b.Partial? && b.available == p.db.blocks[t.blockid].available[m.chunkid - t.start := true]
    ensures OnPayload(p, m.chunkid, m.data) == OnStored(p, t, b)
  {
    LiveStored(allocs, next, p, m, t);
    b := StoreChunk(p.db.blocks[t.blockid], m.chunkid - t.start, m.data).value;
  }

  lemma {:induction false} ChunkAccepted(cfg: Config, s: State, m: Msg)
    requires cfg.Valid() && Inv(cfg, s) && m in s.payloads
    requires s.peer.conn.Some? && s.peer.conn.value.transfers != []
    requires IsMissing(s.peer.db.blocks, s.peer.conn.value.transfers[0], m.chunkid)
    ensures OnPayload(s.peer, m.chunkid, m.data).Some?
    ensures Nearer(cfg, s.peer, OnPayload(s.peer, m.chunkid, m.data).value)
  {
    var t := s.peer.conn.value.transfers[0];
    assert t in s.peer.conn.value.transfers && IsPartial(s.peer.db.blocks, t.blockid);
    MissingInside(s.out.transfers, s.out.next, t, s.peer.db.blocks, m.chunkid);
    FoundFirst(s.peer.conn.value.transfers, m.chunkid);
    PayloadKeepsPeer(cfg, s.out, s.peer, m);
    assert Allocation(t.start, t.end, t.blockid) in s.out.transfers;
    ChunkNearer(cfg, s.out.transfers, s.out.next, s.peer, m);
  }

  /** When a status is due and a transfer live, one of its missing chunks can be asked for, sent and
      stored. */
  lemma {:induction false} FetchChunk(cfg: Config, steps: seq<Step>) returns (run: seq<Step>, m: Msg)
    requires Ready(cfg, steps) && After(cfg, steps).due > 0
    requires var p := After(cfg, steps).peer; p.conn.Some? && p.conn.value.transfers != []
    ensures Extends(cfg, steps, run) && m in After(cfg, run).payloads
    ensures var p, p' := After(cfg, steps).peer, After(cfg, run).peer;
            && IsMissing(p.db.blocks, p.conn.value.transfers[0], m.chunkid)
            && OnPayload(p, m.chunkid, m.data) == Some(p') && After(cfg, run).due > 0
            && Nearer(cfg, p, p') && (p'.conn.None? ==> p'.db.root == cfg.root)
  {
    var aimed := AimAtMissing(cfg, steps);
    var sent;
    sent, m := SendChunk(cfg, aimed, After(cfg, aimed).out.sending.cursor.value);
    RunInv(cfg, sent);
    var s := After(cfg, sent);
    ChunkAccepted(cfg, s, m);
    PayloadStepUnfold(cfg, s, m);
    ClosedWithRoot(cfg, s, PayloadArrives(m));
    Take(cfg, sent, PayloadArrives(m));
    run := sent + [PayloadArrives(m)];
  }

  // ---------------------------------------------------------------- a status becomes due

  /** No farther: at least as near, on the same connection if not nearer. */
  ghost predicate NoFarther(cfg: Config, p: Peer, p': Peer)
    requires p.conn.Some?
  {
    || p'.conn.None?
    || Lacking(cfg, p'.db.blocks) < Lacking(cfg, p.db.blocks)
    || (Lacking(cfg, p'.db.blocks) == Lacking(cfg, p.db.blocks) && p'.conn == p.conn && ZerosFirst(p') <= ZerosFirst(p))
  }

  lemma {:induction false} StoredNoFarther(cfg: Config, p: Peer, t: Transfer, b: Block, k: nat)
    requires p.conn.Some? && IsPartial(p.db.blocks, t.blockid) && t.blockid in cfg.held && b.Partial?
    requires k < |p.db.blocks[t.blockid].available|
    requires b.available == p.db.blocks[t.blockid].available[k := true]
    requires OnStored(p, t, b).Some?
    ensures NoFarther(cfg, p, OnStored(p, t, b).value)
  {
    var blocks := p.db.blocks;
    if AllAvailable(b.available) {
      PromotionLacks(cfg, blocks, t.blockid, b.data);
      PromotedBlocks(Promote(p, t, b.data), t.blockid);
    } else {
      ZeroCountUpdate(blocks[t.blockid].available, k, true);
      assert forall y :: IsFull(blocks[t.blockid := b], y) <==> IsFull(blocks, y);
    }
  }

  lemma {:induction false} LiveNoFarther(
      cfg: Config, allocs: seq<Allocation>, next: nat, p: Peer, m: Msg, t: Transfer)
    requires AllocationsOk(allocs, next) && PayloadOk(allocs, m) && OnPayload(p, m.chunkid, m.data).Some?
    requires Honest(p.db.blocks) && PartialsOk(p.db.blocks)
    requires p.conn.Some? && TransfersOk(allocs, p.conn.value.transfers, p.db.blocks)
    requires FindTransfer(p.conn.value.transfers, m.chunkid) == Some(t)
    requires IsPartial(p.db.blocks, t.blockid) && t.blockid in cfg.held
    ensures NoFarther(cfg, p, OnPayload(p, m.chunkid, m.data).value)
  {
    var b := StoredBlock(allocs, next, p, m, t);
    StoredNoFarther(cfg, p, t, b, m.chunkid - t.start);
  }

  lemma {:induction false} LiveAccepted(cfg: Config, s: State, m: Msg)
    requires cfg.Valid() && Inv(cfg, s) && m in s.payloads && s.peer.conn.Some?
    requires Wanting(s.peer, m.chunkid)
    ensures OnPayload(s.peer, m.chunkid, m.data).Some?
    ensures NoFarther(cfg, s.peer, OnPayload(s.peer, m.chunkid, m.data).value)
  {
    PayloadKeepsPeer(cfg, s.out, s.peer, m);
    var t := FindTransfer(s.peer.conn.value.transfers, m.chunkid).value;
    assert Allocation(t.start, t.end, t.blockid) in s.out.transfers;
    LiveNoFarther(cfg, s.out.transfers, s.out.next, s.peer, m, t);
  }

  lemma {:induction false} LiveStatus(p: Peer, statuses: set<seq<byte>>) returns (u: seq<byte>, c: nat)
    requires DueOk(p, 0, statuses) && p.conn.Some? && p.conn.value.transfers != [] && TidyPeer(p)
    ensures u in statuses && DecodeStatus(u).Some? && DecodeStatus(u).value != []
    ensures c == DecodeStatus(u).value[0].from && Wanting(p, c)
  {
    u :| u in statuses && AimsAtLive(p.conn.value.transfers, u);
    c := DecodeStatus(u).value[0].from;
  }

  /** With a transfer live and no status due, an old status can make the sender send a chunk of it,
      and that makes a status due. */
  lemma {:induction false} Revive(cfg: Config, steps: seq<Step>) returns (run: seq<Step>)
    requires Ready(cfg, steps) && After(cfg, steps).due == 0
    requires var p := After(cfg, steps).peer; p.conn.Some? && p.conn.value.transfers != []
    ensures Extends(cfg, steps, run) && After(cfg, run).due > 0
    ensures var p, p' := After(cfg, steps).peer, After(cfg, run).peer;
            NoFarther(cfg, p, p') && (p'.conn.None? ==> p'.db.root == cfg.root)
  {
    RunInv(cfg, steps);
    DueRun(cfg, steps);
    var u, c := LiveStatus(After(cfg, steps).peer, After(cfg, steps).statuses);
    var aimed := Aim(cfg, steps, u);
    var sent, m := SendChunk(cfg, aimed, c);
    RunInv(cfg, sent);
    var s := After(cfg, sent);
    LiveAccepted(cfg, s, m);
    PayloadStepUnfold(cfg, s, m);
    ClosedWithRoot(cfg, s, PayloadArrives(m));
    Take(cfg, sent, PayloadArrives(m));
    run := sent + [PayloadArrives(m)];
  }

  // ---------------------------------------------------------------- no dead ends

  lemma {:induction false} SubsetSmaller(a: set<BlockId>, b: set<BlockId>)
    requires a < b
    ensures |a| < |b|
  {
    var x :| x in b && x !in a;
    var rest := b - {x};
    assert a <= rest;
    SubsetAtMost(a, rest);
  }

  lemma {:induction false} SubsetAtMost(a: set<BlockId>, b: set<BlockId>)
    requires a <= b
    ensures |a| <= |b|
  {
    if a != {} {
      var x :| x in a;
      SubsetAtMost(a - {x}, b - {x});
    }
  }

  lemma {:induction false} OpenConnection(cfg: Config, steps: seq<Step>) returns (run: seq<Step>)
    requires Ready(cfg, steps)
    requires var p := After(cfg, steps).peer; p.conn.None? && p.db.root != cfg.root
    ensures Extends(cfg, steps, run)
    ensures var p, p' := After(cfg, steps).peer, After(cfg, run).peer;
            p'.conn == Some(Conn({cfg.root.blockid}, [])) && p'.db.blocks == p.db.blocks
  {
    RunInv(cfg, steps);
    Take(cfg, steps, RootUpdateArrives);
    run := steps + [RootUpdateArrives];
  }

  lemma {:induction false} LackingCount(cfg: Config, a: Blocks, b: Blocks)
    requires Lacking(cfg, a) < Lacking(cfg, b)
    ensures |Lacking(cfg, a)| < |Lacking(cfg, b)|
  {
    SubsetSmaller(Lacking(cfg, a), Lacking(cfg, b));
  }

  /** From every open connection the fetch can still be completed, in spite of all that was lost,
      repeated or reordered before, as long as the receiver can say what it lacks. */
  lemma {:induction false} CanFetch(cfg: Config, steps: seq<Step>) returns (run: seq<Step>)
    requires IdsSuffice(cfg) && Ready(cfg, steps) && After(cfg, steps).peer.conn.Some?
    ensures Extends(cfg, steps, run) && After(cfg, run).peer.db.root == cfg.root
    decreases |Lacking(cfg, After(cfg, steps).peer.db.blocks)|,
              After(cfg, steps).peer.conn.value.transfers == [], ZerosFirst(After(cfg, steps).peer),
              After(cfg, steps).due == 0
  {
    var p := After(cfg, steps).peer;
    var next;
    if p.conn.value.transfers == [] {
      var res;
      next, res := OpenTransfer(cfg, steps);
    } else if After(cfg, steps).due == 0 {
      next := Revive(cfg, steps);
    } else {
      var m;
      next, m := FetchChunk(cfg, steps);
    }
    var p' := After(cfg, next).peer;
    if p'.conn.None? {
      run := next;
    } else {
      if Lacking(cfg, p'.db.blocks) < Lacking(cfg, p.db.blocks) {
        LackingCount(cfg, p'.db.blocks, p.db.blocks);
      }
      run := CanFetch(cfg, next);
    }
  }

  /** No run is a dead end: from every reachable state in which the receiver can say what it lacks it
      can still take over the sender's root, and with responses in order if they were so far. */
  lemma {:induction false} CanSync(cfg: Config, steps: seq<Step>) returns (run: seq<Step>)
    requires IdsSuffice(cfg) && Ready(cfg, steps)
    ensures Extends(cfg, steps, run) && After(cfg, run).peer.db.root == cfg.root
  {
    var p := After(cfg, steps).peer;
    if p.conn.Some? {
      run := CanFetch(cfg, steps);
    } else if p.db.root == cfg.root {
      run := steps;
    } else {
      var begun := OpenConnection(cfg, steps);
      run := CanFetch(cfg, begun);
    }
  }

  /** The sender holds the database of one folder, the receiver that of another. */
  function FolderConfig(ours: Node, path: Path, keys: Keys, theirs: Node, path': Path, keys': Keys, start: nat): Config
    requires ours.FolderNode? && theirs.FolderNode?
  {
    Config(
      RootRef(ours, path, keys), BlocksOf(ours, path, keys),
      RootRef(theirs, path', keys'), BlocksOf(theirs, path', keys'), theirs.entries, start)
  }

  /** Two folders, of which the receiver does not store the other's root, meet all that the theorems
      about runs ask for. */
  lemma {:induction false} FolderConfigIsValid(
      ours: Node, path: Path, keys: Keys, theirs: Node, path': Path, keys': Keys, start: nat)
    requires ours.FolderNode? && theirs.FolderNode? && start < 0x1_0000_0000
    requires RootRef(ours, path, keys).blockid !in BlocksOf(theirs, path', keys')
    ensures FolderConfig(ours, path, keys, theirs, path', keys', start).Valid()
  {
    FolderDbIsComplete(ours, path, keys);
    FolderDbIsComplete(theirs, path', keys');
  }

  /** One folder can, from every such state, be written out on the other side. */
  lemma {:induction false} FolderCanBeSynced(
      ours: Node, path: Path, keys: Keys, theirs: Node, path': Path, keys': Keys, start: nat, steps: seq<Step>)
      returns (run: seq<Step>)
    requires ours.FolderNode? && theirs.FolderNode? && start < 0x1_0000_0000
    requires RootRef(ours, path, keys).blockid !in BlocksOf(theirs, path', keys')
    requires var cfg := FolderConfig(ours, path, keys, theirs, path', keys', start);
             IdsSuffice(cfg) && Ready(cfg, steps)
    ensures var cfg := FolderConfig(ours, path, keys, theirs, path', keys', start);
            && Extends(cfg, steps, run)
            && After(cfg, run).peer.db.root == cfg.root && After(cfg, run).peer.disk == StripAll(ours.entries)
  {
    var cfg := FolderConfig(ours, path, keys, theirs, path', keys', start);
    FolderConfigIsValid(ours, path, keys, theirs, path', keys', start);
    run := CanSync(cfg, steps);
    SyncedFolder(cfg, ours, path, keys, run);
  }
}
