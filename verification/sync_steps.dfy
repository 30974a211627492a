/** Every step of the v2 synchronisation keeps the invariant. */
module SyncSteps {
  import opened Varints
  import opened Ranges
  import opened Runs
  import opened Blocks
  import opened TransferCodec
  import opened TransferOuts
  import opened Sync
  import opened PartialBlocks
  import opened Frontier
  import opened SyncInvariant

  // ---------------------------------------------------------------- status messages

  lemma {:induction false} OrderedConcat(a: seq<Range>, b: seq<Range>, lo: nat, mid: nat, hi: nat)
    requires Ordered(a) && Within(a, lo, mid) && Ordered(b) && Within(b, mid, hi) && lo <= mid <= hi
    ensures Ordered(a + b) && Within(a + b, lo, hi)
  {
  }

  /** The ranges of one transfer: the maximal runs of missing chunks, inside its allocation. */
  lemma {:induction false} TransferRanges(allocs: seq<Allocation>, next: nat, t: Transfer, b: Block)
    requires AllocationsOk(allocs, next) && Allocation(t.start, t.end, t.blockid) in allocs
    requires b.Partial? && PartialOk(b) && b.id == t.blockid
    ensures var rs := ZeroRuns(b.available, t.start);
            Ordered(rs) && Within(rs, t.start, t.end) && RangesAllocated(allocs, rs)
    ensures t.start <= t.end <= next
  {
    var a := Allocation(t.start, t.end, t.blockid);
    UsedPart(allocs, next, a);
    ZeroRunsOrdered(b.available, t.start);
    var rs := ZeroRuns(b.available, t.start);
    forall i | 0 <= i < |rs| ensures InAllocation(allocs, rs[i]) {
      assert a in allocs && a.from <= rs[i].from && rs[i].to <= a.from + Chunks(|a.id.data|);
    }
  }

  /** The receiver can always say what is missing: ascending ranges inside its allocations. */
  lemma {:induction false} StatusRangesOk(
      allocs: seq<Allocation>, next: nat, ts: seq<Transfer>, blocks: Blocks, lo: nat)
    requires AllocationsOk(allocs, next) && InOrder(ts) && PartialsOk(blocks) && Honest(blocks)
    requires forall t :: t in ts ==> IsPartial(blocks, t.blockid) && Allocation(t.start, t.end, t.blockid) in allocs
    requires lo <= next && (ts != [] ==> lo <= ts[0].start)
    ensures StatusRanges(ts, blocks).Some?
    ensures var rs := StatusRanges(ts, blocks).value;
            Ordered(rs) && Within(rs, lo, next) && RangesAllocated(allocs, rs)
  {
    if ts != [] {
      var t, rest := ts[0], ts[1..];
      assert t in ts && IsPartial(blocks, t.blockid);
      TransferRanges(allocs, next, t, blocks[t.blockid]);
      StatusRangesOk(allocs, next, rest, blocks, t.end);
      var a, b := ZeroRuns(blocks[t.blockid].available, t.start), StatusRanges(rest, blocks).value;
      OrderedConcat(a, b, lo, t.end, next);
      assert RangesAllocated(allocs, a + b);
    }
  }

  /** Chunk id `x` is one of transfer `t` that has not arrived. */
  ghost predicate IsMissing(blocks: Blocks, t: Transfer, x: nat) {
    && IsPartial(blocks, t.blockid)
    && t.start <= x < t.start + |blocks[t.blockid].available|
    && !blocks[t.blockid].available[x - t.start]
  }

  /** The ranges cover exactly the chunks that have not arrived. */
  lemma {:induction false} StatusRangesExact(ts: seq<Transfer>, blocks: Blocks, x: nat)
    requires StatusRanges(ts, blocks).Some?
    ensures Covers(StatusRanges(ts, blocks).value, x) <==> exists t :: t in ts && IsMissing(blocks, t, x)
  {
    if ts != [] {
      var t, rest := ts[0], ts[1..];
      StatusRangesExact(rest, blocks, x);
      var a, b := ZeroRuns(blocks[t.blockid].available, t.start), StatusRanges(rest, blocks).value;
      ZeroRunsCover(blocks[t.blockid].available, t.start, x);
      CoversConcat(a, b, x);
      assert Covers(a, x) <==> IsMissing(blocks, t, x);
      assert t in ts && forall u :: u in rest ==> u in ts;
      if u :| u in ts && IsMissing(blocks, u, x) {
        assert u == t || u in rest;
      }
    }
  }

  lemma {:induction false} CoversConcat(a: seq<Range>, b: seq<Range>, x: nat)
    ensures Covers(a + b, x) <==> Covers(a, x) || Covers(b, x)
  {
    if Covers(a, x) {
      var i :| 0 <= i < |a| && a[i].from <= x < a[i].to;
      assert (a + b)[i] == a[i];
    }
    if Covers(b, x) {
      var i :| 0 <= i < |b| && b[i].from <= x < b[i].to;
      assert (a + b)[|a| + i] == b[i];
    }
  }

  lemma {:induction false} AllocatedConcat(allocs: seq<Allocation>, a: seq<Range>, b: seq<Range>)
    requires RangesAllocated(allocs, a) && RangesAllocated(allocs, b)
    ensures RangesAllocated(allocs, a + b)
  {
  }

  ghost predicate Nonempty(rs: seq<Range>) { forall i :: 0 <= i < |rs| ==> rs[i].from < rs[i].to }

  /** Whatever transfers there are, in whatever order: ranges that can be made lie in allocations. */
  lemma {:induction false} RangesLieInAllocations(
      allocs: seq<Allocation>, next: nat, ts: seq<Transfer>, blocks: Blocks)
    requires AllocationsOk(allocs, next) && PartialsOk(blocks) && Honest(blocks)
    requires forall t :: t in ts ==> Allocation(t.start, t.end, t.blockid) in allocs
    requires StatusRanges(ts, blocks).Some?
    ensures var rs := StatusRanges(ts, blocks).value;
            RangesAllocated(allocs, rs) && Nonempty(rs) && Within(rs, 0, next)
  {
    if ts != [] {
      var t, rest := ts[0], ts[1..];
      assert t in ts && IsPartial(blocks, t.blockid);
      TransferRanges(allocs, next, t, blocks[t.blockid]);
      RangesLieInAllocations(allocs, next, rest, blocks);
      AllocatedConcat(allocs, ZeroRuns(blocks[t.blockid].available, t.start), StatusRanges(rest, blocks).value);
    }
  }

  /** Ranges that can be encoded are in order. */
  lemma {:induction false} AscendingIsOrdered(rs: seq<Range>)
    requires Ascending(Flat(rs), 0) && Nonempty(rs)
    ensures Ordered(rs)
  {
    forall i, j | 0 <= i < j < |rs| ensures rs[i].to <= rs[j].from {
      AscendingAt(rs, 0, i, j);
    }
  }

  /** A status of the receiver goes over the wire and arrives as ranges inside the allocations. */
  lemma {:induction false} StatusSentOk(allocs: seq<Allocation>, next: nat, rs: seq<Range>)
    requires AllocationsOk(allocs, next) && next < U64_LIMIT
    requires Ordered(rs) && Within(rs, 0, next) && RangesAllocated(allocs, rs)
    ensures Ascending(Flat(rs), 0) && StatusOk(allocs, StatusMessage(rs))
  {
    StatusWire(rs);
  }

  // ---------------------------------------------------------------- more allocations

  lemma {:induction false} AllocsGrow(cfg: Config, s: State, allocs: seq<Allocation>)
    requires NetOk(cfg, s) && PeerOk(cfg, s.out.transfers, s.peer) && s.out.transfers <= allocs
    ensures PeerOk(cfg, allocs, s.peer)
    ensures forall r :: r in s.responses ==> ResponseOk(allocs, r)
    ensures forall m :: m in s.payloads ==> PayloadOk(allocs, m)
    ensures forall u :: u in s.statuses ==> StatusOk(allocs, u)
  {
    assert forall a :: a in s.out.transfers ==> a in allocs;
    forall m | m in s.payloads ensures PayloadOk(allocs, m) {
      var a :| a in s.out.transfers && IsChunkOf(a, m);
      assert a in allocs;
    }
    forall u | u in s.statuses ensures StatusOk(allocs, u) {
      RangesGrow(s.out.transfers, allocs, DecodeStatus(u).value);
    }
  }

  lemma {:induction false} RangesGrow(allocs: seq<Allocation>, more: seq<Allocation>, rs: seq<Range>)
    requires RangesAllocated(allocs, rs) && allocs <= more
    ensures RangesAllocated(more, rs)
  {
    forall i | 0 <= i < |rs| ensures InAllocation(more, rs[i]) {
      assert InAllocation(allocs, rs[i]);
      var a :| a in allocs && a.from <= rs[i].from && rs[i].to <= a.from + Chunks(|a.id.data|);
      assert a in more;
    }
  }

  lemma {:induction false} FoundResponse(allocs: seq<Allocation>, next: nat, id: BlockId)
    requires AllocationsOk(allocs, next) && Find(allocs, id).Some?
    ensures ResponseOk(allocs, ResponseTo(Find(allocs, id).value))
  {
  }

  lemma {:induction false} AllocateAdds(out: Out, id: BlockId)
    requires Allocate(out, id).Some? && out.next < U64_LIMIT
    ensures var out' := Allocate(out, id).value;
            && out'.sending == out.sending && out'.next < U64_LIMIT
            && forall a :: a in out'.transfers ==> a in out.transfers || a.id == id
  {
  }

  lemma {:induction false} AllocateKeepsSender(cfg: Config, out: Out, id: BlockId)
    requires SenderOk(cfg, out) && Allocate(out, id).Some? && id in cfg.held
    ensures var out' := Allocate(out, id).value;
            && SenderOk(cfg, out') && out.transfers <= out'.transfers
            && Find(out'.transfers, id).Some?
            && ResponseOk(out'.transfers, ResponseTo(Find(out'.transfers, id).value))
  {
    var out' := Allocate(out, id).value;
    AllocateOk(out, id);
    AllocateAdds(out, id);
    RangesGrow(out.transfers, out'.transfers, out.sending.todo);
    FoundResponse(out'.transfers, out'.next, id);
  }

  lemma {:induction false} GrowStep(cfg: Config, s: State, out: Out, r: Response)
    requires Inv(cfg, s) && SenderOk(cfg, out) && s.out.transfers <= out.transfers
    requires ResponseOk(out.transfers, r) && r.blockid in s.requests
    ensures Inv(cfg, s.(out := out, responses := s.responses + {r}))
  {
    AllocsGrow(cfg, s, out.transfers);
  }

  lemma {:induction false} RequestStep(cfg: Config, s: State, id: BlockId)
    requires cfg.Valid() && Inv(cfg, s) && Apply(cfg, s, RequestArrives(id)).Some?
    ensures Inv(cfg, Apply(cfg, s, RequestArrives(id)).value)
  {
    AllocateKeepsSender(cfg, s.out, id);
    var out := Allocate(s.out, id).value;
    GrowStep(cfg, s, out, ResponseTo(Find(out.transfers, id).value));
  }

  // ---------------------------------------------------------------- sender loops

  /** An id in a todo range is inside one allocation, in its used part. */
  lemma {:induction false} TodoIsAllocated(allocs: seq<Allocation>, next: nat, todo: seq<Range>, c: nat)
    requires AllocationsOk(allocs, next) && RangesAllocated(allocs, todo) && Covers(todo, c)
    ensures FindChunk(allocs, c).Some?
    ensures var a := FindChunk(allocs, c).value; a in allocs && a.from <= c < a.from + Chunks(|a.id.data|)
  {
    var i :| 0 <= i < |todo| && todo[i].from <= c < todo[i].to;
    assert InAllocation(allocs, todo[i]);
    var a :| a in allocs && a.from <= todo[i].from && todo[i].to <= a.from + Chunks(|a.id.data|);
    UsedPart(allocs, next, a);
    assert a.from <= c < a.to;
    AllocationUnique(allocs, next, c, a, FindChunk(allocs, c).value);
  }

  /** A live loop finds its chunk and sends exactly that part of the block. */
  lemma {:induction false} LoopPayload(allocs: seq<Allocation>, next: nat, todo: seq<Range>, c: nat)
    requires AllocationsOk(allocs, next) && RangesAllocated(allocs, todo) && Covers(todo, c)
    ensures FindChunk(allocs, c).Some? && PayloadOk(allocs, PayloadAt(allocs, c))
  {
    TodoIsAllocated(allocs, next, todo, c);
    assert IsChunkOf(FindChunk(allocs, c).value, PayloadAt(allocs, c));
  }

  lemma {:induction false} SendingStep(cfg: Config, s: State, sending: Sending)
    requires Inv(cfg, s) && SendingOk(sending) && RangesAllocated(s.out.transfers, sending.todo)
    ensures Inv(cfg, s.(out := s.out.(sending := sending)))
  {
  }

  lemma {:induction false} LoopUnfold(cfg: Config, s: State, c: nat)
    requires s.out.sending.loops > 0 && s.out.sending.cursor == Some(c) && FindChunk(s.out.transfers, c).Some?
    requires var id := FindChunk(s.out.transfers, c).value.id; IsFull(cfg.held, id) && cfg.held[id].data == id.data
    ensures Apply(cfg, s, Step.LoopRuns) == Some(AfterLoop(s, OnLoop(s.out.sending), PayloadAt(s.out.transfers, c)))
  {
  }

  function PayloadAt(allocs: seq<Allocation>, c: nat): Msg
    requires FindChunk(allocs, c).Some?
  {
    var a := FindChunk(allocs, c).value;
    Msg(c, ChunkOf(a.id.data, c - a.from))
  }

  function AfterLoop(s: State, sending: Sending, m: Msg): State {
    s.(out := s.out.(sending := sending), payloads := s.payloads + {m})
  }

  lemma {:induction false} AfterLoopInv(cfg: Config, s: State, sending: Sending, m: Msg)
    requires Inv(cfg, s) && SendingOk(sending) && RangesAllocated(s.out.transfers, sending.todo)
    requires PayloadOk(s.out.transfers, m)
    ensures Inv(cfg, AfterLoop(s, sending, m))
  {
  }

  lemma {:induction false} LoopSends(cfg: Config, s: State, c: nat)
    requires cfg.Valid() && Inv(cfg, s) && s.out.sending.loops > 0 && s.out.sending.cursor == Some(c)
    ensures Apply(cfg, s, Step.LoopRuns).Some? && Inv(cfg, Apply(cfg, s, Step.LoopRuns).value)
  {
    LoopPayload(s.out.transfers, s.out.next, s.out.sending.todo, c);
    assert IsFull(cfg.held, FindChunk(s.out.transfers, c).value.id);
    OnLoopOk(s.out.sending);
    LoopUnfold(cfg, s, c);
    AfterLoopInv(cfg, s, OnLoop(s.out.sending), PayloadAt(s.out.transfers, c));
  }

  /** A live loop always finds what its cursor points at: the panic on unallocated chunks is
      unreachable. */
  lemma {:induction false} LoopStep(cfg: Config, s: State)
    requires cfg.Valid() && Inv(cfg, s) && s.out.sending.loops > 0
    ensures Apply(cfg, s, Step.LoopRuns).Some? && Inv(cfg, Apply(cfg, s, Step.LoopRuns).value)
  {
    match s.out.sending.cursor
    case Some(c) => LoopSends(cfg, s, c);
    case None => LoopStops(cfg, s);
  }

  lemma {:induction false} IdleUnfold(cfg: Config, s: State)
    requires s.out.sending.loops > 0 && s.out.sending.cursor.None?
    ensures Apply(cfg, s, Step.LoopRuns) == Some(s.(out := s.out.(sending := OnLoop(s.out.sending))))
    ensures OnLoop(s.out.sending).todo == s.out.sending.todo
  {
  }

  lemma {:induction false} LoopStops(cfg: Config, s: State)
    requires Inv(cfg, s) && s.out.sending.loops > 0 && s.out.sending.cursor.None?
    ensures Apply(cfg, s, Step.LoopRuns).Some? && Inv(cfg, Apply(cfg, s, Step.LoopRuns).value)
  {
    IdleUnfold(cfg, s);
    OnLoopOk(s.out.sending);
    SendingStep(cfg, s, OnLoop(s.out.sending));
  }

  // ---------------------------------------------------------------- all steps

  lemma {:induction false} StatusAdded(cfg: Config, s: State, due: nat, u: seq<byte>)
    requires Inv(cfg, s) && StatusOk(s.out.transfers, u)
    ensures Inv(cfg, s.(due := due, statuses := s.statuses + {u}))
  {
  }

  lemma {:induction false} PeerStatus(allocs: seq<Allocation>, next: nat, p: Peer)
    requires AllocationsOk(allocs, next) && next < U64_LIMIT && Honest(p.db.blocks)
    requires p.conn.Some? ==> TransfersOk(allocs, p.conn.value.transfers, p.db.blocks) && PartialsOk(p.db.blocks)
    requires p.conn.Some? ==> Tidy(p.conn.value.transfers, p.db.blocks)
    ensures MissingNow(p).Some?
    ensures var rs := MissingNow(p).value; Ordered(rs) && Within(rs, 0, next) && RangesAllocated(allocs, rs)
  {
    if p.conn.Some? {
      StatusRangesOk(allocs, next, p.conn.value.transfers, p.db.blocks, 0);
    }
  }

  lemma {:induction false} StatusUnfold(cfg: Config, s: State, rs: seq<Range>)
    requires s.due > 0 && MissingNow(s.peer) == Some(rs) && Ascending(Flat(rs), 0)
    ensures Apply(cfg, s, StatusSent) == Some(s.(due := s.due - 1, statuses := s.statuses + {StatusMessage(rs)}))
  {
  }

  /** Making the next status does not panic. */
  predicate CanTell(p: Peer) { MissingNow(p).Some? && Ascending(Flat(MissingNow(p).value), 0) }

  /** A status that can be made can be read, and lies in the allocations. */
  lemma {:induction false} ToldOk(allocs: seq<Allocation>, next: nat, p: Peer)
    requires AllocationsOk(allocs, next) && next < U64_LIMIT && Honest(p.db.blocks) && CanTell(p)
    requires p.conn.Some? ==> TransfersOk(allocs, p.conn.value.transfers, p.db.blocks) && PartialsOk(p.db.blocks)
    ensures StatusOk(allocs, StatusMessage(MissingNow(p).value))
  {
    var rs := MissingNow(p).value;
    if p.conn.Some? {
      RangesLieInAllocations(allocs, next, p.conn.value.transfers, p.db.blocks);
    }
    AscendingIsOrdered(rs);
    StatusSentOk(allocs, next, rs);
  }

  lemma {:induction false} StatusStep(cfg: Config, s: State)
    requires Inv(cfg, s) && s.due > 0 && CanTell(s.peer)
    ensures Apply(cfg, s, StatusSent).Some? && Inv(cfg, Apply(cfg, s, StatusSent).value)
  {
    ToldOk(s.out.transfers, s.out.next, s.peer);
    var rs := MissingNow(s.peer).value;
    StatusUnfold(cfg, s, rs);
    StatusAdded(cfg, s, s.due - 1, StatusMessage(rs));
  }

  /** A payload forgets no request: what was pending stays so, or everything is stored. */
  lemma {:induction false} PayloadAccounts(cfg: Config, out: Out, p: Peer, m: Msg)
    requires cfg.Valid() && SenderOk(cfg, out) && PeerOk(cfg, out.transfers, p) && PayloadOk(out.transfers, m)
    requires p.conn.Some? && OnPayload(p, m.chunkid, m.data).Some?
    ensures var p' := OnPayload(p, m.chunkid, m.data).value;
            && p.db.blocks.Keys <= p'.db.blocks.Keys
            && (p'.conn.Some? ==> p.conn.value.pending <= p'.conn.value.pending)
            && (p'.conn.None? ==> p.conn.value.pending <= p'.db.blocks.Keys)
  {
    PayloadKeepsPeer(cfg, out, p, m);
    PayloadGrows(p, m);
    var p' := OnPayload(p, m.chunkid, m.data).value;
    if p'.conn.None? {
      forall x | x in p.conn.value.pending ensures x in p'.db.blocks {
        OnEdgeReaches(p.db.blocks, cfg.root.blockid, x);
      }
    }
  }

  lemma {:induction false} PayloadGrows(p: Peer, m: Msg)
    requires p.conn.Some? && OnPayload(p, m.chunkid, m.data).Some?
    ensures var p' := OnPayload(p, m.chunkid, m.data).value;
            && p.db.blocks.Keys <= p'.db.blocks.Keys
            && (p'.conn.Some? ==> p.conn.value.pending <= p'.conn.value.pending)
            && (p'.conn.None? ==> p.db.pendingRoot == Some(p'.db.root))
  {
    var t := FindTransfer(p.conn.value.transfers, m.chunkid).value;
    var b := StoreChunk(p.db.blocks[t.blockid], m.chunkid - t.start, m.data).value;
    PayloadUnfold(p, m, t);
    StoredGrows(p, t, b);
  }

  lemma {:induction false} StoredGrows(p: Peer, t: Transfer, b: Block)
    requires p.conn.Some? && b.Partial? && OnStored(p, t, b).Some?
    ensures var p' := OnStored(p, t, b).value;
            && p.db.blocks.Keys <= p'.db.blocks.Keys
            && (p'.conn.Some? ==> p.conn.value.pending <= p'.conn.value.pending)
            && (p'.conn.None? ==> p.db.pendingRoot == Some(p'.db.root))
  {
    if AllAvailable(b.available) {
      PromotedGrows(Promote(p, t, b.data), t.blockid);
    }
  }

  lemma {:induction false} PromotedGrows(p: Peer, id: BlockId)
    requires p.conn.Some? && OnPromoted(p, id).Some?
    ensures var p' := OnPromoted(p, id).value;
            && p'.db.blocks == p.db.blocks
            && (p'.conn.Some? ==> p.conn.value.pending <= p'.conn.value.pending)
            && (p'.conn.None? ==> p.db.pendingRoot == Some(p'.db.root))
  {
  }

  lemma {:induction false} PeerStep(cfg: Config, s: State, p: Peer, due: nat)
    requires cfg.Valid() && Inv(cfg, s) && PeerOk(cfg, s.out.transfers, p) && Accounted(p, s.requests)
    ensures Inv(cfg, s.(peer := p, due := due, requests := s.requests + Pending(p)))
    ensures Pending(p) <= s.requests ==> Inv(cfg, s.(peer := p, due := due))
  {
    RequestsHeld(cfg, s, p);
  }

  lemma {:induction false} RootStep(cfg: Config, s: State)
    requires cfg.Valid() && Inv(cfg, s)
    ensures Inv(cfg, Apply(cfg, s, RootUpdateArrives).value)
  {
    RootUpdateOk(cfg, s.out.transfers, s.peer);
    PeerStep(cfg, s, OnRootUpdate(s.peer, cfg.root), s.due);
  }

  lemma {:induction false} ResponseAccounts(p: Peer, requests: set<BlockId>, res: Response)
    requires Accounted(p, requests)
    ensures Accounted(OnResponse(p, res), requests) && Pending(OnResponse(p, res)) <= Pending(p)
  {
  }

  lemma {:induction false} ResponseStep(cfg: Config, s: State, res: Response)
    requires cfg.Valid() && Inv(cfg, s) && res in s.responses
    ensures var p := OnResponse(s.peer, res);
            Inv(cfg, s.(peer := p, due := s.due + if FirstTransfer(p) then 1 else 0))
  {
    ResponseKeepsPeer(cfg, s.out.transfers, s.peer, res);
    ResponseAccounts(s.peer, s.requests, res);
    var p := OnResponse(s.peer, res);
    PeerStep(cfg, s, p, s.due + if FirstTransfer(p) then 1 else 0);
  }

  lemma {:induction false} PayloadStep(cfg: Config, s: State, m: Msg)
    requires cfg.Valid() && Inv(cfg, s) && Apply(cfg, s, PayloadArrives(m)).Some?
    ensures Inv(cfg, Apply(cfg, s, PayloadArrives(m)).value)
  {
    PayloadUnfolds(cfg, s, m);
    if s.peer.conn.Some? {
      PayloadKeepsPeer(cfg, s.out, s.peer, m);
      PayloadAccounts(cfg, s.out, s.peer, m);
      PeerStep(cfg, s, OnPayload(s.peer, m.chunkid, m.data).value, s.due + 1);
    }
  }

  lemma {:induction false} PayloadUnfolds(cfg: Config, s: State, m: Msg)
    requires Apply(cfg, s, PayloadArrives(m)).Some?
    ensures m in s.payloads && OnPayload(s.peer, m.chunkid, m.data).Some?
    ensures s.peer.conn.None? ==> Apply(cfg, s, PayloadArrives(m)) == Some(s)
    ensures s.peer.conn.Some? ==>
              var p := OnPayload(s.peer, m.chunkid, m.data).value;
              Apply(cfg, s, PayloadArrives(m))
                == Some(s.(peer := p, due := s.due + 1, requests := s.requests + Pending(p)))
  {
    assert s.requests + {} == s.requests;
  }

  lemma {:induction false} ArrivalStep(cfg: Config, s: State, bytes: seq<byte>)
    requires Inv(cfg, s) && Apply(cfg, s, Step.StatusArrives(bytes)).Some?
    ensures Inv(cfg, Apply(cfg, s, Step.StatusArrives(bytes)).value)
  {
    OnStatusOk(s.out.sending, DecodeStatus(bytes).value);
    SendingStep(cfg, s, OnStatus(s.out.sending, DecodeStatus(bytes).value));
  }

  lemma {:induction false} StepInv(cfg: Config, s: State, step: Step)
    requires cfg.Valid() && Inv(cfg, s) && Apply(cfg, s, step).Some?
    ensures Inv(cfg, Apply(cfg, s, step).value)
  {
    match step
    case RootUpdateArrives => RootStep(cfg, s);
    case RequestArrives(id) => RequestStep(cfg, s, id);
    case ResponseArrives(res) => ResponseStep(cfg, s, res);
    case StatusSent => StatusStep(cfg, s);
    case StatusArrives(bytes) => ArrivalStep(cfg, s, bytes);
    case LoopRuns => LoopStep(cfg, s);
    case PayloadArrives(m) => PayloadStep(cfg, s, m);
  }

  lemma {:induction false} RunInv(cfg: Config, steps: seq<Step>)
    requires cfg.Valid() && Exec(cfg, steps).Some?
    ensures Inv(cfg, Exec(cfg, steps).value)
  {
    if steps == [] {
      InitInv(cfg);
    } else {
      var before := steps[..|steps| - 1];
      RunInv(cfg, before);
      StepInv(cfg, Exec(cfg, before).value, steps[|steps| - 1]);
    }
  }
}
