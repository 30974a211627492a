/** What keeps a v2 synchronisation going: in order responses keep the receiver's transfers tidy, and
    while a transfer waits, a status is due or on its way. */
module Ledger {
  import opened Varints
  import opened Ranges
  import opened Runs
  import opened Blocks
  import opened TransferCodec
  import opened TransferOuts
  import opened Sync
  import opened PartialBlocks
  import opened Frontier
  import opened SyncInvariant
  import opened SyncSteps
  import opened SyncResponses

  /** A status whose first range starts at a chunk of a live transfer. */
  ghost predicate AimsAtLive(ts: seq<Transfer>, u: seq<byte>) {
    && DecodeStatus(u).Some? && DecodeStatus(u).value != []
    && exists t :: t in ts && t.start <= DecodeStatus(u).value[0].from < t.end
  }

  ghost predicate SomeAims(ts: seq<Transfer>, statuses: set<seq<byte>>) {
    exists u :: u in statuses && AimsAtLive(ts, u)
  }

  /** While a transfer is live, a status is due or one is on its way that makes the sender send. */
  ghost predicate DueOk(p: Peer, due: nat, statuses: set<seq<byte>>) {
    p.conn.Some? && p.conn.value.transfers != [] && due == 0 ==> SomeAims(p.conn.value.transfers, statuses)
  }

  // ---------------------------------------------------------------- statuses aim at missing chunks

  lemma {:induction false} TwoFit(v: nat, w: nat, rest: seq<nat>)
    requires v < U64_LIMIT && w < U64_LIMIT
    ensures FitCount([v, w] + rest, MTU - 1) >= 2
  {
    U64Length(v);
    U64Length(w);
    var vs := [v, w] + rest;
    assert vs[1..] == [w] + rest && vs[1..][1..] == rest;
    assert FitCount(vs[1..], MTU - 1 - |Encode(v)|) >= 1;
  }

  /** The first range of a status always fits. */
  lemma {:induction false} FirstRangeFits(rs: seq<Range>)
    requires rs != [] && Ascending(Flat(rs), 0) && rs[0].to < U64_LIMIT && rs[0].from <= rs[0].to
    ensures RangesThatFit(rs) >= 1
  {
    var xs, rest := Flat(rs), Flat(rs[1..]);
    var from, to := rs[0].from, rs[0].to;
    assert xs[1..] == [to] + rest && xs[1..][1..] == rest;
    assert Deltas(xs, 0) == [from] + Deltas(xs[1..], from);
    assert Deltas(xs[1..], from) == [to - from] + Deltas(rest, to);
    assert Deltas(xs, 0) == [from, to - from] + Deltas(rest, to);
    TwoFit(from, to - from, Deltas(rest, to));
  }

  /** The first range of a status starts at a missing chunk of the first transfer. */
  lemma {:induction false} FirstMissing(ts: seq<Transfer>, blocks: Blocks)
    requires ts != [] && StatusRanges(ts, blocks).Some?
    requires IsPartial(blocks, ts[0].blockid) && !AllAvailable(blocks[ts[0].blockid].available)
    ensures var rs := StatusRanges(ts, blocks).value; rs != [] && IsMissing(blocks, ts[0], rs[0].from)
  {
    var bits, start := blocks[ts[0].blockid].available, ts[0].start;
    var k :| 0 <= k < |bits| && !bits[k];
    var own := ZeroRuns(bits, start);
    ZeroRunsCover(bits, start, start + k);
    ZeroRunsOrdered(bits, start);
    assert Covers(own, own[0].from);
    ZeroRunsCover(bits, start, own[0].from);
    assert StatusRanges(ts, blocks).value[0] == own[0];
  }

  /** What the sender reads of the receiver's status starts with a missing chunk. */
  lemma {:induction false} StatusAims(allocs: seq<Allocation>, next: nat, p: Peer)
    requires AllocationsOk(allocs, next) && next < U64_LIMIT && Honest(p.db.blocks) && p.conn.Some?
    requires TransfersOk(allocs, p.conn.value.transfers, p.db.blocks) && PartialsOk(p.db.blocks)
    requires Unfinished(p.db.blocks) && p.conn.value.transfers != [] && Tidy(p.conn.value.transfers, p.db.blocks)
    ensures MissingNow(p).Some? && Ascending(Flat(MissingNow(p).value), 0)
    ensures var r := DecodeStatus(StatusMessage(MissingNow(p).value));
            r.Some? && r.value != [] && IsMissing(p.db.blocks, p.conn.value.transfers[0], r.value[0].from)
  {
    PeerStatus(allocs, next, p);
    var rs := MissingNow(p).value;
    assert p.conn.value.transfers[0] in p.conn.value.transfers;
    FirstMissing(p.conn.value.transfers, p.db.blocks);
    StatusWire(rs);
    FirstRangeFits(rs);
  }

  lemma {:induction false} MissingInside(allocs: seq<Allocation>, next: nat, t: Transfer, blocks: Blocks, c: nat)
    requires AllocationsOk(allocs, next) && Allocation(t.start, t.end, t.blockid) in allocs
    requires IsMissing(blocks, t, c) && PartialOk(blocks[t.blockid]) && blocks[t.blockid].id == t.blockid
    ensures t.start <= c < t.end
  {
    UsedPart(allocs, next, Allocation(t.start, t.end, t.blockid));
  }

  lemma {:induction false} SentAims(allocs: seq<Allocation>, next: nat, p: Peer)
    requires AllocationsOk(allocs, next) && next < U64_LIMIT && Honest(p.db.blocks) && p.conn.Some?
    requires TransfersOk(allocs, p.conn.value.transfers, p.db.blocks) && PartialsOk(p.db.blocks)
    requires Unfinished(p.db.blocks) && p.conn.value.transfers != [] && Tidy(p.conn.value.transfers, p.db.blocks)
    ensures MissingNow(p).Some? && Ascending(Flat(MissingNow(p).value), 0)
    ensures AimsAtLive(p.conn.value.transfers, StatusMessage(MissingNow(p).value))
  {
    StatusAims(allocs, next, p);
    var t := p.conn.value.transfers[0];
    assert t in p.conn.value.transfers && IsPartial(p.db.blocks, t.blockid);
    var c := DecodeStatus(StatusMessage(MissingNow(p).value)).value[0].from;
    MissingInside(allocs, next, t, p.db.blocks, c);
  }

  // ---------------------------------------------------------------- tidy transfers

  lemma {:induction false} RemoveInOrder(ts: seq<Transfer>, t: Transfer)
    requires InOrder(ts)
    ensures InOrder(Remove(ts, t))
    ensures forall u :: u in Remove(ts, t) <==> u in ts && u != t
  {
    if ts != [] {
      var rest := ts[1..];
      assert forall u :: u in ts <==> u == ts[0] || u in rest;
      RemoveInOrder(rest, t);
      forall u | u in rest ensures u != ts[0] && ts[0].end <= u.start && u.blockid != ts[0].blockid {
        var i :| 0 <= i < |rest| && rest[i] == u;
        assert ts[i + 1] == u;
      }
      if ts[0] != t {
        PrependInOrder(ts[0], Remove(rest, t));
      }
    }
  }

  lemma {:induction false} PrependInOrder(t: Transfer, ts: seq<Transfer>)
    requires InOrder(ts) && forall u :: u in ts ==> t.end <= u.start && u.blockid != t.blockid
    ensures InOrder([t] + ts)
    ensures forall u :: u in [t] + ts <==> u == t || u in ts
  {
  }

  lemma {:induction false} PromotionTidy(ts: seq<Transfer>, blocks: Blocks, t: Transfer, b: Block)
    requires Tidy(ts, blocks) && t in ts && b.Full? && b.id == t.blockid
    ensures Tidy(Remove(ts, t), blocks[b.id := b])
  {
    RemoveInOrder(ts, t);
    forall u | u in Remove(ts, t) ensures IsPartial(blocks[b.id := b], u.blockid) {
      var i :| 0 <= i < |ts| && ts[i] == t;
      var j :| 0 <= j < |ts| && ts[j] == u;
      assert ts[i].blockid != ts[j].blockid;
    }
  }

  lemma {:induction false} StoredTidy(p: Peer, t: Transfer, b: Block)
    requires p.conn.Some? && Tidy(p.conn.value.transfers, p.db.blocks) && t in p.conn.value.transfers
    requires b.Partial? && b.id == t.blockid && OnStored(p, t, b).Some?
    ensures TidyPeer(OnStored(p, t, b).value)
  {
    if AllAvailable(b.available) {
      PromotionTidy(p.conn.value.transfers, p.db.blocks, t, Full(t.blockid, b.data));
      PromotedTransfers(Promote(p, t, b.data), t.blockid);
    }
  }

  lemma {:induction false} PromotedTransfers(p: Peer, id: BlockId)
    requires p.conn.Some? && OnPromoted(p, id).Some?
    ensures var p' := OnPromoted(p, id).value;
            && p'.db.blocks == p.db.blocks
            && (p'.conn.Some? ==> p'.conn.value.transfers == p.conn.value.transfers)
  {
  }

  lemma {:induction false} PayloadTidy(p: Peer, m: Msg)
    requires TidyPeer(p) && Honest(p.db.blocks) && OnPayload(p, m.chunkid, m.data).Some?
    ensures TidyPeer(OnPayload(p, m.chunkid, m.data).value)
  {
    if p.conn.Some? {
      var t := FindTransfer(p.conn.value.transfers, m.chunkid).value;
      var b := StoreChunk(p.db.blocks[t.blockid], m.chunkid - t.start, m.data).value;
      PayloadUnfold(p, m, t);
      StoredTidy(p, t, b);
    }
  }

  lemma {:induction false} ArrivedTidy(cfg: Config, s: State, res: Response)
    requires Inv(cfg, s) && TidyPeer(s.peer) && res in s.responses && ResponseInOrder(s.peer, res)
    ensures TidyPeer(OnResponse(s.peer, res))
  {
    if s.peer.conn.Some? {
      RequestedOnce(cfg, s, res);
      TidyResponse(s.out.transfers, s.peer, res);
    }
  }

  lemma {:induction false} TidyStep(cfg: Config, s: State, step: Step)
    requires Inv(cfg, s) && TidyPeer(s.peer) && Apply(cfg, s, step).Some? && InOrderStep(s, step)
    ensures TidyPeer(Apply(cfg, s, step).value.peer)
  {
    match step
    case ResponseArrives(res) => ArrivedTidy(cfg, s, res);
    case PayloadArrives(m) => PayloadTidy(s.peer, m);
    case _ => OtherTidy(cfg, s, step);
  }

  lemma {:induction false} OtherTidy(cfg: Config, s: State, step: Step)
    requires TidyPeer(s.peer) && Apply(cfg, s, step).Some? && !step.ResponseArrives? && !step.PayloadArrives?
    ensures TidyPeer(Apply(cfg, s, step).value.peer)
  {
  }

  /** When every response comes once and in order, the receiver can always say what it lacks. */
  lemma {:induction false} TidyRun(cfg: Config, steps: seq<Step>)
    requires cfg.Valid() && Exec(cfg, steps).Some? && InOrderRun(cfg, steps)
    ensures TidyPeer(Exec(cfg, steps).value.peer) && CanTell(Exec(cfg, steps).value.peer)
  {
    if steps != [] {
      var before := steps[..|steps| - 1];
      TidyRun(cfg, before);
      RunInv(cfg, before);
      TidyStep(cfg, Exec(cfg, before).value, steps[|steps| - 1]);
    }
    CanTellIff(cfg, steps);
  }

  // ---------------------------------------------------------------- statuses due

  lemma {:induction false} SentDue(cfg: Config, s: State)
    requires Inv(cfg, s) && DueOk(s.peer, s.due, s.statuses) && s.due > 0 && CanTell(s.peer)
    ensures Apply(cfg, s, StatusSent).Some?
    ensures var s' := Apply(cfg, s, StatusSent).value; DueOk(s'.peer, s'.due, s'.statuses)
  {
    StatusUnfold(cfg, s, MissingNow(s.peer).value);
    if s.peer.conn.Some? && s.peer.conn.value.transfers != [] {
      CanTellIffTidy(cfg, s.out, s.peer);
      SentAims(s.out.transfers, s.out.next, s.peer);
    }
  }

  lemma {:induction false} MoreTransfers(ts: seq<Transfer>, t: Transfer, statuses: set<seq<byte>>)
    requires SomeAims(ts, statuses)
    ensures SomeAims(ts + [t], statuses)
  {
    var u :| u in statuses && AimsAtLive(ts, u);
    var x :| x in ts && x.start <= DecodeStatus(u).value[0].from < x.end;
    assert x in ts + [t];
  }

  lemma {:induction false} ResponseDue(s: State, res: Response)
    requires DueOk(s.peer, s.due, s.statuses)
    ensures var p := OnResponse(s.peer, res);
            DueOk(p, s.due + if FirstTransfer(p) then 1 else 0, s.statuses)
  {
    if s.peer.conn.Some? {
      var ts, t := s.peer.conn.value.transfers, Transfer(res.blockid, res.start, res.end);
      if ts != [] && s.due == 0 {
        MoreTransfers(ts, t, s.statuses);
      }
    }
  }

  lemma {:induction false} PayloadDue(cfg: Config, s: State, m: Msg)
    requires DueOk(s.peer, s.due, s.statuses) && Apply(cfg, s, PayloadArrives(m)).Some?
    ensures var s' := Apply(cfg, s, PayloadArrives(m)).value; DueOk(s'.peer, s'.due, s'.statuses)
  {
    PayloadUnfolds(cfg, s, m);
  }

  lemma {:induction false} DueStep(cfg: Config, s: State, step: Step)
    requires Inv(cfg, s) && DueOk(s.peer, s.due, s.statuses) && Apply(cfg, s, step).Some?
    ensures var s' := Apply(cfg, s, step).value; DueOk(s'.peer, s'.due, s'.statuses)
  {
    match step
    case ResponseArrives(res) => ResponseDue(s, res);
    case StatusSent => SentDue(cfg, s);
    case PayloadArrives(m) => PayloadDue(cfg, s, m);
    case _ => OtherDue(cfg, s, step);
  }

  lemma {:induction false} OtherDue(cfg: Config, s: State, step: Step)
    requires DueOk(s.peer, s.due, s.statuses) && Apply(cfg, s, step).Some?
    requires !step.ResponseArrives? && !step.StatusSent? && !step.PayloadArrives?
    ensures var s' := Apply(cfg, s, step).value; DueOk(s'.peer, s'.due, s'.statuses)
  {
  }

  /** In every run: while a transfer is live, a status is due or on its way. */
  lemma {:induction false} DueRun(cfg: Config, steps: seq<Step>)
    requires cfg.Valid() && Exec(cfg, steps).Some?
    ensures var s := Exec(cfg, steps).value; DueOk(s.peer, s.due, s.statuses)
  {
    if steps != [] {
      var before := steps[..|steps| - 1];
      DueRun(cfg, before);
      RunInv(cfg, before);
      DueStep(cfg, Exec(cfg, before).value, steps[|steps| - 1]);
    }
  }
}
