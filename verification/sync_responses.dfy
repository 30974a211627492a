/** When the receiver can say what it lacks: exactly while its transfers are tidy, which exactly those
    responses keep that come once and in order. */
module SyncResponses {
  import opened Ranges
  import opened Runs
  import opened Blocks
  import opened TransferCodec
  import opened TransferOuts
  import opened Sync
  import opened Frontier
  import opened SyncInvariant
  import opened SyncSteps

  ghost predicate Apart(rs: seq<Range>) {
    forall i, j :: 0 <= i < j < |rs| ==> rs[i].to <= rs[j].from
  }

  lemma {:induction false} AscendingIsApart(rs: seq<Range>)
    requires Ascending(Flat(rs), 0)
    ensures Apart(rs)
  {
    forall i, j | 0 <= i < j < |rs| ensures rs[i].to <= rs[j].from {
      AscendingAt(rs, 0, i, j);
    }
  }

  lemma {:induction false} CoveredApart(a: seq<Range>, b: seq<Range>, x: nat, y: nat)
    requires Apart(a + b) && Covers(a, x) && Covers(b, y)
    ensures x < y
  {
    var i :| 0 <= i < |a| && a[i].from <= x < a[i].to;
    var j :| 0 <= j < |b| && b[j].from <= y < b[j].to;
    assert (a + b)[i] == a[i] && (a + b)[|a| + j] == b[j];
  }

  lemma {:induction false} ApartSuffix(a: seq<Range>, b: seq<Range>)
    requires Apart(a + b)
    ensures Apart(b)
  {
    forall i, j | 0 <= i < j < |b| ensures b[i].to <= b[j].from {
      assert (a + b)[|a| + i] == b[i] && (a + b)[|a| + j] == b[j];
    }
  }

  /** In a status that can be encoded, what an earlier transfer lacks comes before what a later one
      lacks. */
  lemma {:induction false} MissingAscends(ts: seq<Transfer>, blocks: Blocks, i: nat, j: nat, x: nat, y: nat)
    requires StatusRanges(ts, blocks).Some? && Apart(StatusRanges(ts, blocks).value)
    requires i < j < |ts| && IsMissing(blocks, ts[i], x) && IsMissing(blocks, ts[j], y)
    ensures x < y
  {
    var rest := ts[1..];
    var a, b := ZeroRuns(blocks[ts[0].blockid].available, ts[0].start), StatusRanges(rest, blocks).value;
    if i > 0 {
      ApartSuffix(a, b);
      MissingAscends(rest, blocks, i - 1, j - 1, x, y);
    } else {
      ZeroRunsCover(blocks[ts[0].blockid].available, ts[0].start, x);
      StatusRangesExact(rest, blocks, y);
      assert rest[j - 1] in rest && IsMissing(blocks, rest[j - 1], y);
      CoveredApart(a, b, x, y);
    }
  }

  lemma {:induction false} FullBreaksStatus(ts: seq<Transfer>, blocks: Blocks, t: Transfer)
    requires t in ts && !IsPartial(blocks, t.blockid)
    ensures StatusRanges(ts, blocks).None?
  {
    if ts[0] != t {
      FullBreaksStatus(ts[1..], blocks, t);
    }
  }

  lemma {:induction false} LacksSome(blocks: Blocks, t: Transfer) returns (x: nat)
    requires IsPartial(blocks, t.blockid) && !AllAvailable(blocks[t.blockid].available)
    ensures IsMissing(blocks, t, x)
  {
    var k :| 0 <= k < |blocks[t.blockid].available| && !blocks[t.blockid].available[k];
    x := t.start + k;
  }

  /** Two transfers out of order, or the same one twice, make the status impossible. */
  lemma {:induction false} DisorderBreaksStatus(ts: seq<Transfer>, blocks: Blocks, i: nat, j: nat, x: nat, y: nat)
    requires i < j < |ts| && IsMissing(blocks, ts[i], x) && IsMissing(blocks, ts[j], y) && y <= x
    ensures StatusRanges(ts, blocks).Some? ==> !Ascending(Flat(StatusRanges(ts, blocks).value), 0)
  {
    var r := StatusRanges(ts, blocks);
    if r.Some? && Ascending(Flat(r.value), 0) {
      AscendingIsApart(r.value);
      MissingAscends(ts, blocks, i, j, x, y);
    }
  }

  lemma {:induction false} SameAllocation(allocs: seq<Allocation>, next: nat, a: Allocation, b: Allocation)
    requires AllocationsOk(allocs, next) && a in allocs && b in allocs && a.id == b.id
    ensures a == b
  {
    var i :| 0 <= i < |allocs| && allocs[i] == a;
    var j :| 0 <= j < |allocs| && allocs[j] == b;
  }

  lemma {:induction false} AllocationsApart(allocs: seq<Allocation>, next: nat, a: Allocation, b: Allocation)
    requires AllocationsOk(allocs, next) && a in allocs && b in allocs && a.id != b.id
    ensures a.to <= b.from || b.to <= a.from
  {
    var i :| 0 <= i < |allocs| && allocs[i] == a;
    var j :| 0 <= j < |allocs| && allocs[j] == b;
  }

  /** Two transfers that share ids, or that come in the wrong order, with what they lack. */
  lemma {:induction false} Disorder(
      allocs: seq<Allocation>, next: nat, ts: seq<Transfer>, blocks: Blocks, i: nat, j: nat)
    requires AllocationsOk(allocs, next) && TransfersOk(allocs, ts, blocks) && PartialsOk(blocks) && Honest(blocks)
    requires Unfinished(blocks) && i < j < |ts|
    requires IsPartial(blocks, ts[i].blockid) && IsPartial(blocks, ts[j].blockid)
    requires ts[i].end > ts[j].start || ts[i].blockid == ts[j].blockid
    ensures StatusRanges(ts, blocks).Some? ==> !Ascending(Flat(StatusRanges(ts, blocks).value), 0)
  {
    var t, u := ts[i], ts[j];
    var a, b := Allocation(t.start, t.end, t.blockid), Allocation(u.start, u.end, u.blockid);
    assert t in ts && u in ts;
    var x := LacksSome(blocks, t);
    if t.blockid == u.blockid {
      SameAllocation(allocs, next, a, b);
      DisorderBreaksStatus(ts, blocks, i, j, x, x);
    } else {
      var y := LacksSome(blocks, u);
      AllocationsApart(allocs, next, a, b);
      UsedPart(allocs, next, b);
      DisorderBreaksStatus(ts, blocks, i, j, x, y);
    }
  }

  ghost predicate TidyPeer(p: Peer) { p.conn.Some? ==> Tidy(p.conn.value.transfers, p.db.blocks) }

  /** The next status can be made if and only if the transfers are tidy. */
  lemma {:induction false} CanTellIffTidy(cfg: Config, out: Out, p: Peer)
    requires SenderOk(cfg, out) && PeerOk(cfg, out.transfers, p)
    ensures CanTell(p) <==> TidyPeer(p)
  {
    if TidyPeer(p) {
      PeerStatus(out.transfers, out.next, p);
      StatusSentOk(out.transfers, out.next, MissingNow(p).value);
    } else {
      UntidyBreaks(out.transfers, out.next, p.conn.value.transfers, p.db.blocks);
    }
  }

  lemma {:induction false} UntidyBreaks(allocs: seq<Allocation>, next: nat, ts: seq<Transfer>, blocks: Blocks)
    requires AllocationsOk(allocs, next) && TransfersOk(allocs, ts, blocks) && PartialsOk(blocks) && Honest(blocks)
    requires Unfinished(blocks) && !Tidy(ts, blocks)
    ensures StatusRanges(ts, blocks).Some? ==> !Ascending(Flat(StatusRanges(ts, blocks).value), 0)
  {
    if t :| t in ts && !IsPartial(blocks, t.blockid) {
      FullBreaksStatus(ts, blocks, t);
    } else {
      var i, j :| 0 <= i < j < |ts| && !(ts[i].end <= ts[j].start && ts[i].blockid != ts[j].blockid);
      assert ts[i] in ts && ts[j] in ts;
      Disorder(allocs, next, ts, blocks, i, j);
    }
  }

  /** A response keeps transfers tidy if and only if it comes once and in order. */
  lemma {:induction false} TidyResponse(allocs: seq<Allocation>, p: Peer, res: Response)
    requires p.conn.Some? && TransfersOk(allocs, p.conn.value.transfers, p.db.blocks)
    requires (res.blockid in p.conn.value.pending) != (res.blockid in p.db.blocks)
    ensures TidyPeer(OnResponse(p, res)) <==> TidyPeer(p) && ResponseInOrder(p, res)
  {
    var ts, blocks, t := p.conn.value.transfers, p.db.blocks, Transfer(res.blockid, res.start, res.end);
    var more, blocks' := ts + [t], OnResponse(p, res).db.blocks;
    assert more[|ts|] == t && t in more;
    assert forall u :: u in ts ==> (IsPartial(blocks', u.blockid) <==> IsPartial(blocks, u.blockid));
    if TidyPeer(OnResponse(p, res)) {
      AppendedInOrder(ts, t);
      assert forall u :: u in ts ==> u in more;
      assert !HasTransfer(ts, res.blockid);
    }
    if TidyPeer(p) && ResponseInOrder(p, res) {
      AppendInOrder(ts, t);
    }
  }

  lemma {:induction false} AppendedInOrder(ts: seq<Transfer>, t: Transfer)
    requires InOrder(ts + [t])
    ensures InOrder(ts) && forall u :: u in ts ==> u.end <= t.start && u.blockid != t.blockid
  {
    var more := ts + [t];
    assert more[|ts|] == t && forall i :: 0 <= i < |ts| ==> more[i] == ts[i];
  }

  lemma {:induction false} AppendInOrder(ts: seq<Transfer>, t: Transfer)
    requires InOrder(ts) && forall u :: u in ts ==> u.end <= t.start && u.blockid != t.blockid
    ensures InOrder(ts + [t])
  {
    assert forall i :: 0 <= i < |ts| ==> ts[i] in ts;
  }

  /** In every run: the receiver can say what it lacks exactly while its transfers are those of its
      partial blocks, one to one, in the order of their ids. */
  lemma {:induction false} CanTellIff(cfg: Config, steps: seq<Step>)
    requires cfg.Valid() && Exec(cfg, steps).Some?
    ensures CanTell(Exec(cfg, steps).value.peer) <==> TidyPeer(Exec(cfg, steps).value.peer)
  {
    RunInv(cfg, steps);
    CanTellIffTidy(cfg, Exec(cfg, steps).value.out, Exec(cfg, steps).value.peer);
  }

  lemma {:induction false} RequestedOnce(cfg: Config, s: State, res: Response)
    requires Inv(cfg, s) && s.peer.conn.Some? && res in s.responses
    ensures (res.blockid in s.peer.conn.value.pending) != (res.blockid in s.peer.db.blocks)
  {
  }

  /** In every run, on an open connection, whatever came before: after a response the receiver can say
      what it lacks if and only if it could before and the response comes while its request is pending
      and not after a live transfer with larger ids. */
  lemma {:induction false} StatusAfterResponseIff(cfg: Config, steps: seq<Step>, res: Response)
    requires cfg.Valid() && Exec(cfg, steps).Some? && Exec(cfg, steps).value.peer.conn.Some?
    requires res in Exec(cfg, steps).value.responses
    ensures var p := Exec(cfg, steps).value.peer;
            CanTell(OnResponse(p, res)) <==> CanTell(p) && ResponseInOrder(p, res)
  {
    RunInv(cfg, steps);
    var s := Exec(cfg, steps).value;
    RequestedOnce(cfg, s, res);
    ResponseKeepsPeer(cfg, s.out.transfers, s.peer, res);
    TidyResponse(s.out.transfers, s.peer, res);
    CanTellIffTidy(cfg, s.out, s.peer);
    CanTellIffTidy(cfg, s.out, OnResponse(s.peer, res));
  }
}
