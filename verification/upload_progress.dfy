/** From which states a v1 upload can still be completed. */
module UploadProgress {
  import opened Varints
  import opened Ranges
  import opened BitMaps
  import opened StatusUpdates
  import opened Geometry
  import opened Congestion
  import opened Upload
  import opened UploadTheorems

  ghost function After(cfg: Config, steps: seq<Step>): State
    requires Exec(cfg, steps).Some?
  {
    Exec(cfg, steps).value
  }

  /** A clean run that does not panic. */
  ghost predicate Runs(cfg: Config, steps: seq<Step>) {
    cfg.Valid() && Exec(cfg, steps).Some? && CleanRun(cfg, steps)
  }

  lemma {:induction false} Take(cfg: Config, steps: seq<Step>, step: Step)
    requires Runs(cfg, steps) && Apply(cfg, After(cfg, steps), step).Some? && Clean(cfg, After(cfg, steps), step)
    ensures Runs(cfg, steps + [step])
    ensures Exec(cfg, steps + [step]) == Apply(cfg, After(cfg, steps), step)
    ensures Inv(cfg, After(cfg, steps + [step]))
  {
    assert (steps + [step])[..|steps|] == steps;
    RunInv(cfg, steps + [step]);
  }

  /** A gap after which the average cannot underflow. */
  const GAP: nat := 130

  // ---------------------------------------------------------------- single moves

  /** A write in progress can complete. */
  lemma {:induction false} CompleteWrite(cfg: Config, steps: seq<Step>) returns (run: seq<Step>)
    requires Runs(cfg, steps) && After(cfg, steps).server.phase.Writing?
    ensures steps <= run && Runs(cfg, run)
    ensures var s, t := After(cfg, steps), After(cfg, run);
            && t.server.phase.Waiting? && t.server.meter == s.server.meter && t.toServer == s.toServer
            && s.server.phase.index < |s.server.bits|
            && t.server.bits == s.server.bits[s.server.phase.index := true]
            && ZeroCount(t.server.bits) == ZeroCount(s.server.bits) - 1
  {
    RunInv(cfg, steps);
    var s := After(cfg, steps);
    var k := |s.server.phase.payload| - s.server.phase.done;
    Take(cfg, steps, ServerWrite(k));
    var mid := steps + [ServerWrite(k)];
    Take(cfg, mid, ServerFinish);
    ZeroCountUpdate(s.server.bits, s.server.phase.index, true);
    run := mid + [ServerFinish];
  }

  lemma {:induction false} ReceiveUnfold(cfg: Config, s: State, u: seq<byte>)
    requires !s.client.finished && u in s.toClient && OnStatus(s.client, u).Some?
    ensures Apply(cfg, s, ClientReceive(u)).Some?
    ensures var t := Apply(cfg, s, ClientReceive(u)).value;
            t.server == s.server && t.client == OnStatus(s.client, u).value && t.toClient == s.toClient
  {
  }

  /** An update in flight can reach the client. */
  lemma {:induction false} DeliverUpdate(cfg: Config, steps: seq<Step>, u: seq<byte>) returns (run: seq<Step>)
    requires Runs(cfg, steps) && !After(cfg, steps).client.finished && u in After(cfg, steps).toClient
    ensures steps <= run && Runs(cfg, run)
    ensures var s, t := After(cfg, steps), After(cfg, run);
            t.server == s.server && OnStatus(s.client, u) == Some(t.client)
  {
    RunInv(cfg, steps);
    var s := After(cfg, steps);
    OnStatusInv(cfg, s.client, s.server.bits, u);
    ReceiveUnfold(cfg, s, u);
    Take(cfg, steps, ClientReceive(u));
    run := steps + [ClientReceive(u)];
  }

  lemma {:induction false} SendUnfold(cfg: Config, s: State)
    requires MaySend(s.server)
    ensures Apply(cfg, s, SendStatus).Some?
    ensures var t := Apply(cfg, s, SendStatus).value;
            && t.client == s.client && StatusBytes(s.server.bits, MTU) in t.toClient
            && t.server == s.server.(due := t.server.due)
  {
  }

  /** When the server may send, the client can be told the current bitmap. */
  lemma {:induction false} DeliverStatus(cfg: Config, steps: seq<Step>) returns (run: seq<Step>)
    requires Runs(cfg, steps) && !After(cfg, steps).client.finished && MaySend(After(cfg, steps).server)
    ensures steps <= run && Runs(cfg, run)
    ensures var s, t := After(cfg, steps), After(cfg, run);
            && t.server == s.server.(due := t.server.due)
            && OnStatus(s.client, StatusBytes(s.server.bits, MTU)) == Some(t.client)
  {
    var s := After(cfg, steps);
    SendUnfold(cfg, s);
    Take(cfg, steps, SendStatus);
    run := DeliverUpdate(cfg, steps + [SendStatus], StatusBytes(s.server.bits, MTU));
  }

  lemma {:induction false} ClientSendUnfold(cfg: Config, s: State, i: nat)
    requires !s.client.finished && s.client.sending == Some(i) && End(cfg.info, i) <= |cfg.src|
    ensures Apply(cfg, s, ClientSend).Some?
    ensures var t := Apply(cfg, s, ClientSend).value;
            && t.server == s.server && t.client == DoChunk(s.client)
            && ChunkPacket(cfg.info, cfg.src, i) in t.toServer
  {
  }

  /** The chunk that the client is at can be sent. */
  lemma {:induction false} SendChunk(cfg: Config, steps: seq<Step>, i: nat) returns (run: seq<Step>)
    requires Runs(cfg, steps) && !After(cfg, steps).client.finished && After(cfg, steps).client.sending == Some(i)
    ensures steps <= run && Runs(cfg, run)
    ensures i < cfg.info.numChunks && End(cfg.info, i) <= |cfg.src|
    ensures var s, t := After(cfg, steps), After(cfg, run);
            t.server == s.server && t.client == DoChunk(s.client) && ChunkPacket(cfg.info, cfg.src, i) in t.toServer
  {
    RunInv(cfg, steps);
    RegionInFile(cfg.info, |cfg.src|, i);
    ClientSendUnfold(cfg, After(cfg, steps), i);
    Take(cfg, steps, ClientSend);
    run := steps + [ClientSend];
  }

  lemma {:induction false} ArriveUnfold(cfg: Config, s: State, p: seq<byte>, gap: nat)
    requires p in s.toServer && !s.server.phase.Writing? && |s.server.bits| == cfg.info.numChunks
    requires Receive(cfg.info, s.server, p, gap).Some?
    ensures Apply(cfg, s, ServerReceive(p, gap))
         == Some(s.(server := Receive(cfg.info, s.server, p, gap).value))
  {
  }

  /** A Login that is a chunk of the source does no harm. */
  lemma {:induction false} ChunkIsClean(cfg: Config, s: State, i: nat, gap: nat)
    requires cfg.Valid() && i < cfg.info.numChunks && End(cfg.info, i) <= |cfg.src|
    ensures Clean(cfg, s, ServerReceive(ChunkPacket(cfg.info, cfg.src, i), gap))
  {
    var p := ChunkPacket(cfg.info, cfg.src, i);
    if p == cfg.LoginPacket() {
      DecodeKnown(cfg, i, cfg.src[Start(cfg.info, i)..End(cfg.info, i)]);
      LoginDecodes(cfg);
    }
  }

  lemma {:induction false} TickedSafely(m: Meter)
    requires MeterOk(m) && Tick(m, GAP).Some?
    ensures var m' := Tick(m, GAP).value; !Stuck(m') && m'.started && (m.started ==> m'.avg.gaps != [])
  {
    if m.started {
      LongGapIsSafe(m.avg, GAP);
    } else {
      assert m.avg.gaps == [];
    }
  }

  /** A chunk in flight can arrive after any gap, unless the average underflows: a new one is then
      being written, another one ignored. */
  lemma {:induction false} ArriveAfter(cfg: Config, steps: seq<Step>, i: nat, gap: nat) returns (run: seq<Step>)
    requires Runs(cfg, steps) && i < cfg.info.numChunks && End(cfg.info, i) <= |cfg.src|
    requires ChunkPacket(cfg.info, cfg.src, i) in After(cfg, steps).toServer
    requires After(cfg, steps).server.phase.Waiting? && !Stuck(After(cfg, steps).server.meter)
    ensures steps <= run && Runs(cfg, run)
    ensures var s, t := After(cfg, steps), After(cfg, run);
            && |s.server.bits| == cfg.info.numChunks && t.server.bits == s.server.bits && t.toServer == s.toServer
            && Tick(s.server.meter, gap) == Some(t.server.meter) && MeterOk(s.server.meter)
            && (if s.server.bits[i] then t.server.phase.Waiting?
                else t.server.phase.Writing? && t.server.phase.index == i)
  {
    RunInv(cfg, steps);
    var s := After(cfg, steps);
    var p := ChunkPacket(cfg.info, cfg.src, i);
    DecodeKnown(cfg, i, cfg.src[Start(cfg.info, i)..End(cfg.info, i)]);
    ReceiveChunk(cfg, s.server, p, gap, i);
    TickPanicsIff(s.server.meter, gap);
    ArriveUnfold(cfg, s, p, gap);
    ChunkIsClean(cfg, s, i, gap);
    Take(cfg, steps, ServerReceive(p, gap));
    run := steps + [ServerReceive(p, gap)];
  }

  /** After a long gap the next chunk can arrive, too. */
  lemma {:induction false} Arrive(cfg: Config, steps: seq<Step>, i: nat) returns (run: seq<Step>)
    requires Runs(cfg, steps) && i < cfg.info.numChunks && End(cfg.info, i) <= |cfg.src|
    requires ChunkPacket(cfg.info, cfg.src, i) in After(cfg, steps).toServer
    requires After(cfg, steps).server.phase.Waiting? && !Stuck(After(cfg, steps).server.meter)
    ensures steps <= run && Runs(cfg, run)
    ensures var s, t := After(cfg, steps), After(cfg, run);
            && |s.server.bits| == cfg.info.numChunks && t.server.bits == s.server.bits && !Stuck(t.server.meter)
            && t.server.meter.started && (s.server.meter.started ==> t.server.meter.avg.gaps != [])
            && (if s.server.bits[i] then t.server.phase.Waiting? else t.server.phase.Writing?)
  {
    run := ArriveAfter(cfg, steps, i, GAP);
    TickedSafely(After(cfg, steps).server.meter);
  }

  // ---------------------------------------------------------------- a chunk is delivered

  lemma {:induction false} StillSending(cfg: Config, s: State)
    requires cfg.Valid() && Inv(cfg, s) && !All(s.server.bits)
    ensures !s.client.finished
  {
  }

  /** What a client that had nothing to send, or has sent what it was at, is at after an update. */
  lemma {:induction false} AimsAtMissing(cfg: Config, bits: seq<bool>)
    requires cfg.Valid() && |bits| == cfg.info.numChunks && !All(bits)
    ensures var rs := DecodeRanges(StatusBytes(bits, MTU));
            && rs.Some? && rs.value != [] && NextMissing(rs.value, 0).Some?
            && NextMissing(rs.value, 0).value < |bits| && !bits[NextMissing(rs.value, 0).value]
  {
    InfoBounds(cfg);
    StatusEmptyIffComplete(bits, MTU);
    DecodedIsOrdered(bits, MTU);
    var rs := DecodeRanges(StatusBytes(bits, MTU)).value;
    NextIsLeast(rs, 0);
    assert Covers(rs, rs[0].from);
    ReportedIsMissing(bits, MTU, NextMissing(rs, 0).value);
  }

  /** With chunks missing, a server that may send can bring the client to one of them. */
  lemma {:induction false} AimAtMissing(cfg: Config, steps: seq<Step>) returns (run: seq<Step>)
    requires Runs(cfg, steps) && !All(After(cfg, steps).server.bits) && MaySend(After(cfg, steps).server)
    ensures steps <= run && Runs(cfg, run)
    ensures var s, t := After(cfg, steps), After(cfg, run);
            && t.server == s.server.(due := t.server.due) && !t.client.finished && t.client.sending.Some?
            && t.client.sending.value < |s.server.bits| && !s.server.bits[t.client.sending.value]
  {
    RunInv(cfg, steps);
    var s := After(cfg, steps);
    StillSending(cfg, s);
    AimsAtMissing(cfg, s.server.bits);
    run := DeliverStatus(cfg, steps);
    if s.client.sending.Some? {
      run := SendChunk(cfg, run, s.client.sending.value);
    }
  }

  /** With chunks missing, a server that may send can receive one of them. */
  lemma {:induction false} FetchChunk(cfg: Config, steps: seq<Step>) returns (run: seq<Step>)
    requires Runs(cfg, steps) && !All(After(cfg, steps).server.bits) && MaySend(After(cfg, steps).server)
    requires After(cfg, steps).server.phase.Waiting? && !Stuck(After(cfg, steps).server.meter)
    ensures steps <= run && Runs(cfg, run)
    ensures var s, t := After(cfg, steps), After(cfg, run);
            t.server.bits == s.server.bits && t.server.phase.Writing? && !Stuck(t.server.meter)
  {
    var aimed := AimAtMissing(cfg, steps);
    var i := After(cfg, aimed).client.sending.value;
    var sent := SendChunk(cfg, aimed, i);
    run := Arrive(cfg, sent, i);
  }

  // ---------------------------------------------------------------- the first two packets

  lemma {:induction false} OldUpdate(cfg: Config, bits: seq<bool>, u: seq<byte>)
    requires cfg.Valid() && |bits| == cfg.info.numChunks && !All(bits) && KnownUpdate(bits, u)
    ensures DecodeRanges(u).Some? && DecodeRanges(u).value != [] && NextMissing(DecodeRanges(u).value, 0).Some?
  {
    var b :| Below(b, bits) && u == StatusBytes(b, MTU);
    assert !All(b);
    AimsAtMissing(cfg, b);
  }

  /** A server that may not send yet can still be brought some chunk: an update is on its way to the
      client, and any chunk starts the clock or adds the first gap. */
  lemma {:induction false} Nudge(cfg: Config, steps: seq<Step>) returns (run: seq<Step>)
    requires Runs(cfg, steps) && !All(After(cfg, steps).server.bits) && !MaySend(After(cfg, steps).server)
    requires After(cfg, steps).server.phase.Waiting?
    ensures steps <= run && Runs(cfg, run)
    ensures var s, t := After(cfg, steps), After(cfg, run);
            && t.server.bits == s.server.bits && !t.server.phase.Shutdown? && !Stuck(t.server.meter)
            && t.server.meter.started && (s.server.meter.started ==> t.server.meter.avg.gaps != [])
  {
    RunInv(cfg, steps);
    var s := After(cfg, steps);
    StillSending(cfg, s);
    var told := steps;
    if s.client.sending.None? {
      var u :| u in s.toClient;
      OldUpdate(cfg, s.server.bits, u);
      told := DeliverUpdate(cfg, steps, u);
    }
    var i := After(cfg, told).client.sending.value;
    var sent := SendChunk(cfg, told, i);
    run := Arrive(cfg, sent, i);
  }

  // ---------------------------------------------------------------- the whole upload

  /** With a full bitmap, the FIN can be sent and arrive. */
  lemma {:induction false} Finish(cfg: Config, steps: seq<Step>) returns (run: seq<Step>)
    requires Runs(cfg, steps) && All(After(cfg, steps).server.bits) && After(cfg, steps).server.phase.Waiting?
    ensures steps <= run && Runs(cfg, run) && After(cfg, run).server.phase.Shutdown?
  {
    RunInv(cfg, steps);
    var s := After(cfg, steps);
    var told := steps;
    if !s.client.finished {
      InfoBounds(cfg);
      StatusEmptyIffComplete(s.server.bits, MTU);
      if s.server.due > 0 {
        told := DeliverStatus(cfg, steps);
      } else {
        told := DeliverUpdate(cfg, steps, StatusBytes(s.server.bits, MTU));
      }
    }
    run := ArriveFin(cfg, told);
  }

  lemma {:induction false} ArriveFin(cfg: Config, steps: seq<Step>) returns (run: seq<Step>)
    requires Runs(cfg, steps) && After(cfg, steps).client.finished && After(cfg, steps).server.phase.Waiting?
    ensures steps <= run && Runs(cfg, run) && After(cfg, run).server.phase.Shutdown?
  {
    RunInv(cfg, steps);
    var s, fin := After(cfg, steps), FinPacket(cfg.info);
    assert fin + [] == fin;
    DecodeKnown(cfg, cfg.info.numChunks, []);
    ReceiveFin(cfg, s.server, fin, 0);
    ArriveUnfold(cfg, s, fin, 0);
    LoginDecodes(cfg);
    Take(cfg, steps, ServerReceive(fin, 0));
    run := steps + [ServerReceive(fin, 0)];
  }

  /** Nothing is missing once the write in progress is complete. */
  predicate Covered(sv: Server) {
    forall i :: 0 <= i < |sv.bits| ==> sv.bits[i] || (sv.phase.Writing? && i == sv.phase.index)
  }

  /** The upload is over, needs no more chunks, or can take another one. */
  predicate Open(sv: Server) { sv.phase.Shutdown? || Covered(sv) || !Stuck(sv.meter) }

  function PacketsToTimer(m: Meter): nat { if m.avg.gaps != [] then 0 else if m.started then 1 else 2 }

  lemma {:induction false} CompleteStaysOpen(cfg: Config, steps: seq<Step>) returns (run: seq<Step>)
    requires Runs(cfg, steps) && After(cfg, steps).server.phase.Writing? && Open(After(cfg, steps).server)
    ensures steps <= run && Runs(cfg, run) && Open(After(cfg, run).server)
    ensures ZeroCount(After(cfg, run).server.bits) < ZeroCount(After(cfg, steps).server.bits)
  {
    RunInv(cfg, steps);
    var s := After(cfg, steps);
    run := CompleteWrite(cfg, steps);
    RunInv(cfg, run);
    if Covered(s.server) {
      OneZero(s.server.bits, s.server.phase.index);
      ZeroCountNone(After(cfg, run).server.bits);
    }
  }

  lemma {:induction false} OneZero(bits: seq<bool>, k: nat)
    requires k < |bits| && !bits[k] && forall i :: 0 <= i < |bits| ==> bits[i] || i == k
    ensures ZeroCount(bits) == 1
  {
    ZeroCountUpdate(bits, k, true);
    ZeroCountNone(bits[k := true]);
  }

  /** From an open state the upload can be completed, in spite of all that was lost, repeated or
      reordered before. */
  lemma {:induction false} CanFinish(cfg: Config, steps: seq<Step>) returns (run: seq<Step>)
    requires Runs(cfg, steps) && Open(After(cfg, steps).server)
    ensures steps <= run && Runs(cfg, run) && After(cfg, run).server.phase.Shutdown?
    decreases ZeroCount(After(cfg, steps).server.bits), !After(cfg, steps).server.phase.Writing?,
              PacketsToTimer(After(cfg, steps).server.meter)
  {
    var sv := After(cfg, steps).server;
    if sv.phase.Shutdown? {
      run := steps;
    } else if sv.phase.Writing? {
      var next := CompleteStaysOpen(cfg, steps);
      run := CanFinish(cfg, next);
    } else if All(sv.bits) {
      run := Finish(cfg, steps);
    } else {
      var next;
      if MaySend(sv) {
        next := FetchChunk(cfg, steps);
      } else {
        next := Nudge(cfg, steps);
      }
      run := CanFinish(cfg, next);
    }
  }

  /** A chunk is missing and every chunk that arrives makes the server panic: no clean run gets out
      of there. */
  lemma {:induction false} StaysClosed(cfg: Config, s: State, step: Step)
    requires cfg.Valid() && Inv(cfg, s) && !Open(s.server) && Apply(cfg, s, step).Some? && Clean(cfg, s, step)
    ensures !Open(Apply(cfg, s, step).value.server)
  {
    match step
    case ServerReceive(p, gap) => ClosedReceive(cfg, s, p, gap);
    case ServerFinish => ClosedFinish(s.server);
    case _ =>
  }

  lemma {:induction false} ClosedReceive(cfg: Config, s: State, p: seq<byte>, gap: nat)
    requires cfg.Valid() && Inv(cfg, s) && !Open(s.server) && Clean(cfg, s, ServerReceive(p, gap))
    ensures Apply(cfg, s, ServerReceive(p, gap)).None?
  {
    var sv := s.server;
    if !sv.phase.Writing? && p in s.toServer {
      ReceiveInv(cfg, sv, p, gap);
      if Receive(cfg.info, sv, p, gap).Some? {
        FinOnly(cfg, sv, p, gap);
      }
    }
  }

  lemma {:induction false} FinOnly(cfg: Config, sv: Server, p: seq<byte>, gap: nat)
    requires cfg.Valid() && ServerInv(cfg, sv) && sv.phase.Waiting? && Sound(cfg, sv, p)
    requires ChunkDecode(p, cfg.info.indexFieldSize).Some?
    requires ChunkDecode(p, cfg.info.indexFieldSize).value.0 == cfg.info.numChunks
    ensures All(sv.bits)
  {
    ReceiveInv(cfg, sv, p, gap);
  }

  lemma {:induction false} ClosedFinish(sv: Server)
    requires sv.phase.Writing? && sv.phase.index < |sv.bits| && !Open(sv)
    ensures !Open(FinishWrite(sv))
  {
    var i :| 0 <= i < |sv.bits| && !sv.bits[i] && i != sv.phase.index;
    assert !FinishWrite(sv).bits[i];
  }

  lemma {:induction false} NeverOpens(cfg: Config, steps: seq<Step>, run: seq<Step>)
    requires Runs(cfg, steps) && !Open(After(cfg, steps).server) && steps <= run && Runs(cfg, run)
    ensures !Open(After(cfg, run).server)
    decreases |run|
  {
    if steps == run {
    } else {
      var shorter := run[..|run| - 1];
      NeverOpens(cfg, steps, shorter);
      RunInv(cfg, shorter);
      StaysClosed(cfg, After(cfg, shorter), run[|run| - 1]);
    }
  }

  /** Exactly the open states can be completed. */
  lemma {:induction false} CanFinishIff(cfg: Config, steps: seq<Step>)
    requires Runs(cfg, steps)
    ensures Open(After(cfg, steps).server) <==>
            exists run :: steps <= run && Runs(cfg, run) && After(cfg, run).server.phase.Shutdown?
  {
    if Open(After(cfg, steps).server) {
      var run := CanFinish(cfg, steps);
    }
    if run :| steps <= run && Runs(cfg, run) && After(cfg, run).server.phase.Shutdown? {
      if !Open(After(cfg, steps).server) {
        NeverOpens(cfg, steps, run);
      }
    }
  }

  // ---------------------------------------------------------------- an upload that cannot be completed

  /** A chunk that was received arrives again and again, and only the average changes. */
  lemma {:induction false} Repeat(cfg: Config, steps: seq<Step>, i: nat, gaps: seq<nat>) returns (run: seq<Step>)
    requires Runs(cfg, steps) && i < cfg.info.numChunks && End(cfg.info, i) <= |cfg.src|
    requires ChunkPacket(cfg.info, cfg.src, i) in After(cfg, steps).toServer
    requires var sv := After(cfg, steps).server;
             sv.phase.Waiting? && i < |sv.bits| && sv.bits[i] && sv.meter == Meter(true, NONE_YET)
    requires AddAll(gaps).Some?
    ensures steps <= run && Runs(cfg, run)
    ensures var s, t := After(cfg, steps), After(cfg, run);
            && t.server.phase.Waiting? && t.server.bits == s.server.bits && t.toServer == s.toServer
            && t.server.meter == Meter(true, AddAll(gaps).value)
  {
    if gaps == [] {
      run := steps;
    } else {
      var n := |gaps| - 1;
      var before := Repeat(cfg, steps, i, gaps[..n]);
      AddGapPanicsIff(AddAll(gaps[..n]).value, gaps[n]);
      run := ArriveAfter(cfg, before, i, gaps[n]);
    }
  }

  /** Some chunk can be received, leaving its packet in flight. */
  lemma {:induction false} FirstChunk(cfg: Config) returns (run: seq<Step>, i: nat)
    requires cfg.Valid() && cfg.info.numChunks >= 1
    ensures Runs(cfg, run) && i < cfg.info.numChunks && End(cfg.info, i) <= |cfg.src|
    ensures var s := After(cfg, run);
            && ChunkPacket(cfg.info, cfg.src, i) in s.toServer && s.server.phase.Waiting?
            && s.server.bits == Init(cfg).server.bits[i := true] && s.server.meter == Meter(true, NONE_YET)
  {
    assert !Init(cfg).server.bits[0];
    var aimed := AimAtMissing(cfg, []);
    i := After(cfg, aimed).client.sending.value;
    var sent := SendChunk(cfg, aimed, i);
    var arrived := ArriveAfter(cfg, sent, i, 0);
    run := CompleteWrite(cfg, arrived);
  }

  /** Every upload of two chunks or more has a clean run that ends where it can never be completed:
      after 10 ns and then at the same instant, a chunk that was received arrives eleven times. */
  lemma {:induction false} CanGetStuck(cfg: Config) returns (run: seq<Step>)
    requires cfg.Valid() && cfg.info.numChunks >= 2
    ensures Runs(cfg, run) && Stuck(After(cfg, run).server.meter) && !Open(After(cfg, run).server)
  {
    var first, i := FirstChunk(cfg);
    var gaps: seq<nat> := [10, 0, 0, 0, 0, 0, 0, 0, 0, 0];
    BurstUnderflows(gaps);
    run := Repeat(cfg, first, i, gaps);
    var j := if i == 0 then 1 else 0;
    assert !After(cfg, run).server.bits[j];
  }

  // ---------------------------------------------------------------- a file that comes out wrong

  /** Every file whose length is a nonzero multiple of the chunk size has a run that is accepted as
      complete, with its bitmap removed, and leaves other bytes than the source's, unless the old
      file's last chunk was right already. */
  lemma {:induction false} LastChunkIsLost(cfg: Config) returns (run: seq<Step>)
    requires cfg.Valid() && |cfg.src| > 0 && |cfg.src| % cfg.info.chunkSize == 0
    requires |cfg.src| >= cfg.info.chunkSize
    requires cfg.before[|cfg.src| - cfg.info.chunkSize..] != cfg.src[|cfg.src| - cfg.info.chunkSize..]
    ensures Runs(cfg, run)
    ensures var sv := After(cfg, run).server; sv.phase.Shutdown? && !sv.bitmapFile && sv.file != cfg.src
  {
    run := CanFinish(cfg, []);
    FinishedFile(cfg, run);
  }

  /** For instance a file of 1459 ones, uploaded over nothing. */
  lemma {:induction false} OneFullChunkIsLost(src: seq<byte>, before: seq<byte>) returns (run: seq<Step>)
    requires |src| == |before| == 1459 && src[0] == 1 && before[0] == 0
    ensures var cfg := Config(ChunkInfo(1, 1459, 1, 0), src, before, []);
            Runs(cfg, run) && After(cfg, run).server.phase.Shutdown? && After(cfg, run).server.file != src
  {
    var cfg := Config(ChunkInfo(1, 1459, 1, 0), src, before, []);
    U64Length(1459);
    assert Pow256(1) == 256;
    assert IsInfoFor(cfg.info, 1459);
    assert cfg.before[0..][0] != cfg.src[0..][0];
    run := LastChunkIsLost(cfg);
  }
}
