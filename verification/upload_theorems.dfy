/** What holds over every run of the v1 upload. */
module UploadTheorems {
  import opened Varints
  import opened BitMaps
  import opened Geometry
  import opened Congestion
  import opened Upload

  // ---------------------------------------------------------------- the FIN

  /** In every run, misread Logins included, a FIN is in flight only when the server's bitmap is full. */
  lemma {:induction false} FinImpliesFull(cfg: Config, steps: seq<Step>, p: seq<byte>)
    requires cfg.Valid() && Exec(cfg, steps).Some?
    requires p in Exec(cfg, steps).value.toServer && p != cfg.LoginPacket()
    requires ChunkDecode(p, cfg.info.indexFieldSize).Some?
    requires ChunkDecode(p, cfg.info.indexFieldSize).value.0 == cfg.info.numChunks
    ensures All(Exec(cfg, steps).value.server.bits)
  {
    TrafficRun(cfg, steps);
    var s := Exec(cfg, steps).value;
    if !(p == FinPacket(cfg.info) && All(s.server.bits)) {
      var i :| 0 <= i < cfg.info.numChunks && IsChunk(cfg, i, p);
      RegionInFile(cfg.info, |cfg.src|, i);
      DecodeKnown(cfg, i, cfg.src[Start(cfg.info, i)..End(cfg.info, i)]);
    }
  }

  /** In every run, a client that has finished has done so rightly. */
  lemma {:induction false} FinishedMeansFull(cfg: Config, steps: seq<Step>)
    requires cfg.Valid() && Exec(cfg, steps).Some? && Exec(cfg, steps).value.client.finished
    ensures All(Exec(cfg, steps).value.server.bits)
  {
    TrafficRun(cfg, steps);
  }

  /** In a clean run the server shuts down only with a full bitmap: the branch for a FIN on a bitmap
      that is not full is not taken. */
  lemma {:induction false} ShutdownMeansFull(cfg: Config, steps: seq<Step>)
    requires cfg.Valid() && Exec(cfg, steps).Some? && CleanRun(cfg, steps)
    requires Exec(cfg, steps).value.server.phase.Shutdown?
    ensures All(Exec(cfg, steps).value.server.bits)
  {
    RunInv(cfg, steps);
  }

  // ---------------------------------------------------------------- the finished file

  lemma {:induction false} TiledByte(cfg: Config, sv: Server, p: nat)
    requires cfg.Valid() && ServerInv(cfg, sv) && All(sv.bits) && p < TiledLength(cfg.info) <= |cfg.src|
    ensures sv.file[p] == cfg.src[p]
  {
    RegionOf(cfg.info, |cfg.src|, p);
    var i := p / cfg.info.chunkSize;
    var a, b := Start(cfg.info, i), End(cfg.info, i);
    RegionInFile(cfg.info, |cfg.src|, i);
    assert RegionOk(cfg, sv.file, i);
    assert sv.file[a..b][p - a] == cfg.src[a..b][p - a];
  }

  /** With a full bitmap the tiled part of the file is the source's. */
  lemma {:induction false} FullBitmapFile(cfg: Config, sv: Server)
    requires cfg.Valid() && ServerInv(cfg, sv) && All(sv.bits)
    ensures TiledLength(cfg.info) <= |cfg.src|
    ensures sv.file == cfg.src[..TiledLength(cfg.info)] + cfg.before[TiledLength(cfg.info)..]
  {
    var tiled := TiledLength(cfg.info);
    TiledExactly(cfg.info, |cfg.src|);
    forall p | 0 <= p < tiled ensures sv.file[p] == cfg.src[p] {
      TiledByte(cfg, sv, p);
    }
  }

  /** When the FIN has been accepted the bitmap file is gone, and the file is the source exactly
      when chunks tile it: if the length is a nonzero multiple of the chunk size, the last chunk
      carries no bytes and the file keeps what it had there before. */
  lemma {:induction false} FinishedFile(cfg: Config, steps: seq<Step>)
    requires cfg.Valid() && Exec(cfg, steps).Some? && CleanRun(cfg, steps)
    requires Exec(cfg, steps).value.server.phase.Shutdown?
    ensures var sv := Exec(cfg, steps).value.server;
            && All(sv.bits) && !sv.bitmapFile
            && (sv.file == cfg.src <==>
                  || |cfg.src| == 0
                  || |cfg.src| % cfg.info.chunkSize != 0
                  || (|cfg.src| >= cfg.info.chunkSize
                      && cfg.before[|cfg.src| - cfg.info.chunkSize..] == cfg.src[|cfg.src| - cfg.info.chunkSize..]))
  {
    RunInv(cfg, steps);
    var sv := Exec(cfg, steps).value.server;
    FullBitmapFile(cfg, sv);
    TiledExactly(cfg.info, |cfg.src|);
    var tiled := TiledLength(cfg.info);
    assert cfg.src == cfg.src[..tiled] + cfg.src[tiled..];
    SameTail(cfg.src[..tiled], cfg.before[tiled..], cfg.src[tiled..]);
  }

  lemma {:induction false} SameTail(a: seq<byte>, b: seq<byte>, c: seq<byte>)
    ensures a + b == a + c <==> b == c
  {
    if a + b == a + c {
      assert b == (a + b)[|a|..];
      assert c == (a + c)[|a|..];
    }
  }

  // ---------------------------------------------------------------- panics

  /** In every run, nothing the network can deliver makes the client panic. */
  lemma {:induction false} ClientNeverPanics(cfg: Config, steps: seq<Step>, u: seq<byte>)
    requires cfg.Valid() && Exec(cfg, steps).Some?
    requires u in Exec(cfg, steps).value.toClient
    ensures OnStatus(Exec(cfg, steps).value.client, u).Some?
    ensures Apply(cfg, Exec(cfg, steps).value, ClientReceive(u)).Some? <==> !Exec(cfg, steps).value.client.finished
  {
    TrafficRun(cfg, steps);
    var s := Exec(cfg, steps).value;
    OnStatusInv(cfg, s.client, s.server.bits, u);
  }

  /** In every run a datagram makes the server panic exactly when the upload is going on, it is not
      read as a FIN, and either the average underflows or it is the Login with an index beyond the
      FIN's. */
  lemma {:induction false} ServerPanicsIff(cfg: Config, steps: seq<Step>, p: seq<byte>, gap: nat)
    requires cfg.Valid() && Exec(cfg, steps).Some?
    requires p in Exec(cfg, steps).value.toServer && !Exec(cfg, steps).value.server.phase.Writing?
    ensures |Exec(cfg, steps).value.server.bits| == cfg.info.numChunks
    ensures ChunkDecode(p, cfg.info.indexFieldSize).Some?
    ensures var sv := Exec(cfg, steps).value.server;
            Receive(cfg.info, sv, p, gap).None? <==>
              && sv.phase.Waiting?
              && ChunkDecode(p, cfg.info.indexFieldSize).value.0 != cfg.info.numChunks
              && (Stuck(sv.meter) || (p == cfg.LoginPacket() && LoginIndex(cfg) > cfg.info.numChunks))
    ensures Apply(cfg, Exec(cfg, steps).value, ServerReceive(p, gap)).None? <==>
            Receive(cfg.info, Exec(cfg, steps).value.server, p, gap).None?
  {
    TrafficRun(cfg, steps);
    var s := Exec(cfg, steps).value;
    if KnownPacket(cfg, s.server.bits, p) {
      KnownIndex(cfg, s.server.bits, p);
    }
    LoginDecodes(cfg);
    TickPanicsIff(s.server.meter, gap);
  }

  lemma {:induction false} KnownIndex(cfg: Config, bits: seq<bool>, p: seq<byte>)
    requires cfg.Valid() && KnownPacket(cfg, bits, p)
    ensures ChunkDecode(p, cfg.info.indexFieldSize).Some?
    ensures ChunkDecode(p, cfg.info.indexFieldSize).value.0 <= cfg.info.numChunks
  {
    if i :| 0 <= i < cfg.info.numChunks && IsChunk(cfg, i, p) {
      RegionInFile(cfg.info, |cfg.src|, i);
      DecodeKnown(cfg, i, cfg.src[Start(cfg.info, i)..End(cfg.info, i)]);
    } else {
      assert p + [] == p;
      DecodeKnown(cfg, cfg.info.numChunks, []);
    }
  }

  /** A delivery that adds a gap to the average: not the first packet, not a FIN, and not after it. */
  predicate Counts(cfg: Config, s: State, step: Step) {
    && step.ServerReceive? && s.server.phase.Waiting? && s.server.meter.started
    && ChunkDecode(step.packet, cfg.info.indexFieldSize).Some?
    && ChunkDecode(step.packet, cfg.info.indexFieldSize).value.0 != cfg.info.numChunks
  }

  /** The gaps that were counted, in order. */
  function GapsIn(cfg: Config, steps: seq<Step>): seq<nat>
    requires Exec(cfg, steps).Some?
  {
    if steps == [] then []
    else
      var before, step := steps[..|steps| - 1], steps[|steps| - 1];
      GapsIn(cfg, before) + if Counts(cfg, Exec(cfg, before).value, step) then [step.gap] else []
  }

  lemma {:induction false} MeterStep(cfg: Config, s: State, step: Step)
    requires Apply(cfg, s, step).Some?
    ensures var m, m' := s.server.meter, Apply(cfg, s, step).value.server.meter;
            if Counts(cfg, s, step) then AddGap(m.avg, step.gap) == Some(m'.avg) else m'.avg == m.avg
  {
  }

  /** In every run the server's average is that of exactly the gaps counted, in their order. */
  lemma {:induction false} MeterHistory(cfg: Config, steps: seq<Step>)
    requires Exec(cfg, steps).Some?
    ensures AddAll(GapsIn(cfg, steps)) == Some(Exec(cfg, steps).value.server.meter.avg)
  {
    if steps != [] {
      var before, step := steps[..|steps| - 1], steps[|steps| - 1];
      var s := Exec(cfg, before).value;
      MeterHistory(cfg, before);
      MeterStep(cfg, s, step);
      var gaps := GapsIn(cfg, before);
      if Counts(cfg, s, step) {
        assert (gaps + [step.gap])[..|gaps|] == gaps;
      } else {
        assert gaps + [] == gaps;
      }
    }
  }

  /** So the next chunk underflows exactly by the condition on those gaps. */
  lemma {:induction false} StuckIff(cfg: Config, steps: seq<Step>)
    requires Exec(cfg, steps).Some?
    ensures var gaps := GapsIn(cfg, steps);
            Underflows(Exec(cfg, steps).value.server.meter.avg) <==>
              && |gaps| >= 10
              && AddAll(gaps[..10]).Some?
              && Tenths(gaps[|gaps| - 9..]) < -Offset(AddAll(gaps[..10]).value)
  {
    var gaps := GapsIn(cfg, steps);
    MeterHistory(cfg, steps);
    AddGapPanicsIff(Exec(cfg, steps).value.server.meter.avg, 0);
    assert (gaps + [0])[..|gaps|] == gaps;
    if |gaps| >= 10 {
      UnderflowsIff(gaps, 0);
    } else {
      FillingLoss(gaps);
    }
  }

  /** No two chunks come closer than 20 ns, or none closer than 10 ns and none later than 100 ms. */
  ghost predicate Paced(gaps: seq<nat>) {
    || (forall i :: 0 <= i < |gaps| ==> 20 <= gaps[i])
    || (forall i :: 0 <= i < |gaps| ==> 10 <= gaps[i] < 100_000_000)
  }

  lemma {:induction false} SumAtMost(gaps: seq<nat>, most: nat)
    requires forall i :: 0 <= i < |gaps| ==> gaps[i] <= most
    ensures Sum(gaps) <= most * |gaps|
  {
    if gaps != [] {
      SumAtMost(gaps[..|gaps| - 1], most);
      assert most * |gaps| == most * (|gaps| - 1) + most;
    }
  }

  lemma {:induction false} PacedIsSteady(gaps: seq<nat>)
    requires Paced(gaps)
    ensures Steady(gaps)
  {
    if |gaps| >= 10 && !(forall i :: 0 <= i < |gaps| ==> 20 <= gaps[i]) {
      SumAtMost(gaps[..10], 99_999_999);
    }
  }

  lemma {:induction false} PacedNeverStuck(gaps: seq<nat>, a: Average)
    requires AddAll(gaps) == Some(a) && Paced(gaps)
    ensures !Underflows(a)
  {
    var next: nat := if |gaps| > 0 then gaps[0] else 20;
    var more := gaps + [next];
    assert more[..|gaps|] == gaps && more[|gaps|] == next;
    assert forall i :: 0 <= i < |more| ==> more[i] == next || more[i] == gaps[i];
    PacedIsSteady(more);
    NoUnderflow(more);
    AddGapPanicsIff(a, next);
  }

  /** With chunks at such a pace, nothing but a Login whose index lies beyond the FIN's makes the
      server panic. */
  lemma {:induction false} NoPanic(cfg: Config, steps: seq<Step>, p: seq<byte>, gap: nat)
    requires cfg.Valid() && Exec(cfg, steps).Some? && Paced(GapsIn(cfg, steps))
    requires p in Exec(cfg, steps).value.toServer && !Exec(cfg, steps).value.server.phase.Writing?
    ensures |Exec(cfg, steps).value.server.bits| == cfg.info.numChunks
    ensures Receive(cfg.info, Exec(cfg, steps).value.server, p, gap).None? ==>
            p == cfg.LoginPacket() && LoginIndex(cfg) > cfg.info.numChunks
  {
    MeterHistory(cfg, steps);
    PacedNeverStuck(GapsIn(cfg, steps), Exec(cfg, steps).value.server.meter.avg);
    ServerPanicsIff(cfg, steps, p, gap);
  }

  // ---------------------------------------------------------------- the power-of-two rule

  function FloorLog2(n: nat): nat
    requires n >= 1
  {
    if n == 1 then 0 else 1 + FloorLog2(n / 2)
  }

  /** Powers of two in 1..m. */
  function PowersUpTo(m: nat): nat {
    if m == 0 then 0 else PowersUpTo(m - 1) + if IsPowerOfTwo(m) then 1 else 0
  }

  lemma {:induction false} LogStep(m: nat)
    requires m >= 2
    ensures FloorLog2(m) == FloorLog2(m - 1) + if IsPowerOfTwo(m) then 1 else 0
  {
    if m % 2 == 0 && m > 2 {
      assert (m - 1) / 2 == m / 2 - 1;
      LogStep(m / 2);
    } else if m % 2 == 1 {
      assert (m - 1) / 2 == m / 2;
    }
  }

  lemma {:induction false} PowersAreLog(m: nat)
    requires m >= 1
    ensures PowersUpTo(m) == FloorLog2(m) + 1
  {
    if m >= 2 {
      LogStep(m);
      PowersAreLog(m - 1);
    } else {
      assert PowersUpTo(1) == PowersUpTo(0) + 1;
    }
  }

  lemma {:induction false} FiredIsPowers(n: nat, z: nat)
    requires 1 <= z <= n
    ensures Fired(n, z) == PowersUpTo(n - 1) - PowersUpTo(z - 1)
    decreases n - z
  {
    if z < n {
      FiredIsPowers(n, z + 1);
    }
  }

  /** Counting the zero counts n-1 down to 0 at which the rule fires. */
  lemma {:induction false} FiredInAll(n: nat)
    requires n >= 2
    ensures Fired(n, 0) == FloorLog2(n - 1) + 2
  {
    FiredIsPowers(n, 1);
    PowersAreLog(n - 1);
    assert Fired(n, 0) == Fired(n, 1) + 1;
  }

  /** True of every run, also one in which the Login is misread. */
  ghost predicate CountInv(cfg: Config, sv: Server) {
    && |sv.bits| == cfg.info.numChunks
    && (sv.phase.Writing? ==> sv.phase.index < |sv.bits| && !sv.bits[sv.phase.index])
    && sv.notified == Fired(|sv.bits|, ZeroCount(sv.bits))
  }

  /** Each step keeps the zero count, or lowers it by one and consults the rule; it clears no bit. */
  lemma {:induction false} ZeroCountStep(cfg: Config, s: State, step: Step)
    requires CountInv(cfg, s.server) && Apply(cfg, s, step).Some?
    ensures var before, after := s.server, Apply(cfg, s, step).value.server;
            && CountInv(cfg, after) && Below(before.bits, after.bits)
            && (|| (ZeroCount(after.bits) == ZeroCount(before.bits) && after.notified == before.notified)
                || (ZeroCount(after.bits) == ZeroCount(before.bits) - 1
                    && after.notified == before.notified + if Notifies(ZeroCount(after.bits)) then 1 else 0))
  {
    if step.ServerFinish? {
      ZeroCountUpdate(s.server.bits, s.server.phase.index, true);
    }
  }

  lemma {:induction false} CountRun(cfg: Config, steps: seq<Step>)
    requires Exec(cfg, steps).Some?
    ensures CountInv(cfg, Exec(cfg, steps).value.server)
  {
    if steps == [] {
      ZeroCountAllFalse(Init(cfg).server.bits);
    } else {
      var before := steps[..|steps| - 1];
      CountRun(cfg, before);
      ZeroCountStep(cfg, Exec(cfg, before).value, steps[|steps| - 1]);
    }
  }

  /** Bits are never cleared. */
  lemma {:induction false} BitmapOnlyGrows(cfg: Config, steps: seq<Step>, m: nat)
    requires Exec(cfg, steps).Some? && m <= |steps|
    ensures Exec(cfg, steps[..m]).Some?
    ensures Below(Exec(cfg, steps[..m]).value.server.bits, Exec(cfg, steps).value.server.bits)
    decreases |steps|
  {
    if m < |steps| {
      var shorter := steps[..|steps| - 1];
      BitmapOnlyGrows(cfg, shorter, m);
      assert shorter[..m] == steps[..m];
      CountRun(cfg, shorter);
      ZeroCountStep(cfg, Exec(cfg, shorter).value, steps[|steps| - 1]);
    } else {
      assert steps[..m] == steps;
    }
  }

  /** However many duplicates arrive, an upload of n >= 2 chunks that is complete has fired the
      power-of-two-or-zero rule exactly floor(log2(n - 1)) + 2 times. */
  lemma {:induction false} NotifiedInAll(cfg: Config, steps: seq<Step>)
    requires Exec(cfg, steps).Some? && cfg.info.numChunks >= 2
    requires All(Exec(cfg, steps).value.server.bits)
    ensures Exec(cfg, steps).value.server.notified == FloorLog2(cfg.info.numChunks - 1) + 2
  {
    CountRun(cfg, steps);
    ZeroCountNone(Exec(cfg, steps).value.server.bits);
    FiredInAll(cfg.info.numChunks);
  }
}
