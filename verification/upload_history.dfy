/** What the two sides of a v1 upload have done so far, in every run: the chunks that the client has
    started since its last update, and the updates that the server was to send. */
module UploadHistory {
  import opened Varints
  import opened Ranges
  import opened BitMaps
  import opened StatusUpdates
  import opened Geometry
  import opened Upload
  import opened UploadTheorems

  // ---------------------------------------------------------------- chunks started

  /** The ranges that the client was told last, and the chunks it has started since. */
  datatype Progress = Progress(told: seq<Range>, started: seq<nat>)

  /** What a step shows of the client: it takes an update in, or it goes on to another chunk. */
  function Observe(h: Progress, step: Step, c: Client, c': Client): Progress {
    match step
    case ClientReceive(u) =>
      Progress(
        if DecodeRanges(u).Some? then DecodeRanges(u).value else [],
        if c.sending.None? && c'.sending.Some? then [c'.sending.value] else [])
    case ClientSend => h.(started := h.started + if c'.sending.Some? then [c'.sending.value] else [])
    case _ => h
  }

  function ProgressIn(cfg: Config, steps: seq<Step>): Progress
    requires Exec(cfg, steps).Some?
  {
    if steps == [] then Progress([], [])
    else
      var before, step := steps[..|steps| - 1], steps[|steps| - 1];
      Observe(ProgressIn(cfg, before), step, Exec(cfg, before).value.client, Exec(cfg, steps).value.client)
  }

  ghost predicate ProgressOk(c: Client, h: Progress) {
    && Ordered(h.told) && c.missing == h.told
    && Indices(h.told) == h.started + IndicesFrom(c.missing, c.cursor)
    && (c.sending.None? ==> IndicesFrom(c.missing, c.cursor) == [])
  }

  /** Starting a chunk takes the first of the indices that are left. */
  lemma {:induction false} DoChunkTakes(c: Client)
    requires Ordered(c.missing)
    ensures var c' := DoChunk(c);
            && c'.missing == c.missing
            && (c'.sending.Some? ==>
                  IndicesFrom(c.missing, c.cursor) == [c'.sending.value] + IndicesFrom(c.missing, c'.cursor))
            && (c'.sending.None? ==> c'.cursor == c.cursor && IndicesFrom(c.missing, c.cursor) == [])
  {
    NextIsHead(c.missing, c.cursor);
  }

  lemma {:induction false} SendProgress(c: Client, h: Progress)
    requires ProgressOk(c, h)
    ensures ProgressOk(DoChunk(c), Observe(h, ClientSend, c, DoChunk(c)))
  {
    DoChunkTakes(c);
    var c' := DoChunk(c);
    if c'.sending.Some? {
      var x, rest := c'.sending.value, IndicesFrom(c.missing, c'.cursor);
      assert h.started + ([x] + rest) == (h.started + [x]) + rest;
    }
  }

  lemma {:induction false} UpdateProgress(c: Client, h: Progress, u: seq<byte>)
    requires OnStatus(c, u).Some? && Ordered(DecodeRanges(u).value)
    ensures var c' := OnStatus(c, u).value;
            c'.sending.None? ==> c'.missing == [] && c'.finished
    ensures var c' := OnStatus(c, u).value; ProgressOk(c', Observe(h, ClientReceive(u), c, c'))
  {
    var rs := DecodeRanges(u).value;
    var renewed := c.(missing := rs, cursor := 0);
    if rs != [] {
      AllFromFirst(rs);
      DoChunkTakes(renewed);
    }
    assert [] + IndicesFrom(rs, 0) == IndicesFrom(rs, 0);
  }

  lemma {:induction false} AllFromFirst(rs: seq<Range>)
    requires Ordered(rs) && rs != []
    ensures NextMissing(rs, 0).Some? && IndicesFrom(rs, 0) != []
  {
    NextIsLeast(rs, 0);
    NextIsHead(rs, 0);
    assert Covers(rs, rs[0].from);
  }

  /** In every run, since its last update the client has started, in order, exactly the first of the
      indices that the update reports, and all of them when it sleeps. */
  lemma {:induction false} ChunksStarted(cfg: Config, steps: seq<Step>)
    requires cfg.Valid() && Exec(cfg, steps).Some?
    ensures ProgressOk(Exec(cfg, steps).value.client, ProgressIn(cfg, steps))
    ensures ProgressIn(cfg, steps).started <= Indices(ProgressIn(cfg, steps).told)
    ensures Exec(cfg, steps).value.client.sending.None? ==>
              ProgressIn(cfg, steps).started == Indices(ProgressIn(cfg, steps).told)
  {
    if steps != [] {
      var before, step := steps[..|steps| - 1], steps[|steps| - 1];
      ChunksStarted(cfg, before);
      TrafficRun(cfg, before);
      var s := Exec(cfg, before).value;
      match step
      case ClientSend => SendProgress(s.client, ProgressIn(cfg, before));
      case ClientReceive(u) =>
        ToldIsOrdered(s.server.bits, u, cfg);
        UpdateProgress(s.client, ProgressIn(cfg, before), u);
      case _ =>
    }
  }

  lemma {:induction false} ToldIsOrdered(bits: seq<bool>, u: seq<byte>, cfg: Config)
    requires cfg.Valid() && KnownUpdate(bits, u) && |bits| == cfg.info.numChunks
    ensures DecodeRanges(u).Some? && Ordered(DecodeRanges(u).value)
  {
    var b :| Below(b, bits) && u == StatusBytes(b, MTU);
    InfoBounds(cfg);
    DecodedIsOrdered(b, MTU);
  }

  /** In every run, each chunk started since the last update has been sent, but for the one that the
      client is at. */
  lemma {:induction false} StartedIsSent(cfg: Config, steps: seq<Step>, i: nat)
    requires cfg.Valid() && Exec(cfg, steps).Some? && i in ProgressIn(cfg, steps).started
    ensures var s := Exec(cfg, steps).value;
            || s.client.sending == Some(i)
            || (End(cfg.info, i) <= |cfg.src| && ChunkPacket(cfg.info, cfg.src, i) in s.toServer)
  {
    if steps != [] {
      var before := steps[..|steps| - 1];
      if i in ProgressIn(cfg, before).started {
        StartedIsSent(cfg, before, i);
      }
    }
  }

  // ---------------------------------------------------------------- updates due

  function Pow2(k: nat): nat { if k == 0 then 1 else 2 * Pow2(k - 1) }

  ghost predicate IsPow2(n: nat) { exists k: nat :: n == Pow2(k) }

  lemma {:induction false} IsPowerOfTwoIff(n: nat)
    ensures IsPowerOfTwo(n) <==> IsPow2(n)
  {
    if IsPowerOfTwo(n) {
      var k := Exponent(n);
    }
    if k: nat :| n == Pow2(k) {
      PowIsPower(k);
    }
  }

  lemma {:induction false} Exponent(n: nat) returns (k: nat)
    requires IsPowerOfTwo(n)
    ensures n == Pow2(k)
  {
    if n == 1 {
      k := 0;
    } else {
      var j := Exponent(n / 2);
      k := j + 1;
    }
  }

  lemma {:induction false} PowIsPower(k: nat)
    ensures IsPowerOfTwo(Pow2(k)) && Pow2(k) >= 1
  {
    if k > 0 {
      PowIsPower(k - 1);
    }
  }

  /** The number of zero bits is 0 or a power of two. */
  ghost predicate Notable(bits: seq<bool>) { ZeroCount(bits) == 0 || IsPow2(ZeroCount(bits)) }

  /** Steps that finish a chunk and leave a notable number of zeroes. */
  ghost function NotableFinishes(cfg: Config, steps: seq<Step>): nat
    requires Exec(cfg, steps).Some?
  {
    if steps == [] then 0
    else
      var before, step := steps[..|steps| - 1], steps[|steps| - 1];
      NotableFinishes(cfg, before) + if step.ServerFinish? && Notable(Exec(cfg, steps).value.server.bits) then 1 else 0
  }

  /** Updates sent because one was due, and updates sent by the timer. */
  function SentDue(cfg: Config, steps: seq<Step>): nat
    requires Exec(cfg, steps).Some?
  {
    if steps == [] then 0
    else
      var before, step := steps[..|steps| - 1], steps[|steps| - 1];
      SentDue(cfg, before) + if step.SendStatus? && Exec(cfg, before).value.server.due > 0 then 1 else 0
  }

  function SentByTimer(cfg: Config, steps: seq<Step>): nat
    requires Exec(cfg, steps).Some?
  {
    if steps == [] then 0
    else
      var before, step := steps[..|steps| - 1], steps[|steps| - 1];
      SentByTimer(cfg, before) + if step.SendStatus? && Exec(cfg, before).value.server.due == 0 then 1 else 0
  }

  lemma {:induction false} DueStep(cfg: Config, s: State, step: Step)
    requires Apply(cfg, s, step).Some?
    ensures var sv, sv' := s.server, Apply(cfg, s, step).value.server;
            sv'.due == sv.due + (if step.ServerFinish? && Notable(sv'.bits) then 1 else 0)
                              - (if step.SendStatus? && sv.due > 0 then 1 else 0)
  {
    if step.ServerFinish? {
      IsPowerOfTwoIff(ZeroCount(FinishWrite(s.server).bits));
    }
  }

  /** In every run, the updates sent because they were due and those still due are the first one and
      one for each finished chunk that left zero or a power of two of zeroes. */
  lemma {:induction false} UpdatesDue(cfg: Config, steps: seq<Step>)
    requires Exec(cfg, steps).Some?
    ensures SentDue(cfg, steps) + Exec(cfg, steps).value.server.due == 1 + NotableFinishes(cfg, steps)
  {
    if steps != [] {
      var before := steps[..|steps| - 1];
      UpdatesDue(cfg, before);
      DueStep(cfg, Exec(cfg, before).value, steps[|steps| - 1]);
    }
  }

  lemma {:induction false} NotifiedStep(cfg: Config, steps: seq<Step>)
    requires Exec(cfg, steps).Some?
    ensures Exec(cfg, steps).value.server.notified == NotableFinishes(cfg, steps)
  {
    if steps != [] {
      var before, step := steps[..|steps| - 1], steps[|steps| - 1];
      NotifiedStep(cfg, before);
      if step.ServerFinish? {
        IsPowerOfTwoIff(ZeroCount(Exec(cfg, steps).value.server.bits));
      }
    }
  }

  /** However many duplicates arrive, an upload of n >= 2 chunks that is complete has made exactly
      floor(log2(n - 1)) + 2 updates due through the power-of-two-or-zero rule, besides the first. */
  lemma {:induction false} RuleFiresExactly(cfg: Config, steps: seq<Step>)
    requires Exec(cfg, steps).Some? && cfg.info.numChunks >= 2
    requires All(Exec(cfg, steps).value.server.bits)
    ensures SentDue(cfg, steps) + Exec(cfg, steps).value.server.due == 1 + FloorLog2(cfg.info.numChunks - 1) + 2
  {
    UpdatesDue(cfg, steps);
    NotifiedStep(cfg, steps);
    NotifiedInAll(cfg, steps);
  }

  /** In every run the timer sends only after a gap was counted and before the FIN: with no gap it has
      sent nothing, and once the server is shut down it sends nothing more. */
  lemma {:induction false} TimerSends(cfg: Config, steps: seq<Step>)
    requires Exec(cfg, steps).Some?
    ensures GapsIn(cfg, steps) == [] ==> SentByTimer(cfg, steps) == 0
    ensures Exec(cfg, steps).value.server.phase.Shutdown? && Exec(cfg, steps).value.server.due == 0 ==>
              Apply(cfg, Exec(cfg, steps).value, SendStatus).None?
  {
    if steps != [] {
      var before := steps[..|steps| - 1];
      TimerSends(cfg, before);
      MeterHistory(cfg, before);
      if GapsIn(cfg, before) == [] {
        assert Exec(cfg, before).value.server.meter.avg.gaps == [];
      }
    }
  }

  // ---------------------------------------------------------------- the network

  /** What was ever sent can still be delivered. */
  lemma {:induction false} NetworkKeeps(cfg: Config, steps: seq<Step>, m: nat)
    requires Exec(cfg, steps).Some? && m <= |steps|
    ensures Exec(cfg, steps[..m]).Some?
    ensures Exec(cfg, steps[..m]).value.toServer <= Exec(cfg, steps).value.toServer
    ensures Exec(cfg, steps[..m]).value.toClient <= Exec(cfg, steps).value.toClient
    decreases |steps|
  {
    if m < |steps| {
      var shorter := steps[..|steps| - 1];
      NetworkKeeps(cfg, shorter, m);
      assert shorter[..m] == steps[..m];
    } else {
      assert steps[..m] == steps;
    }
  }
}
