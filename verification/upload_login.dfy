/** What a repeated Login does to a v1 upload. */
module UploadLogin {
  import opened Varints
  import opened Geometry
  import opened Congestion
  import opened Upload
  import opened UploadFiles

  /** By its index: read as a FIN, ignored, written as a chunk, or a panic. */
  lemma {:induction false} LoginOutcome(cfg: Config, sv: Server, gap: nat)
    requires cfg.Valid() && |sv.bits| == cfg.info.numChunks && sv.phase.Waiting?
    ensures var (i, n) := (LoginIndex(cfg), cfg.info.numChunks);
            var r := Receive(cfg.info, sv, cfg.LoginPacket(), gap);
            && (i > n ==> r.None?)
            && (i == n ==> r == Some(sv.(phase := Shutdown, bitmapFile := sv.bitmapFile && !All(sv.bits))))
            && (i < n ==> (r.None? <==> Stuck(sv.meter)))
            && (i < n && r.Some? ==>
                  r.value == sv.(meter := Tick(sv.meter, gap).value,
                                 phase := if sv.bits[i] then Waiting else Writing(i, LoginData(cfg), 0)))
  {
    LoginDecodes(cfg);
    TickPanicsIff(sv.meter, gap);
  }

  /** A Login delivered to a waiting server keeps the invariant exactly when it is harmless and the
      average does not underflow. */
  lemma {:induction false} LoginKeepsInvIff(cfg: Config, sv: Server, gap: nat)
    requires cfg.Valid() && ServerInv(cfg, sv) && sv.phase.Waiting?
    ensures var r := Receive(cfg.info, sv, cfg.LoginPacket(), gap);
            r.Some? && ServerInv(cfg, r.value) <==>
            LoginHarmless(cfg, sv) && (Stuck(sv.meter) ==> LoginIndex(cfg) == cfg.info.numChunks)
  {
    LoginOutcome(cfg, sv, gap);
    if LoginHarmless(cfg, sv) {
      ReceiveLogin(cfg, sv, gap);
    }
  }

  /** A run without the Login is clean. */
  lemma {:induction false} WithoutLoginIsClean(cfg: Config, steps: seq<Step>)
    requires cfg.Valid()
    requires forall i :: 0 <= i < |steps| && steps[i].ServerReceive? ==> steps[i].packet != cfg.LoginPacket()
    ensures CleanRun(cfg, steps)
  {
    if steps != [] {
      WithoutLoginIsClean(cfg, steps[..|steps| - 1]);
    }
  }

  lemma {:induction false} ExecOne(cfg: Config, step: Step)
    ensures Exec(cfg, [step]) == Apply(cfg, Init(cfg), step)
  {
    assert [step][..0] == [];
  }

  lemma {:induction false} ExecMore(cfg: Config, steps: seq<Step>, step: Step)
    requires Exec(cfg, steps).Some?
    ensures Exec(cfg, steps + [step]) == Apply(cfg, Exec(cfg, steps).value, step)
  {
    assert (steps + [step])[..|steps|] == steps;
  }

  /** The Login read as a FIN: an upload that has received nothing shuts down. */
  lemma {:induction false} LoginEndsUpload(cfg: Config)
    requires cfg.Valid() && LoginIndex(cfg) == cfg.info.numChunks > 0
    ensures var r := Exec(cfg, [ServerReceive(cfg.LoginPacket(), 0)]);
            r.Some? && r.value.server.phase.Shutdown? && !All(r.value.server.bits)
  {
    var step := ServerReceive(cfg.LoginPacket(), 0);
    ExecOne(cfg, step);
    LoginOutcome(cfg, Init(cfg).server, 0);
    assert !Init(cfg).server.bits[0];
  }

  /** The Login taken for a chunk and written. */
  lemma {:induction false} LoginWritten(cfg: Config) returns (run: seq<Step>)
    requires cfg.Valid() && LoginIndex(cfg) < cfg.info.numChunks
    ensures Exec(cfg, run).Some?
    ensures var (sv, i) := (Exec(cfg, run).value.server, LoginIndex(cfg));
            && |sv.bits| == cfg.info.numChunks && sv.bits[i]
            && sv.file == WriteAt(cfg.before, Start(cfg.info, i), LoginData(cfg))
  {
    var data := LoginData(cfg);
    var receive, write := ServerReceive(cfg.LoginPacket(), 0), ServerWrite(|data|);
    ExecOne(cfg, receive);
    LoginOutcome(cfg, Init(cfg).server, 0);
    ExecMore(cfg, [receive], write);
    assert data[0..|data|] == data;
    ExecMore(cfg, [receive] + [write], ServerFinish);
    run := [receive] + [write] + [ServerFinish];
  }

  lemma {:induction false} WriteReaches(file: seq<byte>, pos: nat, data: seq<byte>)
    requires data != []
    ensures |WriteAt(file, pos, data)| == if pos + |data| > |file| then pos + |data| else |file|
  {
  }

  lemma {:induction false} WrittenOver(cfg: Config, i: nat, data: seq<byte>)
    requires cfg.Valid() && i < cfg.info.numChunks
    ensures var file := WriteAt(cfg.before, Start(cfg.info, i), data);
            |file| >= |cfg.src| && Overlaid(cfg, file, i, data)
  {
    RegionInFile(cfg.info, |cfg.src|, i);
    WrittenBytes(cfg.before, Start(cfg.info, i), data);
  }

  /** For every file in which the Login stands for a chunk, the last one included, some run leaves the
      old file with the Login's bytes written over it, longer than the source if they reach beyond
      its end; the chunk counts as received; and its region is wrong exactly when those bytes do not
      agree with the source. */
  lemma {:induction false} LoginCorrupts(cfg: Config) returns (run: seq<Step>)
    requires cfg.Valid() && LoginIndex(cfg) < cfg.info.numChunks
    ensures Exec(cfg, run).Some?
    ensures var (sv, i) := (Exec(cfg, run).value.server, LoginIndex(cfg));
            && |sv.bits| == cfg.info.numChunks && sv.bits[i]
            && sv.file == WriteAt(cfg.before, Start(cfg.info, i), LoginData(cfg))
            && |sv.file| >= |cfg.src|
            && (|sv.file| > |cfg.src| <==> Start(cfg.info, i) + |LoginData(cfg)| > |cfg.src|)
            && (RegionOk(cfg, sv.file, i) <==> LoginAgrees(cfg))
  {
    var i, data := LoginIndex(cfg), LoginData(cfg);
    run := LoginWritten(cfg);
    WrittenOver(cfg, i, data);
    OverlaidAgree(cfg, WriteAt(cfg.before, Start(cfg.info, i), data), i, data);
    WriteReaches(cfg.before, Start(cfg.info, i), data);
  }

  lemma {:induction false} LoginStart(cfg: Config)
    ensures cfg.LoginPacket()[0] == 10
  {
  }

  /** With a one-byte index, which files of up to 255 chunks have, the Login stands for chunk 10. */
  lemma {:induction false} LoginIndexOfOneByte(cfg: Config)
    requires cfg.info.indexFieldSize == 1
    ensures LoginIndex(cfg) == 10
  {
    LoginStart(cfg);
    var bytes := cfg.LoginPacket()[..1];
    assert bytes == [10] && bytes[1..] == [];
    assert FromLittleEndian(bytes) == 10 + 256 * FromLittleEndian([]);
  }

  /** A file of 14000 bytes: ten chunks, so a repeated Login ends its upload. */
  lemma {:induction false} LoginEndsTenChunks(src: seq<byte>, before: seq<byte>)
    requires |src| == |before| == 14000
    ensures var cfg := Config(ChunkInfo(1, 1459, 10, 869), src, before, []);
            && cfg.Valid()
            && var r := Exec(cfg, [ServerReceive(cfg.LoginPacket(), 0)]);
               r.Some? && r.value.server.phase.Shutdown? && !All(r.value.server.bits)
  {
    var cfg := Config(ChunkInfo(1, 1459, 10, 869), src, before, []);
    U64Length(14000);
    assert Pow256(1) == 256;
    assert IsInfoFor(cfg.info, 14000);
    LoginIndexOfOneByte(cfg);
    LoginEndsUpload(cfg);
  }
}
