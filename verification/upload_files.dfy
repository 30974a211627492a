/** What the server's file holds in every run of the v1 upload, whatever a repeated Login did. */
module UploadFiles {
  import opened Varints
  import opened Geometry
  import opened Upload

  // ---------------------------------------------------------------- what was accepted

  /** For each chunk the data of the packet that was accepted and written for it. */
  type Accepted = map<nat, seq<byte>>

  function Accept(acc: Accepted, sv: Server, sv': Server): Accepted {
    if !sv.phase.Writing? && sv'.phase.Writing? then acc[sv'.phase.index := sv'.phase.payload] else acc
  }

  function AcceptedIn(cfg: Config, steps: seq<Step>): Accepted
    requires Exec(cfg, steps).Some?
  {
    if steps == [] then map[]
    else
      var before := steps[..|steps| - 1];
      Accept(AcceptedIn(cfg, before), Exec(cfg, before).value.server, Exec(cfg, steps).value.server)
  }

  /** The data of chunk `i` of the source, or of a Login that is read as chunk `i`. */
  ghost predicate DataOf(cfg: Config, i: nat, data: seq<byte>)
    requires cfg.Valid()
  {
    && i < cfg.info.numChunks
    && (IsSourceChunk(cfg, i, data) || (i == LoginIndex(cfg) && data == LoginData(cfg)))
  }

  ghost predicate IsSourceChunk(cfg: Config, i: nat, data: seq<byte>)
    requires cfg.Valid() && i < cfg.info.numChunks
  {
    RegionInFile(cfg.info, |cfg.src|, i);
    data == cfg.src[Start(cfg.info, i)..End(cfg.info, i)]
  }

  /** The region of chunk `i` holds `data`, and beyond its end what the file held before. */
  ghost predicate Overlaid(cfg: Config, file: seq<byte>, i: nat, data: seq<byte>)
    requires cfg.Valid() && |file| >= |cfg.src| && i < cfg.info.numChunks
  {
    RegionInFile(cfg.info, |cfg.src|, i);
    forall p :: Start(cfg.info, i) <= p < End(cfg.info, i) ==>
      file[p] == if p - Start(cfg.info, i) < |data| then data[p - Start(cfg.info, i)] else cfg.before[p]
  }

  /** What has landed of chunk `i`: all of it, the part that is written, or nothing. */
  function Landed(sv: Server, acc: Accepted, i: nat): seq<byte>
    requires sv.phase.Writing? ==> sv.phase.done <= |sv.phase.payload|
  {
    if i < |sv.bits| && sv.bits[i] then (if i in acc then acc[i] else [])
    else if sv.phase.Writing? && sv.phase.index == i then sv.phase.payload[..sv.phase.done]
    else []
  }

  ghost predicate FileInv(cfg: Config, sv: Server, acc: Accepted)
    requires cfg.Valid()
  {
    && |sv.bits| == cfg.info.numChunks && |sv.file| >= |cfg.src|
    && (sv.phase.Writing? ==> PhaseInv(sv, acc))
    && (forall i :: 0 <= i < |sv.bits| && sv.bits[i] ==> i in acc)
    && (forall i :: i in acc ==> DataOf(cfg, i, acc[i]))
    && (forall i :: 0 <= i < |sv.bits| ==> Overlaid(cfg, sv.file, i, Landed(sv, acc, i)))
  }

  predicate PhaseInv(sv: Server, acc: Accepted)
    requires sv.phase.Writing?
  {
    var w := sv.phase;
    w.index < |sv.bits| && !sv.bits[w.index] && w.done <= |w.payload| && w.index in acc && acc[w.index] == w.payload
  }

  // ---------------------------------------------------------------- every step

  /** Neither a chunk of the source nor the Login is longer than a chunk. */
  lemma {:induction false} DataFits(cfg: Config, i: nat, data: seq<byte>)
    requires cfg.Valid() && DataOf(cfg, i, data)
    ensures |data| <= cfg.info.chunkSize
  {
    RegionInFile(cfg.info, |cfg.src|, i);
  }

  /** A packet in flight that is accepted carries the data of its chunk, or is the Login. */
  lemma {:induction false} PacketData(cfg: Config, s: State, p: seq<byte>)
    requires cfg.Valid() && TrafficInv(cfg, s) && p in s.toServer
    ensures ChunkDecode(p, cfg.info.indexFieldSize).Some?
    ensures var (i, data) := ChunkDecode(p, cfg.info.indexFieldSize).value;
            i < cfg.info.numChunks ==> DataOf(cfg, i, data)
  {
    LoginDecodes(cfg);
    if p != cfg.LoginPacket() {
      if i :| 0 <= i < cfg.info.numChunks && IsChunk(cfg, i, p) {
        RegionInFile(cfg.info, |cfg.src|, i);
        DecodeKnown(cfg, i, cfg.src[Start(cfg.info, i)..End(cfg.info, i)]);
      } else {
        assert p + [] == p;
        DecodeKnown(cfg, cfg.info.numChunks, []);
      }
    }
  }

  /** A packet is accepted: nothing of it has landed yet. */
  lemma {:induction false} AcceptKeeps(cfg: Config, sv: Server, acc: Accepted, sv': Server)
    requires cfg.Valid() && FileInv(cfg, sv, acc) && !sv.phase.Writing?
    requires sv'.bits == sv.bits && sv'.file == sv.file
    requires sv'.phase.Writing? ==>
               && sv'.phase.index < |sv.bits| && !sv.bits[sv'.phase.index] && sv'.phase.done == 0
               && DataOf(cfg, sv'.phase.index, sv'.phase.payload)
    ensures FileInv(cfg, sv', Accept(acc, sv, sv'))
  {
    var acc' := Accept(acc, sv, sv');
    forall i | 0 <= i < |sv.bits| ensures Overlaid(cfg, sv'.file, i, Landed(sv', acc', i)) {
      assert Landed(sv', acc', i) == Landed(sv, acc, i);
    }
  }

  lemma {:induction false} ReceiveFile(cfg: Config, s: State, acc: Accepted, p: seq<byte>, gap: nat)
    requires cfg.Valid() && TrafficInv(cfg, s) && FileInv(cfg, s.server, acc) && p in s.toServer
    requires !s.server.phase.Writing? && Receive(cfg.info, s.server, p, gap).Some?
    ensures var sv' := Receive(cfg.info, s.server, p, gap).value; FileInv(cfg, sv', Accept(acc, s.server, sv'))
  {
    PacketData(cfg, s, p);
    AcceptKeeps(cfg, s.server, acc, Receive(cfg.info, s.server, p, gap).value);
  }

  lemma {:induction false} WrittenBytes(file: seq<byte>, pos: nat, data: seq<byte>)
    ensures |WriteAt(file, pos, data)| >= |file|
    ensures forall p :: 0 <= p < |file| ==>
              WriteAt(file, pos, data)[p] == if pos <= p < pos + |data| then data[p - pos] else file[p]
  {
  }

  /** All of a written file: the data where it was written, zeroes in a gap before it, and what was there
      before everywhere else. */
  lemma {:induction false} WrittenFile(file: seq<byte>, pos: nat, data: seq<byte>)
    ensures var r := WriteAt(file, pos, data);
            && |r| == (if data != [] && pos + |data| > |file| then pos + |data| else |file|)
            && forall p :: 0 <= p < |r| ==>
                 r[p] == if pos <= p < pos + |data| then data[p - pos] else if p < |file| then file[p] else 0
  {
  }

  /** A write of no more than a chunk, from the start of chunk `w`, touches no other region. */
  lemma {:induction false} OthersKept(
      cfg: Config, file: seq<byte>, w: nat, pos: nat, data: seq<byte>, i: nat, landed: seq<byte>)
    requires cfg.Valid() && |file| >= |cfg.src| && w < cfg.info.numChunks && i < cfg.info.numChunks && i != w
    requires Start(cfg.info, w) <= pos && pos + |data| <= Start(cfg.info, w) + cfg.info.chunkSize
    requires Overlaid(cfg, file, i, landed)
    ensures |WriteAt(file, pos, data)| >= |cfg.src| && Overlaid(cfg, WriteAt(file, pos, data), i, landed)
  {
    RegionInFile(cfg.info, |cfg.src|, i);
    if i < w {
      RegionsApart(cfg.info, |cfg.src|, i, w);
    } else {
      NextMultiple(w, i, cfg.info.chunkSize);
    }
    WrittenBytes(file, pos, data);
  }

  /** Bytes written behind those of `payload` that are there already. */
  lemma {:induction false} OverlayGrows(
      file: seq<byte>, before: seq<byte>, a: nat, b: nat, payload: seq<byte>, done: nat, k: nat)
    requires b <= |file| && b <= |before| && done + k <= |payload|
    requires forall p :: a <= p < b ==> file[p] == if p - a < done then payload[p - a] else before[p]
    ensures var file' := WriteAt(file, a + done, payload[done..done + k]);
            && |file'| >= |file|
            && forall p :: a <= p < b ==> file'[p] == if p - a < done + k then payload[p - a] else before[p]
  {
    WrittenBytes(file, a + done, payload[done..done + k]);
  }

  /** The next bytes of chunk `w` land behind those that have. */
  lemma {:induction false} OwnGrows(
      cfg: Config, file: seq<byte>, w: nat, payload: seq<byte>, done: nat, k: nat)
    requires cfg.Valid() && |file| >= |cfg.src| && w < cfg.info.numChunks && done + k <= |payload|
    requires Overlaid(cfg, file, w, payload[..done])
    ensures var file' := WriteAt(file, Start(cfg.info, w) + done, payload[done..done + k]);
            |file'| >= |cfg.src| && Overlaid(cfg, file', w, payload[..done + k])
  {
    RegionInFile(cfg.info, |cfg.src|, w);
    OverlayGrows(file, cfg.before, Start(cfg.info, w), End(cfg.info, w), payload, done, k);
  }

  lemma {:induction false} WriteOwn(cfg: Config, sv: Server, acc: Accepted, k: nat)
    requires cfg.Valid() && |sv.bits| == cfg.info.numChunks && |sv.file| >= |cfg.src|
    requires sv.phase.Writing? && PhaseInv(sv, acc) && sv.phase.done + k <= |sv.phase.payload|
    requires Overlaid(cfg, sv.file, sv.phase.index, sv.phase.payload[..sv.phase.done])
    ensures var sv' := WriteSome(cfg.info, sv, k);
            && |sv'.file| >= |cfg.src|
            && Landed(sv', acc, sv.phase.index) == sv.phase.payload[..sv.phase.done + k]
            && Overlaid(cfg, sv'.file, sv.phase.index, sv.phase.payload[..sv.phase.done + k])
  {
    OwnGrows(cfg, sv.file, sv.phase.index, sv.phase.payload, sv.phase.done, k);
  }

  lemma {:induction false} WriteOther(cfg: Config, sv: Server, k: nat, i: nat, landed: seq<byte>)
    requires cfg.Valid() && |sv.file| >= |cfg.src| && i < cfg.info.numChunks
    requires sv.phase.Writing? && sv.phase.index < cfg.info.numChunks && i != sv.phase.index
    requires sv.phase.done + k <= |sv.phase.payload| <= cfg.info.chunkSize
    requires Overlaid(cfg, sv.file, i, landed)
    ensures var sv' := WriteSome(cfg.info, sv, k); |sv'.file| >= |cfg.src| && Overlaid(cfg, sv'.file, i, landed)
  {
    var w := sv.phase;
    var data := w.payload[w.done..w.done + k];
    OthersKept(cfg, sv.file, w.index, Start(cfg.info, w.index) + w.done, data, i, landed);
  }

  lemma {:induction false} WriteFile(cfg: Config, sv: Server, acc: Accepted, k: nat)
    requires cfg.Valid() && FileInv(cfg, sv, acc) && sv.phase.Writing? && sv.phase.done + k <= |sv.phase.payload|
    ensures FileInv(cfg, WriteSome(cfg.info, sv, k), acc)
  {
    var w, sv' := sv.phase, WriteSome(cfg.info, sv, k);
    DataFits(cfg, w.index, acc[w.index]);
    assert Overlaid(cfg, sv.file, w.index, Landed(sv, acc, w.index));
    WriteOwn(cfg, sv, acc, k);
    forall i | 0 <= i < |sv.bits| ensures Overlaid(cfg, sv'.file, i, Landed(sv', acc, i)) {
      if i != w.index {
        WriteOther(cfg, sv, k, i, Landed(sv, acc, i));
      }
    }
  }

  lemma {:induction false} FinishFile(cfg: Config, sv: Server, acc: Accepted)
    requires cfg.Valid() && FileInv(cfg, sv, acc) && sv.phase.Writing? && sv.phase.done == |sv.phase.payload|
    ensures FileInv(cfg, FinishWrite(sv), acc)
  {
    var w, sv' := sv.phase, FinishWrite(sv);
    assert w.payload[..w.done] == w.payload;
    forall i | 0 <= i < |sv.bits| ensures Overlaid(cfg, sv'.file, i, Landed(sv', acc, i)) {
      assert Landed(sv', acc, i) == Landed(sv, acc, i);
    }
  }

  lemma {:induction false} FileStep(cfg: Config, s: State, acc: Accepted, step: Step)
    requires cfg.Valid() && TrafficInv(cfg, s) && FileInv(cfg, s.server, acc) && Apply(cfg, s, step).Some?
    ensures var sv' := Apply(cfg, s, step).value.server; FileInv(cfg, sv', Accept(acc, s.server, sv'))
  {
    match step
    case ServerReceive(p, gap) => ReceiveFile(cfg, s, acc, p, gap);
    case ServerWrite(k) => WriteFile(cfg, s.server, acc, k);
    case ServerFinish => FinishFile(cfg, s.server, acc);
    case _ => SameFile(cfg, s.server, acc, Apply(cfg, s, step).value.server);
  }

  lemma {:induction false} SameFile(cfg: Config, sv: Server, acc: Accepted, sv': Server)
    requires cfg.Valid() && FileInv(cfg, sv, acc)
    requires sv'.bits == sv.bits && sv'.file == sv.file && sv'.phase == sv.phase
    ensures FileInv(cfg, sv', acc)
  {
    forall i | 0 <= i < |sv.bits| ensures Overlaid(cfg, sv'.file, i, Landed(sv', acc, i)) {
      assert Landed(sv', acc, i) == Landed(sv, acc, i);
    }
  }

  lemma {:induction false} FileRun(cfg: Config, steps: seq<Step>)
    requires cfg.Valid() && Exec(cfg, steps).Some?
    ensures FileInv(cfg, Exec(cfg, steps).value.server, AcceptedIn(cfg, steps))
  {
    if steps != [] {
      var before := steps[..|steps| - 1];
      FileRun(cfg, before);
      TrafficRun(cfg, before);
      FileStep(cfg, Exec(cfg, before).value, AcceptedIn(cfg, before), steps[|steps| - 1]);
    }
  }

  // ---------------------------------------------------------------- the theorems

  lemma {:induction false} RegionOfInv(cfg: Config, sv: Server, acc: Accepted, i: nat)
    requires cfg.Valid() && FileInv(cfg, sv, acc) && i < cfg.info.numChunks && sv.bits[i]
    ensures i in acc && DataOf(cfg, i, acc[i]) && Overlaid(cfg, sv.file, i, acc[i])
  {
    assert Landed(sv, acc, i) == acc[i];
  }

  /** In every run the region of a received chunk holds the data of the one packet that was accepted
      for it, over the old file, and that was a chunk of the source or the Login. */
  lemma {:induction false} ReceivedRegion(cfg: Config, steps: seq<Step>, i: nat)
    requires cfg.Valid() && Exec(cfg, steps).Some? && i < cfg.info.numChunks
    ensures var (sv, acc) := (Exec(cfg, steps).value.server, AcceptedIn(cfg, steps));
            && |sv.bits| == cfg.info.numChunks && |sv.file| >= |cfg.src|
            && (sv.bits[i] ==> i in acc && DataOf(cfg, i, acc[i]) && Overlaid(cfg, sv.file, i, acc[i]))
  {
    FileRun(cfg, steps);
    var sv := Exec(cfg, steps).value.server;
    if sv.bits[i] {
      RegionOfInv(cfg, sv, AcceptedIn(cfg, steps), i);
    }
  }

  lemma {:induction false} SameSlice(file: seq<byte>, src: seq<byte>, a: nat, b: nat)
    requires a <= b <= |src| <= |file| && forall p :: a <= p < b ==> file[p] == src[a..b][p - a]
    ensures file[a..b] == src[a..b]
  {
  }

  lemma {:induction false} SourceRegion(cfg: Config, file: seq<byte>, i: nat, data: seq<byte>)
    requires cfg.Valid() && |file| >= |cfg.src| && i < cfg.info.numChunks
    requires IsSourceChunk(cfg, i, data) && Overlaid(cfg, file, i, data)
    ensures RegionOk(cfg, file, i)
  {
    RegionInFile(cfg.info, |cfg.src|, i);
    var a, b := Start(cfg.info, i), End(cfg.info, i);
    assert |data| == b - a;
    SameSlice(file, cfg.src, a, b);
  }

  /** In every run, misread Logins included, each received chunk's region of the file equals the
      source's, but for the chunk that the Login stands for; and for that one in every clean run. */
  lemma {:induction false} ReceivedChunksAreCorrect(cfg: Config, steps: seq<Step>, i: nat)
    requires cfg.Valid() && Exec(cfg, steps).Some? && i < cfg.info.numChunks
    requires i != LoginIndex(cfg) || CleanRun(cfg, steps)
    ensures var sv := Exec(cfg, steps).value.server;
            |sv.bits| == cfg.info.numChunks && |sv.file| >= |cfg.src| && (sv.bits[i] ==> RegionOk(cfg, sv.file, i))
  {
    ReceivedRegion(cfg, steps, i);
    if i != LoginIndex(cfg) {
      var sv := Exec(cfg, steps).value.server;
      if sv.bits[i] {
        SourceRegion(cfg, sv.file, i, AcceptedIn(cfg, steps)[i]);
      }
    } else {
      RunInv(cfg, steps);
    }
  }

  /** The Login's bytes over the old file happen to be what the source has there. */
  ghost predicate LoginAgrees(cfg: Config)
    requires cfg.Valid() && LoginIndex(cfg) < cfg.info.numChunks
  {
    RegionInFile(cfg.info, |cfg.src|, LoginIndex(cfg));
    Overlaid(cfg, cfg.src, LoginIndex(cfg), LoginData(cfg))
  }

  lemma {:induction false} OverlaidAgree(cfg: Config, file: seq<byte>, i: nat, data: seq<byte>)
    requires cfg.Valid() && |file| >= |cfg.src| && i < cfg.info.numChunks && Overlaid(cfg, file, i, data)
    ensures RegionOk(cfg, file, i) <==> Overlaid(cfg, cfg.src, i, data)
  {
    RegionInFile(cfg.info, |cfg.src|, i);
    var a, b := Start(cfg.info, i), End(cfg.info, i);
    if RegionOk(cfg, file, i) {
      forall p | a <= p < b ensures file[p] == cfg.src[p] {
        assert file[a..b][p - a] == cfg.src[a..b][p - a];
      }
    }
    if Overlaid(cfg, cfg.src, i, data) {
      assert file[a..b] == cfg.src[a..b];
    }
  }

  /** In every run the chunk that the Login stands for, once received, is right exactly when the packet
      accepted for it was the source's, or the Login's bytes happen to agree with the source. */
  lemma {:induction false} LoginChunkIff(cfg: Config, steps: seq<Step>)
    requires cfg.Valid() && Exec(cfg, steps).Some? && LoginIndex(cfg) < cfg.info.numChunks
    requires |Exec(cfg, steps).value.server.bits| == cfg.info.numChunks
    requires Exec(cfg, steps).value.server.bits[LoginIndex(cfg)]
    ensures var (sv, i) := (Exec(cfg, steps).value.server, LoginIndex(cfg));
            && i in AcceptedIn(cfg, steps) && |sv.file| >= |cfg.src|
            && (RegionOk(cfg, sv.file, i) <==> IsSourceChunk(cfg, i, AcceptedIn(cfg, steps)[i]) || LoginAgrees(cfg))
  {
    var sv, i := Exec(cfg, steps).value.server, LoginIndex(cfg);
    ReceivedRegion(cfg, steps, i);
    var data := AcceptedIn(cfg, steps)[i];
    if IsSourceChunk(cfg, i, data) {
      SourceRegion(cfg, sv.file, i, data);
    } else {
      OverlaidAgree(cfg, sv.file, i, data);
    }
  }
}
