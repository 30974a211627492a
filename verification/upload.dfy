/** The v1 upload as a step system: a client with its missing-range cursor, a server receiver with
    its bitmap and file, a status sender, and a network that may lose, duplicate and reorder. */
module Upload {
  import opened Varints
  import opened Ranges
  import opened Runs
  import opened BitMaps
  import opened StatusUpdates
  import opened Geometry
  import opened Congestion
  import opened Logins

  // ---------------------------------------------------------------- server

  datatype Phase =
    | Waiting
    | Writing(index: nat, payload: seq<byte>, done: nat)  // `done` bytes reached the file
    | Shutdown

  datatype Server = Server(
    bits: seq<bool>,
    file: seq<byte>,
    phase: Phase,
    bitmapFile: bool,  // the bitmap file still exists
    notified: nat,     // status updates triggered by the power-of-two rule
    due: nat,          // triggered status updates that are still to be sent
    meter: Meter)

  predicate All(bits: seq<bool>) { forall i :: 0 <= i < |bits| ==> bits[i] }

  /** Positioned write; a gap before `pos` is filled with zeroes. */
  function WriteAt(file: seq<byte>, pos: nat, data: seq<byte>): (r: seq<byte>)
    ensures pos + |data| <= |file| ==> r == file[..pos] + data + file[pos + |data|..]
  {
    if data == [] then file
    else
      var padded := if pos <= |file| then file else file + seq(pos - |file|, _ => 0);
      padded[..pos] + data + if pos + |data| < |padded| then padded[pos + |data|..] else []
  }

  function IsPowerOfTwo(n: nat): bool { n == 1 || (n > 0 && n % 2 == 0 && IsPowerOfTwo(n / 2)) }

  function Notifies(zeroes: nat): bool { zeroes == 0 || IsPowerOfTwo(zeroes) }

  /** One datagram, `gap` after the last chunk, while no write is in progress. `None` is a panic: a
      packet without an index, an average that underflows, or an index beyond the FIN's. */
  function Receive(info: ChunkInfo, s: Server, packet: seq<byte>, gap: nat): (r: Option<Server>)
    requires !s.phase.Writing? && |s.bits| == info.numChunks
  {
    if s.phase.Shutdown? then Some(s)
    else
      match ChunkDecode(packet, info.indexFieldSize)
      case None => None
      case Some((index, data)) =>
        if index == info.numChunks then
          Some(s.(phase := Shutdown, bitmapFile := s.bitmapFile && !All(s.bits)))
        else
          match Tick(s.meter, gap)
          case None => None
          case Some(meter) =>
            if index > info.numChunks then None
            else if s.bits[index] then Some(s.(meter := meter))
            else Some(s.(meter := meter, phase := Writing(index, data, 0)))
  }

  /** `write_all` makes progress by `k` bytes. */
  function WriteSome(info: ChunkInfo, s: Server, k: nat): Server
    requires s.phase.Writing? && s.phase.done + k <= |s.phase.payload|
  {
    var w := s.phase;
    s.(file := WriteAt(s.file, Start(info, w.index) + w.done, w.payload[w.done..w.done + k]),
       phase := w.(done := w.done + k))
  }

  /** The write is complete: the bit is set, and the power-of-two rule consulted. */
  function FinishWrite(s: Server): Server
    requires s.phase.Writing? && s.phase.index < |s.bits|
  {
    var bits := s.bits[s.phase.index := true];
    var fired := if Notifies(ZeroCount(bits)) then 1 else 0;
    s.(bits := bits, phase := Waiting, notified := s.notified + fired, due := s.due + fired)
  }

  // ---------------------------------------------------------------- client

  /** `sending` is the chunk being read and sent; `None` is the client sleeping until an update. */
  datatype Client = Client(missing: seq<Range>, cursor: nat, sending: Option<nat>, finished: bool)

  function DoChunk(c: Client): Client {
    match NextMissing(c.missing, c.cursor)
    case None => c.(sending := None)
    case Some(x) => c.(sending := Some(x), cursor := x + 1)
  }

  /** A status update; `None` is a panic of the decoder. */
  function OnStatus(c: Client, update: seq<byte>): (r: Option<Client>) {
    match DecodeRanges(update)
    case None => None
    case Some(rs) =>
      var c' := c.(missing := rs, cursor := 0);
      if rs == [] then Some(c'.(finished := true))
      else if c.sending.None? then Some(DoChunk(c'))
      else Some(c')
  }

  function ChunkPacket(info: ChunkInfo, src: seq<byte>, i: nat): seq<byte>
    requires End(info, i) <= |src|
  {
    LittleEndian(i, info.indexFieldSize) + src[Start(info, i)..End(info, i)]
  }

  function FinPacket(info: ChunkInfo): seq<byte> { LittleEndian(info.numChunks, info.indexFieldSize) }

  // ---------------------------------------------------------------- the system

  /** A fresh upload: the file may have old contents but has already been set to its length. The
      Login that started it fits a datagram buffer. */
  datatype Config = Config(info: ChunkInfo, src: seq<byte>, before: seq<byte>, path: seq<byte>) {
    ghost predicate Valid() {
      |src| < U64_LIMIT && IsInfoFor(info, |src|) && |before| == |src| && |LoginPacket()| <= MTU
    }

    function LoginPacket(): (r: seq<byte>)
      ensures |r| >= 14
    {
      EncodeLogin(Login(TOKEN, path, |src|))
    }
  }

  /** The network is the set of datagrams ever sent: each may be delivered never, once or often. The
      first is the Login, which a server that has connected its socket takes for a chunk. */
  datatype State = State(client: Client, server: Server, toServer: set<seq<byte>>, toClient: set<seq<byte>>)

  datatype Step =
    | ClientSend
    | ClientReceive(update: seq<byte>)
    | ServerReceive(packet: seq<byte>, gap: nat)
    | ServerWrite(k: nat)
    | ServerFinish
    | SendStatus

  function Init(cfg: Config): State {
    State(
      Client([], 0, None, false),
      Server(seq(cfg.info.numChunks, _ => false), cfg.before, Waiting, true, 0, 1, Meter(false, NONE_YET)),
      {cfg.LoginPacket()}, {})
  }

  /** A status update is sent when one is due, and by the timer: that exists from the first gap on and
      stops with the FIN. */
  predicate MaySend(sv: Server) { sv.due > 0 || (sv.meter.avg.gaps != [] && !sv.phase.Shutdown?) }

  /** One step, or `None` when it is not enabled. */
  function Apply(cfg: Config, s: State, step: Step): (r: Option<State>) {
    var c, sv := s.client, s.server;
    match step
    case ClientSend =>
      if c.finished || c.sending.None? || End(cfg.info, c.sending.value) > |cfg.src| then None
      else Some(s.(client := DoChunk(c), toServer := s.toServer + {ChunkPacket(cfg.info, cfg.src, c.sending.value)}))
    case ClientReceive(update) =>
      if c.finished || update !in s.toClient || OnStatus(c, update).None? then None
      else
        var c' := OnStatus(c, update).value;
        Some(s.(client := c', toServer := s.toServer + if c'.finished then {FinPacket(cfg.info)} else {}))
    case ServerReceive(packet, gap) =>
      if sv.phase.Writing? || packet !in s.toServer || |sv.bits| != cfg.info.numChunks
         || Receive(cfg.info, sv, packet, gap).None? then None
      else Some(s.(server := Receive(cfg.info, sv, packet, gap).value))
    case ServerWrite(k) =>
      if !sv.phase.Writing? || sv.phase.done + k > |sv.phase.payload| then None
      else Some(s.(server := WriteSome(cfg.info, sv, k)))
    case ServerFinish =>
      if !sv.phase.Writing? || sv.phase.done != |sv.phase.payload| || sv.phase.index >= |sv.bits| then None
      else Some(s.(server := FinishWrite(sv)))
    case SendStatus =>
      if !MaySend(sv) then None
      else
        Some(s.(server := sv.(due := if sv.due > 0 then sv.due - 1 else 0),
                toClient := s.toClient + {StatusBytes(sv.bits, MTU)}))
  }

  /** The state after a whole run, `None` when some step of it was not enabled. */
  function Exec(cfg: Config, steps: seq<Step>): (r: Option<State>) {
    if steps == [] then Some(Init(cfg))
    else
      match Exec(cfg, steps[..|steps| - 1])
      case None => None
      case Some(s) => Apply(cfg, s, steps[|steps| - 1])
  }

  // ---------------------------------------------------------------- what every step keeps

  /** `a` has no bit that `b` lacks. */
  predicate Below(a: seq<bool>, b: seq<bool>) {
    |a| == |b| && forall i :: 0 <= i < |a| ==> a[i] ==> b[i]
  }

  ghost predicate RegionOk(cfg: Config, file: seq<byte>, i: nat)
    requires cfg.Valid() && |file| >= |cfg.src| && i < cfg.info.numChunks
  {
    RegionInFile(cfg.info, |cfg.src|, i);
    file[Start(cfg.info, i)..End(cfg.info, i)] == cfg.src[Start(cfg.info, i)..End(cfg.info, i)]
  }

  ghost predicate ServerInv(cfg: Config, sv: Server)
    requires cfg.Valid()
  {
    && |sv.bits| == cfg.info.numChunks
    && |sv.file| == |cfg.src|
    && (forall i :: 0 <= i < |sv.bits| ==> sv.bits[i] ==> RegionOk(cfg, sv.file, i))
    && (forall p :: TiledLength(cfg.info) <= p < |sv.file| ==> sv.file[p] == cfg.before[p])
    && (sv.phase.Shutdown? ==> All(sv.bits) && !sv.bitmapFile)
    && (sv.phase.Writing? ==> WritingInv(cfg, sv))
    && MeterOk(sv.meter)
  }

  ghost predicate WritingInv(cfg: Config, sv: Server)
    requires cfg.Valid() && |sv.bits| == cfg.info.numChunks && |sv.file| == |cfg.src|
    requires sv.phase.Writing?
  {
    var w := sv.phase;
    && w.index < |sv.bits| && !sv.bits[w.index]
    && w.done <= |w.payload|
    && End(cfg.info, w.index) <= TiledLength(cfg.info) <= |cfg.src|
    && w.payload == cfg.src[Start(cfg.info, w.index)..End(cfg.info, w.index)]
    && sv.file[Start(cfg.info, w.index)..Start(cfg.info, w.index) + w.done] == w.payload[..w.done]
  }

  /** A datagram to the server is a chunk of the source, or the FIN and then nothing is missing. */
  ghost predicate KnownPacket(cfg: Config, bits: seq<bool>, p: seq<byte>)
    requires cfg.Valid()
  {
    || (p == FinPacket(cfg.info) && All(bits))
    || exists i :: 0 <= i < cfg.info.numChunks && IsChunk(cfg, i, p)
  }

  ghost predicate IsChunk(cfg: Config, i: nat, p: seq<byte>)
    requires cfg.Valid() && i < cfg.info.numChunks
  {
    RegionInFile(cfg.info, |cfg.src|, i);
    p == ChunkPacket(cfg.info, cfg.src, i)
  }

  /** An update was made from this bitmap or from an earlier state of it. */
  ghost predicate KnownUpdate(bits: seq<bool>, u: seq<byte>) {
    exists b :: Below(b, bits) && u == StatusBytes(b, MTU)
  }

  ghost predicate ClientInv(cfg: Config, c: Client, bits: seq<bool>) {
    && Ordered(c.missing)
    && Within(c.missing, 0, cfg.info.numChunks)
    && (c.sending.Some? ==> c.sending.value < cfg.info.numChunks)
    && (c.finished ==> All(bits))
  }

  /** While nothing is due some update is on its way, and with a full bitmap one that says so. */
  ghost predicate UpdatesInv(sv: Server, toClient: set<seq<byte>>) {
    && (sv.due == 0 ==> toClient != {})
    && (sv.due == 0 && All(sv.bits) ==> StatusBytes(sv.bits, MTU) in toClient)
  }

  /** What is on its way, and what the client makes of it. True of every run, whatever a Login does. */
  ghost predicate TrafficInv(cfg: Config, s: State)
    requires cfg.Valid()
  {
    && |s.server.bits| == cfg.info.numChunks
    && ClientInv(cfg, s.client, s.server.bits)
    && (forall p :: p in s.toServer ==> p == cfg.LoginPacket() || KnownPacket(cfg, s.server.bits, p))
    && (forall u :: u in s.toClient ==> KnownUpdate(s.server.bits, u))
    && (s.client.finished ==> FinPacket(cfg.info) in s.toServer)
    && UpdatesInv(s.server, s.toClient)
  }

  ghost predicate Inv(cfg: Config, s: State)
    requires cfg.Valid()
  {
    ServerInv(cfg, s.server) && TrafficInv(cfg, s)
  }

  // ---------------------------------------------------------------- a Login that arrives again

  /** The index that the receiver reads in the Login. */
  function LoginIndex(cfg: Config): nat
    requires cfg.info.indexFieldSize <= 14
  {
    FromLittleEndian(cfg.LoginPacket()[..cfg.info.indexFieldSize])
  }

  function LoginData(cfg: Config): seq<byte>
    requires cfg.info.indexFieldSize <= 14
  {
    cfg.LoginPacket()[cfg.info.indexFieldSize..]
  }

  /** A repeated Login does no harm: it is ignored, carries just what its index stands for, or ends
      an upload that is complete. */
  ghost predicate LoginHarmless(cfg: Config, sv: Server)
    requires cfg.Valid() && |sv.bits| == cfg.info.numChunks
  {
    var i := LoginIndex(cfg);
    sv.phase.Waiting? ==>
      if i < cfg.info.numChunks then sv.bits[i] || LoginCarries(cfg, i) else i == cfg.info.numChunks && All(sv.bits)
  }

  ghost predicate LoginCarries(cfg: Config, i: nat)
    requires cfg.Valid() && i < cfg.info.numChunks
  {
    RegionInFile(cfg.info, |cfg.src|, i);
    LoginData(cfg) == cfg.src[Start(cfg.info, i)..End(cfg.info, i)]
  }

  /** A step other than the delivery of a Login that does harm. */
  ghost predicate Clean(cfg: Config, s: State, step: Step)
    requires cfg.Valid()
  {
    step.ServerReceive? && step.packet == cfg.LoginPacket() && |s.server.bits| == cfg.info.numChunks ==>
      LoginHarmless(cfg, s.server)
  }

  ghost predicate CleanRun(cfg: Config, steps: seq<Step>)
    requires cfg.Valid()
  {
    steps == [] ||
    var before := steps[..|steps| - 1];
    CleanRun(cfg, before) && (Exec(cfg, before).Some? ==> Clean(cfg, Exec(cfg, before).value, steps[|steps| - 1]))
  }

  /** How many of the zero counts `n-1, n-2, ..., z` notify. */
  function Fired(n: nat, z: nat): nat
    decreases n - z
  {
    if z >= n then 0 else Fired(n, z + 1) + if Notifies(z) then 1 else 0
  }

  // ---------------------------------------------------------------- the proof

  lemma {:induction false} InfoBounds(cfg: Config)
    requires cfg.Valid()
    ensures cfg.info.numChunks < Pow256(cfg.info.indexFieldSize)
    ensures cfg.info.numChunks < U64_LIMIT
  {
    ShiftFits(cfg.info.indexFieldSize);
  }

  lemma {:induction false} InitInv(cfg: Config)
    requires cfg.Valid()
    ensures Inv(cfg, Init(cfg))
  {
    assert AddAll([]) == Some(NONE_YET);
  }

  // -- the client

  lemma {:induction false} DoChunkInv(cfg: Config, c: Client, bits: seq<bool>)
    requires ClientInv(cfg, c, bits)
    ensures ClientInv(cfg, DoChunk(c), bits)
  {
    NextIsLeast(c.missing, c.cursor);
  }

  /** Whatever update arrives, however old: the client does not panic, and it finishes only when
      the server has everything. */
  lemma {:induction false} OnStatusInv(cfg: Config, c: Client, bits: seq<bool>, u: seq<byte>)
    requires cfg.Valid() && ClientInv(cfg, c, bits) && |bits| == cfg.info.numChunks
    requires KnownUpdate(bits, u)
    ensures OnStatus(c, u).Some? && ClientInv(cfg, OnStatus(c, u).value, bits)
  {
    var b :| Below(b, bits) && u == StatusBytes(b, MTU);
    InfoBounds(cfg);
    DecodedIsOrdered(b, MTU);
    StatusEmptyIffComplete(b, MTU);
    var c' := c.(missing := DecodeRanges(u).value, cursor := 0);
    if c'.missing != [] && c.sending.None? {
      DoChunkInv(cfg, c', bits);
    }
  }

  // -- the server

  lemma {:induction false} DecodeKnown(cfg: Config, i: nat, data: seq<byte>)
    requires cfg.Valid() && i <= cfg.info.numChunks
    ensures ChunkDecode(LittleEndian(i, cfg.info.indexFieldSize) + data, cfg.info.indexFieldSize) == Some((i, data))
  {
    InfoBounds(cfg);
    ChunkRoundTrip(i, cfg.info.indexFieldSize, data);
  }

  lemma {:induction false} LoginDecodes(cfg: Config)
    requires cfg.Valid()
    ensures ChunkDecode(cfg.LoginPacket(), cfg.info.indexFieldSize) == Some((LoginIndex(cfg), LoginData(cfg)))
  {
  }

  /** The next chunk makes the average underflow. */
  predicate Stuck(m: Meter) { m.started && Underflows(m.avg) }

  /** Receiving chunk `i` of the source, first or again: a panic exactly when the average underflows. */
  lemma {:induction false} ReceiveChunk(cfg: Config, sv: Server, p: seq<byte>, gap: nat, i: nat)
    requires cfg.Valid() && ServerInv(cfg, sv) && sv.phase.Waiting? && i < cfg.info.numChunks
    requires ChunkDecode(p, cfg.info.indexFieldSize).Some?
    requires ChunkDecode(p, cfg.info.indexFieldSize).value.0 == i
    requires var (a, b) := (Start(cfg.info, i), End(cfg.info, i));
             sv.bits[i] || (b <= |cfg.src| && ChunkDecode(p, cfg.info.indexFieldSize).value.1 == cfg.src[a..b])
    ensures Receive(cfg.info, sv, p, gap).None? <==> Stuck(sv.meter)
    ensures Receive(cfg.info, sv, p, gap).Some? ==>
              var sv' := Receive(cfg.info, sv, p, gap).value;
              && ServerInv(cfg, sv') && sv'.bits == sv.bits && sv'.due == sv.due
              && sv'.meter == Tick(sv.meter, gap).value
              && (sv'.phase.Waiting? <==> sv.bits[i]) && (!sv.bits[i] ==> sv'.phase.Writing? && sv'.phase.index == i)
  {
    TickPanicsIff(sv.meter, gap);
    if !Stuck(sv.meter) {
      TickOk(sv.meter, gap);
      RegionInFile(cfg.info, |cfg.src|, i);
    }
  }

  /** Receiving the FIN never touches the average. */
  lemma {:induction false} ReceiveFin(cfg: Config, sv: Server, p: seq<byte>, gap: nat)
    requires cfg.Valid() && ServerInv(cfg, sv) && sv.phase.Waiting? && All(sv.bits)
    requires ChunkDecode(p, cfg.info.indexFieldSize).Some?
    requires ChunkDecode(p, cfg.info.indexFieldSize).value.0 == cfg.info.numChunks
    ensures Receive(cfg.info, sv, p, gap) == Some(sv.(phase := Shutdown, bitmapFile := false))
    ensures ServerInv(cfg, sv.(phase := Shutdown, bitmapFile := false))
  {
  }

  /** A packet that stands for a chunk of the source, or ends a complete upload. */
  ghost predicate Sound(cfg: Config, sv: Server, p: seq<byte>)
    requires cfg.Valid() && |sv.bits| == cfg.info.numChunks
  {
    KnownPacket(cfg, sv.bits, p) || (p == cfg.LoginPacket() && LoginHarmless(cfg, sv))
  }

  lemma {:induction false} ReceiveKnown(cfg: Config, sv: Server, p: seq<byte>, gap: nat)
    requires cfg.Valid() && ServerInv(cfg, sv) && sv.phase.Waiting? && KnownPacket(cfg, sv.bits, p)
    ensures ChunkDecode(p, cfg.info.indexFieldSize).Some?
    ensures Receive(cfg.info, sv, p, gap).None? <==>
            Stuck(sv.meter) && ChunkDecode(p, cfg.info.indexFieldSize).value.0 != cfg.info.numChunks
    ensures Receive(cfg.info, sv, p, gap).Some? ==> ServerInv(cfg, Receive(cfg.info, sv, p, gap).value)
  {
    if p == FinPacket(cfg.info) && All(sv.bits) {
      assert p + [] == p;
      DecodeKnown(cfg, cfg.info.numChunks, []);
      ReceiveFin(cfg, sv, p, gap);
    } else {
      var i :| 0 <= i < cfg.info.numChunks && IsChunk(cfg, i, p);
      RegionInFile(cfg.info, |cfg.src|, i);
      DecodeKnown(cfg, i, cfg.src[Start(cfg.info, i)..End(cfg.info, i)]);
      ReceiveChunk(cfg, sv, p, gap, i);
    }
  }

  lemma {:induction false} ReceiveLogin(cfg: Config, sv: Server, gap: nat)
    requires cfg.Valid() && ServerInv(cfg, sv) && sv.phase.Waiting? && LoginHarmless(cfg, sv)
    ensures Receive(cfg.info, sv, cfg.LoginPacket(), gap).None? <==>
            Stuck(sv.meter) && LoginIndex(cfg) != cfg.info.numChunks
    ensures Receive(cfg.info, sv, cfg.LoginPacket(), gap).Some? ==>
            ServerInv(cfg, Receive(cfg.info, sv, cfg.LoginPacket(), gap).value)
  {
    LoginDecodes(cfg);
    var i := LoginIndex(cfg);
    if i == cfg.info.numChunks {
      ReceiveFin(cfg, sv, cfg.LoginPacket(), gap);
    } else {
      RegionInFile(cfg.info, |cfg.src|, i);
      ReceiveChunk(cfg, sv, cfg.LoginPacket(), gap, i);
    }
  }

  /** Every datagram this client ever sent, but for a harmful Login: received in any order and number
      it keeps the invariant, and panics exactly when it is not a FIN and the average underflows. */
  lemma {:induction false} ReceiveInv(cfg: Config, sv: Server, p: seq<byte>, gap: nat)
    requires cfg.Valid() && ServerInv(cfg, sv) && !sv.phase.Writing? && Sound(cfg, sv, p)
    ensures ChunkDecode(p, cfg.info.indexFieldSize).Some?
    ensures Receive(cfg.info, sv, p, gap).None? <==>
            && sv.phase.Waiting? && Stuck(sv.meter)
            && ChunkDecode(p, cfg.info.indexFieldSize).value.0 != cfg.info.numChunks
    ensures Receive(cfg.info, sv, p, gap).Some? ==> ServerInv(cfg, Receive(cfg.info, sv, p, gap).value)
  {
    LoginDecodes(cfg);
    if KnownPacket(cfg, sv.bits, p) {
      DecodesKnown(cfg, sv, p);
    }
    if sv.phase.Waiting? {
      if KnownPacket(cfg, sv.bits, p) {
        ReceiveKnown(cfg, sv, p, gap);
      } else {
        ReceiveLogin(cfg, sv, gap);
      }
    }
  }

  lemma {:induction false} DecodesKnown(cfg: Config, sv: Server, p: seq<byte>)
    requires cfg.Valid() && KnownPacket(cfg, sv.bits, p)
    ensures ChunkDecode(p, cfg.info.indexFieldSize).Some?
  {
    if i :| 0 <= i < cfg.info.numChunks && IsChunk(cfg, i, p) {
      RegionInFile(cfg.info, |cfg.src|, i);
    }
  }

  lemma {:induction false} WriteKeepsRegion(cfg: Config, file: seq<byte>, pos: nat, data: seq<byte>, i: nat)
    requires cfg.Valid() && |file| == |cfg.src| && i < cfg.info.numChunks && RegionOk(cfg, file, i)
    requires pos + |data| <= |file|
    requires pos + |data| <= Start(cfg.info, i) || End(cfg.info, i) <= pos
    ensures |WriteAt(file, pos, data)| == |file| && RegionOk(cfg, WriteAt(file, pos, data), i)
  {
    RegionInFile(cfg.info, |cfg.src|, i);
    var a, b := Start(cfg.info, i), End(cfg.info, i);
    assert WriteAt(file, pos, data)[a..b] == file[a..b];
  }

  /** Writing into the region of chunk `w` keeps the other received regions. */
  lemma {:induction false} WriteKeepsOthers(
      cfg: Config, file: seq<byte>, w: nat, pos: nat, data: seq<byte>, i: nat)
    requires cfg.Valid() && |file| == |cfg.src| && w < cfg.info.numChunks && i < cfg.info.numChunks && i != w
    requires Start(cfg.info, w) <= pos && pos + |data| <= End(cfg.info, w) <= |file| && RegionOk(cfg, file, i)
    ensures |WriteAt(file, pos, data)| == |file| && RegionOk(cfg, WriteAt(file, pos, data), i)
  {
    if i < w {
      RegionsApart(cfg.info, |cfg.src|, i, w);
    } else {
      RegionsApart(cfg.info, |cfg.src|, w, i);
    }
    WriteKeepsRegion(cfg, file, pos, data, i);
  }

  lemma {:induction false} WriteExtends(file: seq<byte>, start: nat, done: nat, data: seq<byte>)
    requires start + done + |data| <= |file|
    ensures var file' := WriteAt(file, start + done, data);
            |file'| == |file| && file'[start..start + done + |data|] == file[start..start + done] + data
  {
  }

  lemma {:induction false} WriteSomeInv(cfg: Config, sv: Server, k: nat)
    requires cfg.Valid() && ServerInv(cfg, sv) && sv.phase.Writing?
    requires sv.phase.done + k <= |sv.phase.payload|
    ensures ServerInv(cfg, WriteSome(cfg.info, sv, k))
  {
    var w, sv' := sv.phase, WriteSome(cfg.info, sv, k);
    var start := Start(cfg.info, w.index);
    var data := w.payload[w.done..w.done + k];
    WriteExtends(sv.file, start, w.done, data);
    forall i | 0 <= i < |sv.bits| && sv.bits[i] ensures RegionOk(cfg, sv'.file, i) {
      WriteKeepsOthers(cfg, sv.file, w.index, start + w.done, data, i);
    }
    assert w.payload[..w.done + k] == w.payload[..w.done] + data;
  }

  lemma {:induction false} FinishInv(cfg: Config, sv: Server)
    requires cfg.Valid() && ServerInv(cfg, sv) && sv.phase.Writing? && sv.phase.done == |sv.phase.payload|
    ensures ServerInv(cfg, FinishWrite(sv))
  {
    var w := sv.phase;
    assert w.payload[..w.done] == w.payload;
  }

  // -- the traffic

  lemma {:induction false} KnownSurvives(cfg: Config, s: State, bits: seq<bool>)
    requires cfg.Valid() && TrafficInv(cfg, s) && Below(s.server.bits, bits)
    ensures forall p :: p in s.toServer ==> p == cfg.LoginPacket() || KnownPacket(cfg, bits, p)
    ensures forall u :: u in s.toClient ==> KnownUpdate(bits, u)
    ensures ClientInv(cfg, s.client, bits)
  {
    forall u | u in s.toClient ensures KnownUpdate(bits, u) {
      var b :| Below(b, s.server.bits) && u == StatusBytes(b, MTU);
      assert Below(b, bits);
    }
  }

  lemma {:induction false} ClientTraffic(cfg: Config, s: State, step: Step)
    requires cfg.Valid() && TrafficInv(cfg, s) && Apply(cfg, s, step).Some?
    requires step.ClientSend? || step.ClientReceive?
    ensures TrafficInv(cfg, Apply(cfg, s, step).value)
  {
    var t := Apply(cfg, s, step).value;
    if step.ClientSend? {
      DoChunkInv(cfg, s.client, s.server.bits);
      assert IsChunk(cfg, s.client.sending.value, ChunkPacket(cfg.info, cfg.src, s.client.sending.value));
    } else {
      OnStatusInv(cfg, s.client, s.server.bits, step.update);
    }
    forall p | p in t.toServer ensures p == cfg.LoginPacket() || KnownPacket(cfg, t.server.bits, p) {
    }
  }

  /** A new server state with the same bits and updates due. */
  lemma {:induction false} ServerMoves(cfg: Config, s: State, sv: Server)
    requires cfg.Valid() && TrafficInv(cfg, s) && sv.bits == s.server.bits && sv.due == s.server.due
    ensures TrafficInv(cfg, s.(server := sv))
  {
  }

  lemma {:induction false} ReceiveKeepsBits(info: ChunkInfo, sv: Server, p: seq<byte>, gap: nat)
    requires !sv.phase.Writing? && |sv.bits| == info.numChunks && Receive(info, sv, p, gap).Some?
    ensures var sv' := Receive(info, sv, p, gap).value; sv'.bits == sv.bits && sv'.due == sv.due
  {
  }

  lemma {:induction false} FinishTraffic(cfg: Config, s: State)
    requires cfg.Valid() && TrafficInv(cfg, s) && s.server.phase.Writing? && s.server.phase.index < |s.server.bits|
    ensures TrafficInv(cfg, s.(server := FinishWrite(s.server)))
  {
    var sv := FinishWrite(s.server);
    KnownSurvives(cfg, s, sv.bits);
    if All(sv.bits) {
      ZeroCountNone(sv.bits);
    }
  }

  lemma {:induction false} SendTraffic(cfg: Config, s: State)
    requires cfg.Valid() && TrafficInv(cfg, s) && Apply(cfg, s, SendStatus).Some?
    ensures TrafficInv(cfg, Apply(cfg, s, SendStatus).value)
  {
    assert Below(s.server.bits, s.server.bits);
  }

  /** Every step keeps the traffic in order, the delivery of a Login included. */
  lemma {:induction false} TrafficStep(cfg: Config, s: State, step: Step)
    requires cfg.Valid() && TrafficInv(cfg, s) && Apply(cfg, s, step).Some?
    ensures TrafficInv(cfg, Apply(cfg, s, step).value)
  {
    match step
    case ClientSend => ClientTraffic(cfg, s, step);
    case ClientReceive(_) => ClientTraffic(cfg, s, step);
    case ServerReceive(p, gap) =>
      ReceiveKeepsBits(cfg.info, s.server, p, gap);
      ServerMoves(cfg, s, Receive(cfg.info, s.server, p, gap).value);
    case ServerWrite(k) => ServerMoves(cfg, s, WriteSome(cfg.info, s.server, k));
    case ServerFinish => FinishTraffic(cfg, s);
    case SendStatus => SendTraffic(cfg, s);
  }

  lemma {:induction false} TrafficRun(cfg: Config, steps: seq<Step>)
    requires cfg.Valid() && Exec(cfg, steps).Some?
    ensures TrafficInv(cfg, Exec(cfg, steps).value)
  {
    if steps == [] {
      InitInv(cfg);
    } else {
      var before := steps[..|steps| - 1];
      TrafficRun(cfg, before);
      TrafficStep(cfg, Exec(cfg, before).value, steps[|steps| - 1]);
    }
  }

  // -- the server's file, in clean runs

  lemma {:induction false} ReceiveStep(cfg: Config, s: State, p: seq<byte>, gap: nat)
    requires cfg.Valid() && Inv(cfg, s) && Apply(cfg, s, ServerReceive(p, gap)).Some?
    requires Clean(cfg, s, ServerReceive(p, gap))
    ensures ServerInv(cfg, Apply(cfg, s, ServerReceive(p, gap)).value.server)
  {
    ReceiveInv(cfg, s.server, p, gap);
  }

  lemma {:induction false} StepInv(cfg: Config, s: State, step: Step)
    requires cfg.Valid() && Inv(cfg, s) && Apply(cfg, s, step).Some? && Clean(cfg, s, step)
    ensures Inv(cfg, Apply(cfg, s, step).value)
  {
    TrafficStep(cfg, s, step);
    match step
    case ServerReceive(p, gap) => ReceiveStep(cfg, s, p, gap);
    case ServerWrite(k) => WriteSomeInv(cfg, s.server, k);
    case ServerFinish => FinishInv(cfg, s.server);
    case _ =>
  }

  lemma {:induction false} RunInv(cfg: Config, steps: seq<Step>)
    requires cfg.Valid() && Exec(cfg, steps).Some? && CleanRun(cfg, steps)
    ensures Inv(cfg, Exec(cfg, steps).value)
  {
    if steps == [] {
      InitInv(cfg);
    } else {
      var before := steps[..|steps| - 1];
      RunInv(cfg, before);
      StepInv(cfg, Exec(cfg, before).value, steps[|steps| - 1]);
    }
  }
}
