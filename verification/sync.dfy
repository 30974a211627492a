/** v2 synchronisation of one peer with another: the receiving handlers, and the two nodes with the
    messages between them as a step system. */
module Sync {
  import opened Varints
  import opened Ranges
  import opened Runs
  import opened Blocks
  import opened Visitors
  import opened Folders
  import opened FolderOutput
  import opened TransferCodec
  import opened TransferOuts

  // ---------------------------------------------------------------- the receiving handlers

  datatype Transfer = Transfer(blockid: BlockId, start: nat, end: nat)

  /** What the receiver keeps for a connected peer. */
  datatype Conn = Conn(pending: set<BlockId>, transfers: seq<Transfer>)

  /** The database, the connection, and what the synchronised folder holds. */
  datatype Peer = Peer(db: Db, conn: Option<Conn>, disk: seq<Node>)

  /** A root update: ignored on an open connection, for the current root, or while another root is
      pending; otherwise the connection is opened and the new root requested. */
  function OnRootUpdate(p: Peer, to: BlockRef): Peer {
    if p.conn.Some? || to.blockid == p.db.root.blockid || p.db.pendingRoot.Some? then p
    else p.(db := p.db.(pendingRoot := Some(to)), conn := Some(Conn({to.blockid}, [])))
  }

  function EmptyPartial(id: BlockId, len: nat): Block {
    Partial(id, seq(len, _ => Byte(0)), seq(Chunks(len), _ => false))
  }

  function AddBlock(blocks: Blocks, b: Block): Blocks {
    if b.id in blocks then blocks else blocks[b.id := b]
  }

  /** `block_request_response` on an open connection. */
  function OnResponse(p: Peer, res: Response): Peer {
    if p.conn.None? then p
    else
      var conn := p.conn.value;
      p.(
        db := p.db.(blocks := AddBlock(p.db.blocks, EmptyPartial(res.blockid, res.len))),
        conn := Some(Conn(conn.pending - {res.blockid}, conn.transfers + [Transfer(res.blockid, res.start, res.end)])))
  }

  function FindTransfer(ts: seq<Transfer>, chunkid: nat): (r: Option<Transfer>)
    ensures r.Some? ==> r.value in ts && r.value.start <= chunkid < r.value.end
    ensures r.None? ==> forall t :: t in ts ==> !(t.start <= chunkid < t.end)
  {
    if ts == [] then None
    else if ts[0].start <= chunkid < ts[0].end then Some(ts[0])
    else FindTransfer(ts[1..], chunkid)
  }

  /** Copies chunk `k` into a partial block; `None` is a panic of the slicing or copying. */
  function StoreChunk(b: Block, k: nat, data: seq<Atom>): (r: Option<Block>)
    ensures r.Some? ==> r.value.Partial? && r.value.id == b.id && b.Partial?
  {
    var from := ChunkStart(k);
    if b.Full? || |data| > CHUNK_SIZE || from + |data| > |b.data| || k >= |b.available| then None
    else
      Some(Partial(b.id, b.data[..from] + data + b.data[from + |data|..], b.available[k := true]))
  }

  /** `transfers.remove(position of t)` */
  function Remove(ts: seq<Transfer>, t: Transfer): seq<Transfer> {
    if ts == [] then [] else if ts[0] == t then ts[1..] else [ts[0]] + Remove(ts[1..], t)
  }

  /** The children to request: those of a directory that are not stored. */
  function Wanted(d: Decoded, blocks: Blocks): set<BlockId> {
    if d.File? then {}
    else set c | c in d.children && c.blockref.blockid !in blocks :: c.blockref.blockid
  }

  /** A payload; `None` is a panic. */
  ghost function OnPayload(p: Peer, chunkid: nat, data: seq<Atom>): (r: Option<Peer>) {
    if p.conn.None? then Some(p)
    else
      var conn, blocks := p.conn.value, p.db.blocks;
      match FindTransfer(conn.transfers, chunkid)
      case None => None
      case Some(t) =>
        if t.blockid !in blocks then None
        else
          match StoreChunk(blocks[t.blockid], chunkid - t.start, data)
          case None => None
          case Some(block) => OnStored(p, t, block)
  }

  /** A chunk went into `block`; promote it when that was the last one. */
  ghost function OnStored(p: Peer, t: Transfer, block: Block): (r: Option<Peer>)
    requires p.conn.Some? && block.Partial?
  {
    if !AllAvailable(block.available) then Some(p.(db := p.db.(blocks := p.db.blocks[t.blockid := block])))
    else OnPromoted(Promote(p, t, block.data), t.blockid)
  }

  /** The block is full and its transfer over. */
  function Promote(p: Peer, t: Transfer, data: seq<Atom>): Peer
    requires p.conn.Some?
  {
    p.(db := p.db.(blocks := p.db.blocks[t.blockid := Full(t.blockid, data)]),
       conn := Some(p.conn.value.(transfers := Remove(p.conn.value.transfers, t))))
  }

  /** A block has become full: request its missing children, verify the pending tree, and if it is
      complete swap the root, write the folder and drop the connection. That full blocks are honest
      is not a test the program makes; it is proved of every reachable state. */
  ghost function OnPromoted(p: Peer, id: BlockId): (r: Option<Peer>)
    requires p.conn.Some?
  {
    var conn, blocks := p.conn.value, p.db.blocks;
    if !Honest(blocks) || p.db.pendingRoot.None? then None
    else
      var root := p.db.pendingRoot.value;
      match Resolve(blocks, root, id)
      case None => None
      case Some(dec) =>
        var asked := conn.(pending := conn.pending + Wanted(dec, blocks));
        match Verify(blocks, root)
        case None => None
        case Some(false) => Some(p.(conn := Some(asked)))
        case Some(true) =>
          match WriteToDir(blocks, root)
          case None => None
          case Some(nodes) => Some(Peer(Db(root, None, blocks), None, nodes))
  }

  /** The ranges of a status message: unavailable groups, transfer by transfer. `None` is the panic
      on a transfer whose block is not partial. */
  function StatusRanges(ts: seq<Transfer>, blocks: Blocks): (r: Option<seq<Range>>) {
    if ts == [] then Some([])
    else if ts[0].blockid !in blocks || blocks[ts[0].blockid].Full? then None
    else
      match StatusRanges(ts[1..], blocks)
      case None => None
      case Some(rs) => Some(ZeroRuns(blocks[ts[0].blockid].available, ts[0].start) + rs)
  }

  /** What a status says is missing: nothing once the connection is gone. */
  function MissingNow(p: Peer): (r: Option<seq<Range>>) {
    if p.conn.None? then Some([]) else StatusRanges(p.conn.value.transfers, p.db.blocks)
  }

  // ---------------------------------------------------------------- the system

  datatype Msg = Msg(chunkid: nat, data: seq<Atom>)

  /** A sender that holds a complete database, and a receiver with a folder and another complete
      database that does not know the sender's root yet. */
  datatype Config = Config(
    root: BlockRef, held: Blocks, peerRoot: BlockRef, peerBlocks: Blocks, peerDisk: seq<Node>, start: nat)
  {
    ghost predicate Valid() {
      && Complete(held) && WellFormed(root, Directory) && root.blockid in held
      && Complete(peerBlocks) && WellFormed(peerRoot, Directory) && peerRoot.blockid in peerBlocks
      && root.blockid !in peerBlocks
      && start < 0x1_0000_0000
    }
  }

  /** Messages ever sent; each may be delivered any number of times, in any order, or never. `due`
      counts the statuses that the receiver was told to send and has not sent yet. */
  datatype State = State(
    out: Out, peer: Peer, due: nat,
    requests: set<BlockId>, responses: set<Response>, payloads: set<Msg>, statuses: set<seq<byte>>)

  datatype Step =
    | RootUpdateArrives
    | RequestArrives(id: BlockId)
    | ResponseArrives(res: Response)
    | StatusSent
    | StatusArrives(bytes: seq<byte>)
    | LoopRuns
    | PayloadArrives(msg: Msg)

  function Init(cfg: Config): State {
    State(
      Out(Sending([], None, 0, []), [], cfg.start),
      Peer(Db(cfg.peerRoot, None, cfg.peerBlocks), None, cfg.peerDisk), 0,
      {}, {}, {}, {})
  }

  /** On an open connection: the response comes while its request is pending, and not after a live
      transfer with larger ids. */
  predicate ResponseInOrder(p: Peer, res: Response) {
    p.conn.Some? ==>
      res.blockid in p.conn.value.pending && forall t :: t in p.conn.value.transfers ==> t.end <= res.start
  }

  /** The connection has just one transfer: the first, or the first after a pause. */
  predicate FirstTransfer(p: Peer) { p.conn.Some? && |p.conn.value.transfers| == 1 }

  function Pending(p: Peer): set<BlockId> {
    if p.conn.Some? then p.conn.value.pending else {}
  }

  /** One step; `None` when it is not enabled or ends in a panic. */
  ghost function Apply(cfg: Config, s: State, step: Step): (r: Option<State>) {
    match step
    case RootUpdateArrives =>
      var p := OnRootUpdate(s.peer, cfg.root);
      Some(s.(peer := p, requests := s.requests + Pending(p)))
    case RequestArrives(id) =>
      if id !in s.requests || id !in cfg.held || Allocate(s.out, id).None? then None
      else
        var out := Allocate(s.out, id).value;
        if Find(out.transfers, id).None? then None
        else Some(s.(out := out, responses := s.responses + {ResponseTo(Find(out.transfers, id).value)}))
    case ResponseArrives(res) =>
      if res !in s.responses then None
      else
        var p := OnResponse(s.peer, res);
        Some(s.(peer := p, due := s.due + if FirstTransfer(p) then 1 else 0))
    case StatusSent =>
      var rs := MissingNow(s.peer);
      if s.due == 0 || rs.None? || !Ascending(Flat(rs.value), 0) then None
      else Some(s.(due := s.due - 1, statuses := s.statuses + {StatusMessage(rs.value)}))
    case StatusArrives(bytes) =>
      if bytes !in s.statuses || DecodeStatus(bytes).None? then None
      else Some(s.(out := s.out.(sending := OnStatus(s.out.sending, DecodeStatus(bytes).value))))
    case LoopRuns =>
      if s.out.sending.loops == 0 then None
      else if s.out.sending.cursor.None? then Some(s.(out := s.out.(sending := OnLoop(s.out.sending))))
      else
        var c := s.out.sending.cursor.value;
        (match FindChunk(s.out.transfers, c)
         case None => None
         case Some(a) =>
           if !IsFull(cfg.held, a.id) then None
           else
             Some(s.(out := s.out.(sending := OnLoop(s.out.sending)),
                     payloads := s.payloads + {Msg(c, ChunkOf(cfg.held[a.id].data, c - a.from))})))
    case PayloadArrives(msg) =>
      if msg !in s.payloads then None
      else
        match OnPayload(s.peer, msg.chunkid, msg.data)
        case None => None
        case Some(p) =>
          Some(s.(peer := p, due := s.due + if s.peer.conn.Some? then 1 else 0, requests := s.requests + Pending(p)))
  }

  /** The state after a whole run, `None` when some step was not enabled or panicked. */
  ghost function Exec(cfg: Config, steps: seq<Step>): (r: Option<State>) {
    if steps == [] then Some(Init(cfg))
    else
      match Exec(cfg, steps[..|steps| - 1])
      case None => None
      case Some(s) => Apply(cfg, s, steps[|steps| - 1])
  }

  /** A run in which every response comes once and in order. */
  ghost predicate InOrderRun(cfg: Config, steps: seq<Step>) {
    steps == [] ||
    var before, step := steps[..|steps| - 1], steps[|steps| - 1];
    InOrderRun(cfg, before) && (Exec(cfg, before).Some? ==> InOrderStep(Exec(cfg, before).value, step))
  }

  predicate InOrderStep(s: State, step: Step) {
    step.ResponseArrives? ==> ResponseInOrder(s.peer, step.res)
  }
}
