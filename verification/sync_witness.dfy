/** Runs of the v2 synchronisation that end in a panic: a repeated response, a late one, and a payload
    that comes again after its block was promoted. */
module SyncWitnesses {
  import opened Varints
  import opened Blocks
  import opened Folders
  import opened TransferOuts
  import opened Sync
  import opened Frontier
  import opened SyncInvariant
  import opened SyncSteps
  import opened SyncResponses
  import opened SyncTheorems
  import opened SyncProgress

  // ---------------------------------------------------------------- a repeated response

  lemma {:induction false} Connected(cfg: Config) returns (run: seq<Step>)
    requires cfg.Valid()
    ensures Ready(cfg, run) && InOrderRun(cfg, run)
    ensures var p := After(cfg, run).peer;
            p.conn == Some(Conn({cfg.root.blockid}, [])) && p.db.blocks == cfg.peerBlocks
  {
    assert Exec(cfg, []) == Some(Init(cfg)) && InOrderRun(cfg, []);
    run := OpenConnection(cfg, []);
  }

  /** After `run` a status is due, and making it panics. */
  ghost predicate StatusPanics(cfg: Config, run: seq<Step>) {
    Exec(cfg, run).Some? && After(cfg, run).due > 0 && !CanTell(After(cfg, run).peer)
  }

  lemma {:induction false} StatusPanicsIff(cfg: Config, run: seq<Step>)
    requires Exec(cfg, run).Some? && After(cfg, run).due > 0
    ensures StatusPanics(cfg, run) <==> Apply(cfg, After(cfg, run), StatusSent).None?
  {
  }

  /** A response after which no status can be made is delivered. */
  lemma {:induction false} Deliver(cfg: Config, steps: seq<Step>, res: Response) returns (run: seq<Step>)
    requires Exec(cfg, steps).Some? && res in After(cfg, steps).responses && After(cfg, steps).due > 0
    requires !CanTell(OnResponse(After(cfg, steps).peer, res))
    ensures run == steps + [ResponseArrives(res)] && StatusPanics(cfg, run)
  {
    run := steps + [ResponseArrives(res)];
    assert run[..|steps|] == steps;
  }

  /** In every configuration: the response to the first request comes twice, and the status that is due
      then panics. */
  lemma {:induction false} RepeatedResponse(cfg: Config) returns (run: seq<Step>)
    requires cfg.Valid() && IdsSuffice(cfg)
    ensures StatusPanics(cfg, run)
  {
    var begun := Connected(cfg);
    var once, res := OpenTransfer(cfg, begun);
    StatusAfterResponseIff(cfg, once, res);
    run := Deliver(cfg, once, res);
  }

  // ---------------------------------------------------------------- the root becomes full

  /** The receiver fetches the root: one transfer, and entry `c` of the root neither stored nor
      asked for. */
  ghost predicate FetchingRoot(cfg: Config, s: State, c: Child) {
    && s.peer.conn.Some? && |s.peer.conn.value.transfers| == 1
    && s.peer.conn.value.transfers[0].blockid == cfg.root.blockid
    && IsChild(cfg.root.blockid, c) && c.blockref.blockid !in s.peer.db.blocks
    && s.due > 0
  }

  lemma {:induction false} ChildIsSmaller(id: BlockId, c: Child)
    requires IsChild(id, c)
    ensures c.blockref.blockid != id
  {
    var i :| 0 <= i < |id.data| && id.data[i] == Entry(c);
  }

  lemma {:induction false} StartRoot(cfg: Config, c: Child) returns (run: seq<Step>)
    requires cfg.Valid() && IdsSuffice(cfg)
    requires IsChild(cfg.root.blockid, c) && c.blockref.blockid !in cfg.peerBlocks
    ensures Ready(cfg, run) && InOrderRun(cfg, run) && FetchingRoot(cfg, After(cfg, run), c)
  {
    var begun := Connected(cfg);
    var res;
    run, res := OpenTransfer(cfg, begun);
    ChildIsSmaller(cfg.root.blockid, c);
  }

  /** What a payload of the only transfer does. */
  lemma {:induction false} PayloadShape(p: Peer, m: Msg, t: Transfer)
    requires p.conn.Some? && p.conn.value.transfers == [t] && OnPayload(p, m.chunkid, m.data).Some?
    ensures var p' := OnPayload(p, m.chunkid, m.data).value;
            && p'.db.blocks.Keys == p.db.blocks.Keys
            && (|| p'.conn == p.conn || p'.conn.None?
                || (p'.conn.value.transfers == [] && IsFull(p'.db.blocks, t.blockid)))
  {
    assert FindTransfer([t], m.chunkid).Some? ==> FindTransfer([t], m.chunkid).value == t;
    var b := StoreChunk(p.db.blocks[t.blockid], m.chunkid - t.start, m.data).value;
    PayloadUnfold(p, m, t);
    if AllAvailable(b.available) {
      assert Remove([t], t) == [];
      PromotedShape(Promote(p, t, b.data), t.blockid);
    }
  }

  lemma {:induction false} PromotedShape(p: Peer, id: BlockId)
    requires p.conn.Some? && OnPromoted(p, id).Some?
    ensures var p' := OnPromoted(p, id).value;
            && p'.db.blocks == p.db.blocks
            && (p'.conn.Some? ==> p'.conn.value.transfers == p.conn.value.transfers)
  {
  }

  lemma {:induction false} NotDoneYet(cfg: Config, s: State, c: Child)
    requires cfg.Valid() && Inv(cfg, s) && IsChild(cfg.root.blockid, c) && c.blockref.blockid !in s.peer.db.blocks
    ensures s.peer.db.root != cfg.root
  {
    assert Reaches(c.blockref.blockid, c.blockref.blockid);
    ReachesChild(cfg.root.blockid, c, c.blockref.blockid);
  }

  /** The whole root can be fetched: then no transfer is live, and a payload of it is in flight. */
  lemma {:induction false} FetchRoot(cfg: Config, steps: seq<Step>, c: Child) returns (run: seq<Step>, m: Msg)
    requires Ready(cfg, steps) && FetchingRoot(cfg, After(cfg, steps), c)
    ensures Extends(cfg, steps, run) && m in After(cfg, run).payloads
    ensures var p, p' := After(cfg, steps).peer, After(cfg, run).peer;
            && p'.conn.Some? && p'.conn.value.transfers == [] && IsFull(p'.db.blocks, cfg.root.blockid)
            && p'.db.blocks.Keys == p.db.blocks.Keys
    decreases |Lacking(cfg, After(cfg, steps).peer.db.blocks)|, ZerosFirst(After(cfg, steps).peer)
  {
    var p := After(cfg, steps).peer;
    var next;
    next, m := FetchChunk(cfg, steps);
    var p' := After(cfg, next).peer;
    PayloadShape(p, m, p.conn.value.transfers[0]);
    RunInv(cfg, next);
    NotDoneYet(cfg, After(cfg, next), c);
    if p'.conn.value.transfers == [] {
      run := next;
    } else {
      if Lacking(cfg, p'.db.blocks) < Lacking(cfg, p.db.blocks) {
        LackingCount(cfg, p'.db.blocks, p.db.blocks);
      }
      run, m := FetchRoot(cfg, next, c);
    }
  }

  /** Whenever the root has an entry that the receiver lacks: all responses come once and in order, one
      of the root's payloads comes again after the root was promoted, and the receiver panics. */
  lemma {:induction false} LatePayload(cfg: Config, c: Child) returns (run: seq<Step>, m: Msg)
    requires cfg.Valid() && IdsSuffice(cfg)
    requires IsChild(cfg.root.blockid, c) && c.blockref.blockid !in cfg.peerBlocks
    ensures Exec(cfg, run).Some? && InOrderRun(cfg, run) && m in After(cfg, run).payloads
    ensures Apply(cfg, After(cfg, run), PayloadArrives(m)).None?
  {
    var begun := StartRoot(cfg, c);
    run, m := FetchRoot(cfg, begun, c);
    PayloadPanicsIff(cfg, run, m);
  }

  // ---------------------------------------------------------------- a late response

  /** A block that is asked for can be announced. */
  lemma {:induction false} Announce(cfg: Config, steps: seq<Step>, id: BlockId) returns (run: seq<Step>, res: Response)
    requires IdsSuffice(cfg) && Ready(cfg, steps)
    requires After(cfg, steps).peer.conn.Some? && id in After(cfg, steps).peer.conn.value.pending
    ensures Extends(cfg, steps, run)
    ensures var s, s' := After(cfg, steps), After(cfg, run);
            && s'.peer == s.peer && s.responses <= s'.responses && res in s'.responses && res.blockid == id
  {
    RunInv(cfg, steps);
    NextIsTotal(cfg, steps);
    RequestEnabled(cfg, After(cfg, steps), id);
    Take(cfg, steps, RequestArrives(id));
    run := steps + [RequestArrives(id)];
    res := ResponseTo(Find(After(cfg, run).out.transfers, id).value);
  }

  /** Of two responses the one with the larger ids comes first. */
  lemma {:induction false} LargerFirst(cfg: Config, steps: seq<Step>, x: Response, y: Response) returns (run: seq<Step>)
    requires Ready(cfg, steps)
    requires var s := After(cfg, steps);
             && s.peer.conn.Some? && s.peer.conn.value.transfers == []
             && x in s.responses && y in s.responses && x.blockid != y.blockid
             && x.blockid in s.peer.conn.value.pending && y.blockid in s.peer.conn.value.pending
             && y.start < x.end
    ensures run == steps + [ResponseArrives(x)] + [ResponseArrives(y)] && StatusPanics(cfg, run)
  {
    ResponseUnfold(cfg, After(cfg, steps), x);
    Take(cfg, steps, ResponseArrives(x));
    var mid := steps + [ResponseArrives(x)];
    var ts := After(cfg, mid).peer.conn.value.transfers;
    assert ts[0] in ts && ts[0].end == x.end;
    StatusAfterResponseIff(cfg, mid, y);
    run := Deliver(cfg, mid, y);
  }

  /** Whenever the root has two entries that the receiver lacks: the responses for them come in the
      wrong order, each once, and the status that is due then panics. */
  lemma {:induction false} LateResponse(cfg: Config, c: Child, d: Child)
      returns (before: seq<Step>, x: Response, y: Response, run: seq<Step>)
    requires cfg.Valid() && IdsSuffice(cfg) && c.blockref.blockid != d.blockref.blockid
    requires IsChild(cfg.root.blockid, c) && c.blockref.blockid !in cfg.peerBlocks
    requires IsChild(cfg.root.blockid, d) && d.blockref.blockid !in cfg.peerBlocks
    ensures Exec(cfg, before).Some? && InOrderRun(cfg, before) && x.blockid != y.blockid
    ensures x.blockid in Sync.Pending(After(cfg, before).peer) && y.blockid in Sync.Pending(After(cfg, before).peer)
    ensures run == before + [ResponseArrives(x)] + [ResponseArrives(y)] && StatusPanics(cfg, run)
  {
    var fetched := RootFetched(cfg, c, d);
    var one;
    one, x := Announce(cfg, fetched, c.blockref.blockid);
    before, y := Announce(cfg, one, d.blockref.blockid);
    RunInv(cfg, before);
    TwoAnnounced(cfg, After(cfg, before), x, y);
    if !(y.start < x.end) {
      x, y := y, x;
    }
    run := LargerFirst(cfg, before, x, y);
  }

  lemma {:induction false} TwoAnnounced(cfg: Config, s: State, x: Response, y: Response)
    requires cfg.Valid() && Inv(cfg, s) && s.peer.conn.Some? && x.blockid != y.blockid
    requires x in s.responses && y in s.responses
    requires x.blockid in s.peer.conn.value.pending && y.blockid in s.peer.conn.value.pending
    ensures y.start < x.end || x.start < y.end
  {
    OnEdgeReaches(s.peer.db.blocks, cfg.root.blockid, x.blockid);
    ReachableNonempty(cfg.root, Directory, x.blockid);
    assert ResponseOk(s.out.transfers, x) && ResponseOk(s.out.transfers, y);
    UsedPart(s.out.transfers, s.out.next, Allocation(x.start, x.end, x.blockid));
    UsedPart(s.out.transfers, s.out.next, Allocation(y.start, y.end, y.blockid));
  }

  /** The root is stored, no transfer is live, and both entries are asked for. */
  lemma {:induction false} RootFetched(cfg: Config, c: Child, d: Child) returns (run: seq<Step>)
    requires cfg.Valid() && IdsSuffice(cfg)
    requires IsChild(cfg.root.blockid, c) && c.blockref.blockid !in cfg.peerBlocks
    requires IsChild(cfg.root.blockid, d) && d.blockref.blockid !in cfg.peerBlocks
    ensures Ready(cfg, run) && InOrderRun(cfg, run)
    ensures var p := After(cfg, run).peer;
            && p.conn.Some? && p.conn.value.transfers == []
            && c.blockref.blockid in p.conn.value.pending && d.blockref.blockid in p.conn.value.pending
  {
    var begun := Connected(cfg);
    var opened', res := OpenTransfer(cfg, begun);
    ChildIsSmaller(cfg.root.blockid, c);
    ChildIsSmaller(cfg.root.blockid, d);
    var m;
    run, m := FetchRoot(cfg, opened', c);
    RunInv(cfg, run);
  }

  // ---------------------------------------------------------------- a folder to try it on

  const KEYS: Keys := _ => 0

  const ROOT: Path := ["sync"]

  /** Two files on one side, an empty folder on the other. */
  const OURS: Node := FolderNode("sync", [FileNode("a", [1]), FileNode("b", [2])])

  const THEIRS: Node := FolderNode("sync", [])

  function FileId(b: byte): BlockId { Hash([Iv(0), Byte(b)]) }

  function FileEntry(name: string, b: byte): Child { Child(name, Leaf, BlockRef(FileId(b), 0)) }

  function OurRoot(): BlockId { Hash([Iv(0), Entry(FileEntry("a", 1)), Entry(FileEntry("b", 2))]) }

  lemma {:induction false} OneFile(name: string, b: byte, path: Path)
    ensures ToBlock(File([b]), 0) == [Iv(0), Byte(b)]
    ensures EncodeNode(FileNode(name, [b]), path, KEYS) == [FileEntry(name, b)]
    ensures BlocksOf(FileNode(name, [b]), path, KEYS).Keys == {FileId(b)}
  {
    assert ToBlock(File([b]), 0) == [Iv(0), Byte(b)];
  }

  lemma {:induction false} OurBlocks()
    ensures RootRef(OURS, ROOT, KEYS) == BlockRef(OurRoot(), 0)
    ensures BlocksOf(OURS, ROOT, KEYS).Keys == {FileId(1), FileId(2), OurRoot()}
  {
    var a, b := FileNode("a", [1]), FileNode("b", [2]);
    OneFile("a", 1, ROOT + ["a"]);
    OneFile("b", 2, ROOT + ["b"]);
    assert [a, b][1..] == [b] && [b][1..] == [];
    assert EncodeEntries([], ROOT, KEYS) == [] && BlocksOfEntries([], ROOT, KEYS) == map[];
    assert EncodeEntries([b], ROOT, KEYS) == [FileEntry("b", 2)];
    assert EncodeEntries([a, b], ROOT, KEYS) == [FileEntry("a", 1), FileEntry("b", 2)];
    var d := Dir([FileEntry("a", 1), FileEntry("b", 2)]);
    assert ToBlock(d, 0) == OurRoot().data;
    assert BlocksOfEntries([b], ROOT, KEYS).Keys == {FileId(2)};
    assert BlocksOfEntries([a, b], ROOT, KEYS).Keys == {FileId(1), FileId(2)};
  }

  lemma {:induction false} TheirBlocks()
    ensures BlocksOf(THEIRS, ROOT, KEYS).Keys == {Hash([Iv(0)])}
  {
    assert EncodeEntries([], ROOT, KEYS) == [] && BlocksOfEntries([], ROOT, KEYS) == map[];
    assert ToBlock(Dir([]), 0) == [Iv(0)];
  }

  function TwoFiles(): Config { FolderConfig(OURS, ROOT, KEYS, THEIRS, ROOT, KEYS, 0) }

  lemma {:induction false} ThreeIds(a: BlockId, b: BlockId, c: BlockId)
    ensures |{a, b, c}| <= 3
  {
    assert {a, b, c} == {a} + {b} + {c};
  }

  lemma {:induction false} SmallConfig(cfg: Config, a: BlockId, b: BlockId, c: BlockId)
    requires cfg.held.Keys == {a, b, c} && |a.data| <= 3 && |b.data| <= 3 && |c.data| <= 3 && cfg.start == 0
    ensures IdsSuffice(cfg)
  {
    ThreeIds(a, b, c);
    SmallBlocksSuffice(cfg, 3);
  }

  lemma {:induction false} OtherRoot(theirs: Blocks, root: BlockId)
    requires theirs.Keys == {Hash([Iv(0)])} && |root.data| == 3
    ensures root !in theirs
  {
    assert root != Hash([Iv(0)]);
  }

  lemma {:induction false} TwoFilesOk(cfg: Config)
    requires cfg == TwoFiles()
    ensures cfg.Valid() && IdsSuffice(cfg)
    ensures cfg.root.blockid == OurRoot() && cfg.peerBlocks.Keys == {Hash([Iv(0)])}
  {
    OurBlocks();
    TheirBlocks();
    OtherRoot(BlocksOf(THEIRS, ROOT, KEYS), OurRoot());
    FolderConfigIsValid(OURS, ROOT, KEYS, THEIRS, ROOT, KEYS, 0);
    SmallConfig(cfg, FileId(1), FileId(2), OurRoot());
  }

  /** Both entries of our root are unknown on the other side. */
  lemma {:induction false} TwoEntries(cfg: Config)
    requires cfg.root.blockid == OurRoot() && cfg.peerBlocks.Keys == {Hash([Iv(0)])}
    ensures var c, d := FileEntry("a", 1), FileEntry("b", 2);
            && IsChild(cfg.root.blockid, c) && c.blockref.blockid !in cfg.peerBlocks
            && IsChild(cfg.root.blockid, d) && d.blockref.blockid !in cfg.peerBlocks
            && c.blockref.blockid != d.blockref.blockid
  {
    assert OurRoot().data[1] == Entry(FileEntry("a", 1)) && OurRoot().data[2] == Entry(FileEntry("b", 2));
    assert FileId(1).data[1] != FileId(2).data[1];
    assert |FileId(1).data| == |FileId(2).data| == 2 && |Hash([Iv(0)]).data| == 1;
  }

  // All of this happens to two files sent to an empty folder.

  lemma {:induction false} TwoFilesRepeatedResponse(cfg: Config) returns (run: seq<Step>)
    requires cfg == TwoFiles()
    ensures StatusPanics(cfg, run)
  {
    TwoFilesOk(cfg);
    run := RepeatedResponse(cfg);
  }

  lemma {:induction false} TwoFilesLateResponse(cfg: Config)
      returns (before: seq<Step>, x: Response, y: Response, run: seq<Step>)
    requires cfg == TwoFiles()
    ensures InOrderRun(cfg, before) && x.blockid != y.blockid
    ensures run == before + [ResponseArrives(x)] + [ResponseArrives(y)] && StatusPanics(cfg, run)
  {
    TwoFilesOk(cfg);
    TwoEntries(cfg);
    before, x, y, run := LateResponse(cfg, FileEntry("a", 1), FileEntry("b", 2));
  }

  lemma {:induction false} TwoFilesLatePayload(cfg: Config) returns (run: seq<Step>, m: Msg)
    requires cfg == TwoFiles()
    ensures Exec(cfg, run).Some? && InOrderRun(cfg, run) && m in After(cfg, run).payloads
    ensures Apply(cfg, After(cfg, run), PayloadArrives(m)).None?
  {
    TwoFilesOk(cfg);
    TwoEntries(cfg);
    run, m := LatePayload(cfg, FileEntry("a", 1));
  }
}
