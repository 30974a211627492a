/** The receiving half of the v2 handler as an object over its block database. */
module SyncNode {
  import opened Varints
  import opened Ranges
  import opened Runs
  import opened Blocks
  import opened Visitors
  import opened Folders
  import opened FolderOutput
  import opened TransferCodec
  import opened TransferOuts
  import opened Sync
  import opened PartialBlocks
  import opened Frontier
  import opened SyncInvariant
  import opened SyncSteps

  class Receiver {
    const db: BlockDb
    var conn: Option<Conn>
    var disk: seq<Node>
    var due: nat  // statuses that the status loop was told to send

    ghost function View(): Peer
      reads this, db
    {
      Peer(db.View(), conn, disk)
    }

    /** Full blocks hold the data their ids stand for. */
    ghost predicate Valid()
      reads this, db
    {
      Honest(db.blocks)
    }

    constructor (db: BlockDb, disk: seq<Node>)
      ensures this.db == db && conn.None? && this.disk == disk && due == 0
    {
      this.db, this.disk, this.conn, this.due := db, disk, None, 0;
    }

    /** Ignored on an open connection, for the current root and while another is pending; otherwise the
        connection is opened, the root pending, and its block requested. */
    method UnconnectedRootUpdate(to: BlockRef)
      modifies this, db
      ensures View() == OnRootUpdate(old(View()), to)
      ensures db.root == old(db.root) && db.blocks == old(db.blocks) && disk == old(disk) && due == old(due)
      ensures if old(conn).Some? || to.blockid == old(db.root).blockid || old(db.pendingRoot).Some?
              then conn == old(conn) && db.pendingRoot == old(db.pendingRoot)
              else conn == Some(Conn({to.blockid}, [])) && db.pendingRoot == Some(to)
    {
      if conn.Some? || to.blockid == db.root.blockid {
        return;
      }
      if db.pendingRoot.Some? {
        return;
      }
      conn := Some(Conn({}, []));
      db.SetPendingRoot(to);
      Request(to.blockid);
      assert conn.value.pending == {to.blockid};
    }

    method Request(id: BlockId)
      requires conn.Some?
      modifies this`conn
      ensures conn == Some(old(conn).value.(pending := old(conn).value.pending + {id}))
    {
      conn := Some(conn.value.(pending := conn.value.pending + {id}));
    }

    /** The request is over, the transfer added behind the others, and a block of zeroes without any
        chunk stored, unless there is one; the first live transfer makes a status due. */
    method BlockRequestResponse(res: Response)
      modifies this, db
      ensures View() == OnResponse(old(View()), res)
      ensures db.root == old(db.root) && db.pendingRoot == old(db.pendingRoot) && disk == old(disk)
      ensures old(conn).None? ==> conn.None? && db.blocks == old(db.blocks) && due == old(due)
      ensures old(conn).Some? ==>
                && conn == Some(Conn(
                     old(conn).value.pending - {res.blockid},
                     old(conn).value.transfers + [Transfer(res.blockid, res.start, res.end)]))
                && due == old(due) + (if old(conn).value.transfers == [] then 1 else 0)
                && db.blocks.Keys == old(db.blocks).Keys + {res.blockid}
                && forall id :: id in db.blocks ==>
                     if id in old(db.blocks) then db.blocks[id] == old(db.blocks)[id]
                     else
                       var b := db.blocks[id];
                       && b.Partial? && b.id == id && |b.data| == res.len && |b.available| == Chunks(res.len)
                       && (forall p :: 0 <= p < |b.data| ==> b.data[p] == Byte(0))
                       && forall k :: 0 <= k < |b.available| ==> !b.available[k]
    {
      if conn.None? {
        return;
      }
      var c := conn.value;
      conn := Some(Conn(c.pending - {res.blockid}, c.transfers + [Transfer(res.blockid, res.start, res.end)]));
      db.Add(EmptyPartial(res.blockid, res.len));
      if |conn.value.transfers| == 1 {
        due := due + 1;
      }
    }

    method LookupTransfer(chunkid: nat) returns (r: Option<Transfer>)
      requires conn.Some?
      ensures r == FindTransfer(conn.value.transfers, chunkid)
    {
      var ts, i := conn.value.transfers, 0;
      while i < |ts|
        invariant 0 <= i <= |ts|
        invariant FindTransfer(ts, chunkid) == FindTransfer(ts[i..], chunkid)
      {
        if ts[i].start <= chunkid < ts[i].end {
          return Some(ts[i]);
        }
        assert ts[i..][1..] == ts[i + 1..];
        i := i + 1;
      }
      return None;
    }

    method RemoveTransfer(t: Transfer)
      requires conn.Some?
      modifies this`conn
      ensures conn == Some(old(conn).value.(transfers := Remove(old(conn).value.transfers, t)))
    {
      var ts := Without(conn.value.transfers, t);
      conn := Some(conn.value.(transfers := ts));
    }

    /** Finds the first position of `t` and removes that element. */
    static method Without(ts: seq<Transfer>, t: Transfer) returns (r: seq<Transfer>)
      ensures r == Remove(ts, t)
    {
      var i := 0;
      while i < |ts| && ts[i] != t
        invariant 0 <= i <= |ts|
        invariant Remove(ts, t) == ts[..i] + Remove(ts[i..], t)
      {
        RemoveMoves(ts, t, i);
        i := i + 1;
      }
      if i < |ts| {
        assert ts[i..][1..] == ts[i + 1..];
        return ts[..i] + ts[i + 1..];
      }
      assert ts[i..] == [] && ts[..i] + [] == ts;
      return ts;
    }

    /** Requests every child that is not stored. */
    method RequestMissing(children: seq<Child>)
      requires conn.Some?
      modifies this`conn
      ensures conn == Some(old(conn).value.(pending := old(conn).value.pending + Wanted(Dir(children), db.blocks)))
      ensures conn.value.transfers == old(conn).value.transfers
      ensures forall id :: id in conn.value.pending <==>
                id in old(conn).value.pending
                || (id !in db.blocks && exists c :: c in children && c.blockref.blockid == id)
    {
      ghost var start := conn.value;
      assert children[..0] == [];
      assert start.pending + Wanted(Dir([]), db.blocks) == start.pending;
      var i := 0;
      while i < |children|
        invariant 0 <= i <= |children|
        invariant conn == Some(start.(pending := start.pending + Wanted(Dir(children[..i]), db.blocks)))
      {
        assert forall c :: c in children[..i + 1] <==> c in children[..i] || c == children[i];
        var id := children[i].blockref.blockid;
        if id !in db.blocks {
          Request(id);
          assert Wanted(Dir(children[..i + 1]), db.blocks) == Wanted(Dir(children[..i]), db.blocks) + {id};
          assert (start.pending + Wanted(Dir(children[..i]), db.blocks)) + {id}
              == start.pending + (Wanted(Dir(children[..i]), db.blocks) + {id});
        } else {
          assert Wanted(Dir(children[..i + 1]), db.blocks) == Wanted(Dir(children[..i]), db.blocks);
        }
        i := i + 1;
      }
      assert children[..i] == children;
    }

    /** A payload of any bytes; but if it completes a block, then that has the data its id stands for.
        The program does not check the hash of a complete block. */
    ghost predicate CompletesRightly(chunkid: nat, data: seq<Atom>)
      requires Valid()
      reads this, db
    {
      conn.Some? && FindTransfer(conn.value.transfers, chunkid).Some? ==>
        var t := FindTransfer(conn.value.transfers, chunkid).value;
        t.blockid in db.blocks ==>
          var r := StoreChunk(db.blocks[t.blockid], chunkid - t.start, data);
          r.Some? && AllAvailable(r.value.available) ==> r.value.data == t.blockid.data
    }

    /** Stores a chunk; completes the block, asks for its children and swaps the root when that is
        due. `false` is a panic. */
    method TransferPayload(chunkid: nat, data: seq<Atom>) returns (ok: bool)
      requires Valid() && CompletesRightly(chunkid, data)
      modifies this, db
      ensures due == old(due) + if old(conn).Some? then 1 else 0
      ensures old(conn).None? ==> ok && conn.None? && db.View() == old(db.View()) && disk == old(disk)
      ensures old(conn).Some? && (forall t :: t in old(conn).value.transfers ==> !(t.start <= chunkid < t.end)) ==> !ok
      ensures ok <==> OnPayload(old(View()), chunkid, data).Some?
      ensures ok ==> Valid() && View() == OnPayload(old(View()), chunkid, data).value
    {
      if conn.None? {
        return true;
      }
      due := due + 1;
      var found := LookupTransfer(chunkid);
      if found.None? {
        return false;
      }
      var t := found.value;
      if t.blockid !in db.blocks {
        return false;
      }
      ok := StorePayload(t, chunkid, data);
    }

    /** The chunk belongs to transfer `t`. */
    method StorePayload(t: Transfer, chunkid: nat, data: seq<Atom>) returns (ok: bool)
      requires Valid() && conn.Some? && FindTransfer(conn.value.transfers, chunkid) == Some(t)
      requires t.blockid in db.blocks && CompletesRightly(chunkid, data)
      modifies this`conn, this`disk, db
      ensures ok <==> OnPayload(old(View()), chunkid, data).Some?
      ensures ok ==> Valid() && View() == OnPayload(old(View()), chunkid, data).value
    {
      var block := StoreChunk(db.blocks[t.blockid], chunkid - t.start, data);
      StoreOutcome(View(), Msg(chunkid, data), t, block);
      if block.None? {
        return false;
      }
      ok := Stored(t, block.value);
    }

    /** The rest of the handler, once the chunk is in its block. */
    method Stored(t: Transfer, block: Block) returns (ok: bool)
      requires Valid() && conn.Some? && IsPartial(db.blocks, t.blockid)
      requires block.Partial? && block.id == t.blockid
      requires AllAvailable(block.available) ==> block.data == t.blockid.data
      modifies this`conn, this`disk, db
      ensures ok <==> OnStored(old(View()), t, block).Some?
      ensures ok ==> Valid() && View() == OnStored(old(View()), t, block).value
    {
      ghost var was := db.blocks;
      ghost var before := View();
      db.blocks := db.blocks[t.blockid := block];
      HonestStore(was, block);
      var stored, promoted := db.Promote(t.blockid);
      if !promoted {
        return true;
      }
      assert db.blocks == was[t.blockid := Full(t.blockid, t.blockid.data)];
      HonestStore(was, Full(t.blockid, t.blockid.data));
      RemoveTransfer(t);
      assert View() == Promote(before, t, block.data);
      ok := Promoted(t.blockid);
    }

    /** A block is full: resolve it, ask for its children, verify, and swap the root. */
    method Promoted(id: BlockId) returns (ok: bool)
      requires Valid() && conn.Some?
      modifies this`conn, this`disk, db
      ensures db.blocks == old(db.blocks)
      ensures ok && conn.Some? ==>
                && db.root == old(db.root) && db.pendingRoot == old(db.pendingRoot) && disk == old(disk)
                && conn.value.transfers == old(conn).value.transfers && old(conn).value.pending <= conn.value.pending
      ensures ok && conn.None? ==>
                && old(db.pendingRoot) == Some(db.root) && db.pendingRoot.None?
                && Some(disk) == WriteToDir(db.blocks, db.root)
      ensures ok <==> OnPromoted(old(View()), id).Some?
      ensures ok ==> View() == OnPromoted(old(View()), id).value
    {
      if db.pendingRoot.None? {
        return false;
      }
      var root := db.pendingRoot.value;
      var dec := Resolve(db.blocks, root, id);
      if dec.None? {
        return false;
      }
      if dec.value.Dir? {
        RequestMissing(dec.value.children);
      } else {
        assert old(conn).value.pending + {} == old(conn).value.pending;
      }
      var verified := Verify(db.blocks, root);
      if verified.None? {
        return false;
      }
      if !verified.value {
        return true;
      }
      var _ := db.ApplyPending();
      var folder := WriteToDir(db.blocks, db.root);
      if folder.None? {
        return false;
      }
      disk := folder.value;
      conn := None;
      return true;
    }

    /** Builds and encodes the status message; `None` is a panic. */
    method MakeStatus() returns (r: Option<seq<byte>>)
      ensures var rs := MissingNow(View());
              && (r.Some? <==> rs.Some? && Ascending(Flat(rs.value), 0))
              && (r.Some? ==> r.value == StatusMessage(rs.value))
    {
      var ts: seq<Transfer> := if conn.Some? then conn.value.transfers else [];
      var rle, i := [], 0;
      assert MissingNow(View()) == StatusRanges(ts, db.blocks);
      assert ts[0..] == ts && forall rs: seq<Range> :: [] + rs == rs;
      while i < |ts|
        invariant 0 <= i <= |ts|
        invariant StatusRanges(ts, db.blocks) == Behind(rle, StatusRanges(ts[i..], db.blocks))
      {
        var t := ts[i];
        if t.blockid !in db.blocks || db.blocks[t.blockid].Full? {
          return None;
        }
        var group := GroupRanges(db.blocks[t.blockid].available, t.start);
        StatusNext(ts, db.blocks, i, rle, group);
        rle := rle + group;
        i := i + 1;
      }
      assert rle + [] == rle;
      r := EncodeStatus(rle);
    }
  }

  /** Ranges in front of the rest, if that can be made. */
  function Behind(rle: seq<Range>, rest: Option<seq<Range>>): Option<seq<Range>> {
    if rest.None? then None else Some(rle + rest.value)
  }

  lemma {:induction false} StatusNext(ts: seq<Transfer>, blocks: Blocks, i: nat, rle: seq<Range>, group: seq<Range>)
    requires i < |ts| && ts[i].blockid in blocks && blocks[ts[i].blockid].Partial?
    requires group == ZeroRuns(blocks[ts[i].blockid].available, ts[i].start)
    ensures Behind(rle, StatusRanges(ts[i..], blocks)) == Behind(rle + group, StatusRanges(ts[i + 1..], blocks))
  {
    var tail := ts[i..];
    assert tail[0] == ts[i] && tail[1..] == ts[i + 1..];
    var rest := StatusRanges(ts[i + 1..], blocks);
    if rest.Some? {
      assert rle + (group + rest.value) == (rle + group) + rest.value;
    }
  }

  /** Storing decides: a panic, or what follows from the stored block. */
  lemma {:induction false} StoreOutcome(p: Peer, m: Msg, t: Transfer, block: Option<Block>)
    requires p.conn.Some? && FindTransfer(p.conn.value.transfers, m.chunkid) == Some(t) && t.blockid in p.db.blocks
    requires block == StoreChunk(p.db.blocks[t.blockid], m.chunkid - t.start, m.data)
    ensures OnPayload(p, m.chunkid, m.data) == if block.None? then None else OnStored(p, t, block.value)
  {
  }

  /** In every run, a payload of the sender that completes a block completes it rightly. */
  lemma {:induction false} SenderCompletesRightly(cfg: Config, steps: seq<Step>, m: Msg, t: Transfer)
    requires cfg.Valid() && Exec(cfg, steps).Some? && m in Exec(cfg, steps).value.payloads
    requires Exec(cfg, steps).value.peer.conn.Some?
    requires FindTransfer(Exec(cfg, steps).value.peer.conn.value.transfers, m.chunkid) == Some(t)
    ensures t.blockid in Exec(cfg, steps).value.peer.db.blocks
    ensures var r := StoreChunk(Exec(cfg, steps).value.peer.db.blocks[t.blockid], m.chunkid - t.start, m.data);
            r.Some? && AllAvailable(r.value.available) ==> r.value.data == t.blockid.data
  {
    RunInv(cfg, steps);
    var s := Exec(cfg, steps).value;
    if IsPartial(s.peer.db.blocks, t.blockid) {
      LiveStored(s.out.transfers, s.out.next, s.peer, m, t);
      var b := StoreChunk(s.peer.db.blocks[t.blockid], m.chunkid - t.start, m.data).value;
      if AllAvailable(b.available) {
        WholeBlock(b);
      }
    }
  }

  lemma {:induction false} RemoveMoves(ts: seq<Transfer>, t: Transfer, i: nat)
    requires i < |ts| && ts[i] != t
    ensures ts[..i] + Remove(ts[i..], t) == ts[..i + 1] + Remove(ts[i + 1..], t)
  {
    assert ts[i..][1..] == ts[i + 1..] && ts[..i + 1] == ts[..i] + [ts[i]];
  }
}
