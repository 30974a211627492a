/** The sending half of a v2 connection: allocation of chunk ids, and the sender loops that share
    one cursor. */
module TransferOuts {
  import opened Varints
  import opened Ranges
  import opened Blocks
  import opened TransferCodec

  function Chunks(len: nat): nat { (len + CHUNK_SIZE - 1) / CHUNK_SIZE }

  function ChunkStart(k: nat): nat { CHUNK_SIZE * k }

  /** Chunk `k` of a block: `skip(k * CHUNK_SIZE).take(CHUNK_SIZE)`. */
  function ChunkOf(data: seq<Atom>, k: nat): seq<Atom> {
    var from := ChunkStart(k);
    if from >= |data| then []
    else if from + CHUNK_SIZE <= |data| then data[from..from + CHUNK_SIZE]
    else data[from..]
  }

  /** Just enough chunks for a block, and each holds the bytes from its start on, at most a chunk's. */
  lemma {:induction false} ChunkBytes(data: seq<Atom>, k: nat)
    ensures CHUNK_SIZE * Chunks(|data|) >= |data| && (data != [] ==> CHUNK_SIZE * (Chunks(|data|) - 1) < |data|)
    ensures var c := ChunkOf(data, k);
            && |c| == (if CHUNK_SIZE * k >= |data| then 0
                       else if CHUNK_SIZE * k + CHUNK_SIZE <= |data| then CHUNK_SIZE else |data| - CHUNK_SIZE * k)
            && forall j :: 0 <= j < |c| ==> c[j] == data[CHUNK_SIZE * k + j]
  {
  }

  // ---------------------------------------------------------------- allocation

  /** Chunk ids `from..to` belong to a block; one id per byte, of which the first
      `Chunks(len)` are used. */
  datatype Allocation = Allocation(from: nat, to: nat, id: BlockId)

  function Find(transfers: seq<Allocation>, id: BlockId): (r: Option<Allocation>)
    ensures r.Some? ==> r.value in transfers && r.value.id == id
    ensures r.None? ==> forall a :: a in transfers ==> a.id != id
  {
    if transfers == [] then None
    else if transfers[0].id == id then Some(transfers[0])
    else Find(transfers[1..], id)
  }

  function FindChunk(transfers: seq<Allocation>, chunkid: nat): (r: Option<Allocation>)
    ensures r.Some? ==> r.value in transfers && r.value.from <= chunkid < r.value.to
    ensures r.None? ==> forall a :: a in transfers ==> !(a.from <= chunkid < a.to)
  {
    if transfers == [] then None
    else if transfers[0].from <= chunkid < transfers[0].to then Some(transfers[0])
    else FindChunk(transfers[1..], chunkid)
  }

  /** Ranges in ascending order without overlap, one per block, as long as the block. */
  ghost predicate AllocationsOk(transfers: seq<Allocation>, next: nat) {
    && (forall i :: 0 <= i < |transfers| ==> transfers[i].to == transfers[i].from + |transfers[i].id.data|)
    && (forall i :: 0 <= i < |transfers| ==> transfers[i].to <= next)
    && (forall i, j :: 0 <= i < j < |transfers| ==> transfers[i].to <= transfers[j].from)
    && (forall i, j :: 0 <= i < j < |transfers| ==> transfers[i].id != transfers[j].id)
  }

  /** Each chunk id lies in at most one allocated range. */
  lemma {:induction false} AllocationUnique(
      transfers: seq<Allocation>, next: nat, chunkid: nat, a: Allocation, b: Allocation)
    requires AllocationsOk(transfers, next) && a in transfers && b in transfers
    requires a.from <= chunkid < a.to && b.from <= chunkid < b.to
    ensures a == b
  {
    var i :| 0 <= i < |transfers| && transfers[i] == a;
    var j :| 0 <= j < |transfers| && transfers[j] == b;
  }

  // ---------------------------------------------------------------- sending

  /** `loops` counts the live sender loops; `sent` records the ids sent since the last status. */
  datatype Sending = Sending(todo: seq<Range>, cursor: Option<nat>, loops: nat, sent: seq<nat>)

  /** A status replaces todo and cursor, and launches a loop if the transfer was idle. */
  function OnStatus(s: Sending, rs: seq<Range>): Sending {
    var cursor := if rs == [] then None else Some(rs[0].from);
    Sending(rs, cursor, s.loops + (if s.cursor.None? && cursor.Some? then 1 else 0), [])
  }

  /** One iteration of any live loop: send the chunk under the cursor and move on, or stop. */
  function OnLoop(s: Sending): Sending
    requires s.loops > 0
  {
    match s.cursor
    case None => s.(loops := s.loops - 1)
    case Some(c) => s.(cursor := NextMissing(s.todo, c + 1), sent := s.sent + [c])
  }

  /** A cursor that is not idle points at something to do and has a live loop; what was sent since
      the last status, followed by what the cursor still has ahead, is exactly the missing ids. */
  ghost predicate SendingOk(s: Sending) {
    && Ordered(s.todo)
    && (s.cursor.Some? ==> s.loops >= 1 && Covers(s.todo, s.cursor.value))
    && Indices(s.todo) == s.sent + if s.cursor.Some? then IndicesFrom(s.todo, s.cursor.value) else []
  }

  lemma {:induction false} OnStatusOk(s: Sending, rs: seq<Range>)
    requires SendingOk(s) && Ordered(rs)
    ensures SendingOk(OnStatus(s, rs))
  {
    if rs != [] {
      CursorSkipAll(rs);
    }
  }

  lemma {:induction false} CursorSkipAll(rs: seq<Range>)
    requires Ordered(rs) && rs != []
    ensures IndicesFrom(rs, 0) == IndicesFrom(rs, rs[0].from) && Covers(rs, rs[0].from)
  {
    assert forall i :: 0 < i < |rs| ==> rs[0].to <= rs[i].from;
    CursorSkip(rs, 0, rs[0].from);
  }

  lemma {:induction false} OnLoopOk(s: Sending)
    requires SendingOk(s) && s.loops > 0
    ensures SendingOk(OnLoop(s))
  {
    if s.cursor.Some? {
      var c := s.cursor.value;
      AtCovered(s.todo, c);
      FromNext(s.todo, c + 1);
      var rest := IndicesFrom(s.todo, c + 1);
      assert s.sent + ([c] + rest) == (s.sent + [c]) + rest;
    }
  }

  // ---------------------------------------------------------------- every interleaving

  datatype Event = StatusArrives(ranges: seq<Range>) | LoopRuns

  ghost predicate EventsOk(events: seq<Event>) {
    forall i :: 0 <= i < |events| && events[i].StatusArrives? ==> Ordered(events[i].ranges)
  }

  /** The state after a run of statuses and loop iterations in any order; an iteration without a
      live loop changes nothing. */
  function Interleave(events: seq<Event>): Sending {
    if events == [] then Sending([], None, 0, [])
    else
      var s := Interleave(events[..|events| - 1]);
      match events[|events| - 1]
      case StatusArrives(rs) => OnStatus(s, rs)
      case LoopRuns => if s.loops > 0 then OnLoop(s) else s
  }

  lemma {:induction false} InterleaveOk(events: seq<Event>)
    requires EventsOk(events)
    ensures SendingOk(Interleave(events))
  {
    if events != [] {
      var before := events[..|events| - 1];
      InterleaveOk(before);
      var s := Interleave(before);
      match events[|events| - 1]
      case StatusArrives(rs) => OnStatusOk(s, rs);
      case LoopRuns => if s.loops > 0 { OnLoopOk(s); }
    }
  }

  /** For every interleaving of statuses with any number of live loops: a cursor that is not idle
      lies in a todo range and has a live loop, and the ids sent since the last status are an
      ascending, duplicate-free prefix of exactly the missing ids. */
  lemma {:induction false} SenderLoops(events: seq<Event>)
    requires EventsOk(events)
    ensures var s := Interleave(events);
            && Ordered(s.todo)
            && (s.cursor.Some? ==> s.loops >= 1 && Covers(s.todo, s.cursor.value))
            && s.sent <= Indices(s.todo)
            && StrictlyAscending(s.sent)
            && (s.cursor.None? ==> s.sent == Indices(s.todo))
  {
    InterleaveOk(events);
    var s := Interleave(events);
    IndicesAreCovered(s.todo, 0);
    assert forall i :: 0 <= i < |s.sent| ==> s.sent[i] == Indices(s.todo)[i];
  }

  /** Nonempty statuses that found the transfer idle. */
  function Launches(events: seq<Event>): nat {
    if events == [] then 0
    else
      var before, e := events[..|events| - 1], events[|events| - 1];
      Launches(before) + if e.StatusArrives? && e.ranges != [] && Interleave(before).cursor.None? then 1 else 0
  }

  /** Iterations of a live loop that found the transfer idle. */
  function Stops(events: seq<Event>): nat {
    if events == [] then 0
    else
      var before, e := events[..|events| - 1], events[|events| - 1];
      var s := Interleave(before);
      Stops(before) + if e.LoopRuns? && s.loops > 0 && s.cursor.None? then 1 else 0
  }

  /** For every interleaving, loops are launched exactly by nonempty statuses at an idle transfer and
      end exactly when they find it idle: a status at a busy transfer launches none. */
  lemma {:induction false} LoopsCounted(events: seq<Event>)
    ensures Interleave(events).loops + Stops(events) == Launches(events)
  {
    if events != [] {
      LoopsCounted(events[..|events| - 1]);
    }
  }

  // ---------------------------------------------------------------- the object

  datatype Response = Response(blockid: BlockId, start: nat, end: nat, len: nat)

  datatype Out = Out(sending: Sending, transfers: seq<Allocation>, next: nat)

  /** `block_request` for a stored block of `len` bytes; `None` is an id beyond 64 bits. */
  function AllocateLength(out: Out, id: BlockId, len: nat): (r: Option<Out>) {
    if Find(out.transfers, id).Some? then Some(out)
    else if out.next + len >= U64_LIMIT then None
    else
      Some(out.(transfers := out.transfers + [Allocation(out.next, out.next + len, id)], next := out.next + len))
  }

  /** For a block that has the length its id stands for. */
  function Allocate(out: Out, id: BlockId): (r: Option<Out>) { AllocateLength(out, id, |id.data|) }

  function ResponseTo(a: Allocation): Response { Response(a.id, a.from, a.to, |a.id.data|) }

  lemma {:induction false} FindAppend(transfers: seq<Allocation>, a: Allocation)
    requires Find(transfers, a.id).None?
    ensures Find(transfers + [a], a.id) == Some(a)
  {
    if transfers != [] {
      assert (transfers + [a])[1..] == transfers[1..] + [a];
      FindAppend(transfers[1..], a);
    }
  }

  lemma {:induction false} AllocationsAppend(transfers: seq<Allocation>, next: nat, id: BlockId)
    requires AllocationsOk(transfers, next) && forall a :: a in transfers ==> a.id != id
    ensures AllocationsOk(transfers + [Allocation(next, next + |id.data|, id)], next + |id.data|)
  {
    assert forall i :: 0 <= i < |transfers| ==> transfers[i] in transfers;
  }

  lemma {:induction false} AllocateFresh(out: Out, id: BlockId)
    requires Find(out.transfers, id).None? && Allocate(out, id).Some?
    ensures var a, out' := Allocation(out.next, out.next + |id.data|, id), Allocate(out, id).value;
            && out'.transfers == out.transfers + [a] && out'.next == out.next + |id.data|
            && Find(out'.transfers, id) == Some(a)
  {
    FindAppend(out.transfers, Allocation(out.next, out.next + |id.data|, id));
  }

  /** Allocation keeps ranges disjoint and one per block; earlier ranges never change, and asking
      again gives the same range. */
  lemma {:induction false} AllocateOk(out: Out, id: BlockId)
    requires AllocationsOk(out.transfers, out.next) && Allocate(out, id).Some?
    ensures var out' := Allocate(out, id).value;
            && AllocationsOk(out'.transfers, out'.next)
            && out.transfers <= out'.transfers
            && Find(out'.transfers, id).Some?
            && Allocate(out', id) == Some(out')
  {
    if Find(out.transfers, id).None? {
      AllocateFresh(out, id);
      AllocationsAppend(out.transfers, out.next, id);
    }
  }

  datatype Iteration = SendPayload(chunkid: nat, data: seq<Atom>) | Stop | Panic

  class TransferOut {
    var todo: seq<Range>
    var cursor: Option<nat>
    var transfers: seq<Allocation>
    var transferCursor: nat
    ghost var loops: nat
    ghost var sent: seq<nat>

    ghost function View(): Out
      reads this
    {
      Out(Sending(todo, cursor, loops, sent), transfers, transferCursor)
    }

    /** Idle, with a random first id. */
    constructor (start: nat)
      ensures View() == Out(Sending([], None, 0, []), [], start)
    {
      todo, cursor, transfers, transferCursor := [], None, [], start;
      loops, sent := 0, [];
    }

    /** `block_request`: finds the block's range or allocates the next ids. `None` is a panic: the block
        is not stored, or an id lies beyond 64 bits. */
    method BlockRequest(blocks: Blocks, id: BlockId) returns (r: Option<Response>)
      modifies this
      ensures r.Some? <==> id in blocks && AllocateLength(old(View()), id, |blocks[id].data|).Some?
      ensures r.Some? ==> AllocateLength(old(View()), id, |blocks[id].data|) == Some(View())
      ensures r.Some? ==> Find(transfers, id).Some?
      ensures r.Some? ==>
                var a := Find(transfers, id).value; r.value == Response(id, a.from, a.to, |blocks[id].data|)
      ensures todo == old(todo) && cursor == old(cursor)
      ensures r.Some? ==>
                if exists a :: a in old(transfers) && a.id == id
                then transfers == old(transfers) && transferCursor == old(transferCursor)
                else
                  && transferCursor == old(transferCursor) + |blocks[id].data|
                  && transfers == old(transfers) + [Allocation(old(transferCursor), transferCursor, id)]
    {
      if id !in blocks {
        return None;
      }
      var len := |blocks[id].data|;
      var found := Lookup(id);
      if found.Some? {
        return Some(Response(id, found.value.from, found.value.to, len));
      }
      var start := transferCursor;
      if start + len >= U64_LIMIT {
        return None;
      }
      FindAppend(transfers, Allocation(start, start + len, id));
      transferCursor := start + len;
      transfers := transfers + [Allocation(start, start + len, id)];
      return Some(Response(id, start, start + len, len));
    }

    method Lookup(id: BlockId) returns (r: Option<Allocation>)
      ensures r == Find(transfers, id)
    {
      var i := 0;
      while i < |transfers|
        invariant 0 <= i <= |transfers|
        invariant Find(transfers, id) == Find(transfers[i..], id)
      {
        if transfers[i].id == id {
          return Some(transfers[i]);
        }
        assert transfers[i..][1..] == transfers[i + 1..];
        i := i + 1;
      }
      return None;
    }

    /** `transfer_status`: whether a loop must be launched. */
    method TransferStatus(ranges: seq<Range>) returns (launch: bool)
      modifies this
      ensures View() == old(View()).(sending := OnStatus(old(View()).sending, ranges))
      ensures launch <==> old(cursor).None? && ranges != []
      ensures loops == old(loops) + (if launch then 1 else 0)
      ensures todo == ranges && cursor == (if ranges == [] then None else Some(ranges[0].from))
      ensures transfers == old(transfers) && transferCursor == old(transferCursor)
    {
      var newCursor := if ranges == [] then None else Some(ranges[0].from);
      launch := cursor.None? && newCursor.Some?;
      cursor := newCursor;
      todo := ranges;
      sent := [];
      if launch {
        loops := loops + 1;
      }
    }

    /** One iteration of a sender loop. It panics when the cursor is not allocated, or the block there
        is missing or not full. */
    method LoopIteration(blocks: Blocks) returns (it: Iteration)
      requires loops > 0
      modifies this`cursor, this`loops, this`sent
      ensures it.Stop? <==> old(cursor).None?
      ensures it.Panic? <==> old(cursor).Some? && !Sendable(blocks, old(cursor).value)
      ensures !it.Panic? ==> View() == old(View()).(sending := OnLoop(old(View()).sending))
      ensures it.SendPayload? ==> it.chunkid == old(cursor).value && loops == old(loops)
      ensures it.SendPayload? && Ordered(todo) ==>
                match cursor
                case None => forall y: nat :: it.chunkid < y ==> !Covers(todo, y)
                case Some(x) =>
                  && it.chunkid < x && Covers(todo, x)
                  && forall y: nat :: it.chunkid < y < x ==> !Covers(todo, y)
      ensures it.Stop? ==> loops == old(loops) - 1 && cursor == old(cursor)
      ensures it.SendPayload? ==>
                var a := FindChunk(transfers, it.chunkid).value;
                it.data == ChunkOf(blocks[a.id].data, it.chunkid - a.from)
    {
      if cursor.None? {
        loops := loops - 1;
        return Stop;
      }
      var c := cursor.value;
      var found := LookupChunk(c);
      if found.None? || !IsFull(blocks, found.value.id) {
        return Panic;
      }
      var a := found.value;
      cursor := NextTodo(c + 1);
      if Ordered(todo) {
        NextIsLeast(todo, c + 1);
      }
      sent := sent + [c];
      return SendPayload(c, ChunkOf(blocks[a.id].data, c - a.from));
    }

    ghost predicate Sendable(blocks: Blocks, c: nat)
      reads this
    {
      FindChunk(transfers, c).Some? && IsFull(blocks, FindChunk(transfers, c).value.id)
    }

    method LookupChunk(c: nat) returns (r: Option<Allocation>)
      ensures r == FindChunk(transfers, c)
    {
      var i := 0;
      while i < |transfers|
        invariant 0 <= i <= |transfers|
        invariant FindChunk(transfers, c) == FindChunk(transfers[i..], c)
      {
        if transfers[i].from <= c < transfers[i].to {
          return Some(transfers[i]);
        }
        assert transfers[i..][1..] == transfers[i + 1..];
        i := i + 1;
      }
      return None;
    }

    method NextTodo(next: nat) returns (r: Option<nat>)
      ensures r == NextMissing(todo, next)
    {
      var j := 0;
      while j < |todo|
        invariant 0 <= j <= |todo|
        invariant NextMissing(todo, next) == NextMissing(todo[j..], next)
      {
        if next < todo[j].to {
          return Some(Max(todo[j].from, next));
        }
        assert todo[j..][1..] == todo[j + 1..];
        j := j + 1;
      }
      return None;
    }
  }
}
