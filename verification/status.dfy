/** v1 status updates: the run-length encoder with its cut, the decoder and the cursor. */
module StatusUpdates {
  import opened Varints
  import opened Ranges
  import opened Runs
  import opened BitMaps

  /** The status update for `bits` in a buffer of `room` bytes: as many complete varints of the
      run lengths, starting with ones, as fit. */
  function StatusBytes(bits: seq<bool>, room: nat): seq<byte> {
    var runs := RunLengths(bits, true);
    EncodeAll(runs[..FitCount(runs, room)])
  }

  /** Number of complete (ones, zeroes) pairs that fit. */
  function PairsThatFit(bits: seq<bool>, room: nat): nat {
    FitCount(RunLengths(bits, true), room) / 2
  }

  // ---------------------------------------------------------------- the encoder loop

  /** Appending a value to a written prefix, when it fits and when it does not. */
  lemma {:induction false} FitAppend(done: seq<nat>, v: nat, more: seq<nat>, room: nat)
    requires |EncodeAll(done)| <= room
    ensures |EncodeAll(done)| + |Encode(v)| > room ==> FitCount(done + [v] + more, room) == |done|
    ensures EncodeAll(done + [v]) == EncodeAll(done) + Encode(v)
  {
    if done != [] {
      assert (done + [v] + more)[1..] == done[1..] + [v] + more;
      assert (done + [v])[1..] == done[1..] + [v];
      FitAppend(done[1..], v, more, room - |Encode(done[0])|);
    } else {
      assert (done + [v] + more) == [v] + more;
      assert EncodeAll([v]) == Encode(v) + EncodeAll([]);
    }
  }

  /** Run lengths of the whole bitmap, given what was emitted, the current count and the rest. */
  ghost predicate RunsSoFar(bits: seq<bool>, done: seq<nat>, count: nat, v: bool, rest: seq<bool>) {
    var tail := RunLengths(rest, v);
    RunLengths(bits, true) == done + [count + tail[0]] + tail[1..]
  }

  lemma {:induction false} RunsSame(bits: seq<bool>, done: seq<nat>, count: nat, v: bool, rest: seq<bool>)
    requires rest != [] && rest[0] == v && RunsSoFar(bits, done, count, v, rest)
    ensures RunsSoFar(bits, done, count + 1, v, rest[1..])
  {
  }

  lemma {:induction false} RunsFlip(bits: seq<bool>, done: seq<nat>, count: nat, v: bool, rest: seq<bool>)
    requires rest != [] && rest[0] != v && RunsSoFar(bits, done, count, v, rest)
    ensures RunsSoFar(bits, done + [count], 1, !v, rest[1..])
    ensures RunLengths(bits, true) == done + [count] + RunLengths(rest, !v)
  {
    var tail := RunLengths(rest[1..], !v);
    assert RunLengths(rest, !v) == [1 + tail[0]] + tail[1..];
    assert RunLengths(rest, v)[1..] == RunLengths(rest, !v);
    assert done + [count] + ([1 + tail[0]] + tail[1..]) == (done + [count]) + [1 + tail[0]] + tail[1..];
  }

  /** A run that does not fit ends the update after the runs before it. */
  lemma {:induction false} CutHere(bits: seq<bool>, done: seq<nat>, count: nat, more: seq<nat>, room: nat)
    requires RunLengths(bits, true) == done + [count] + more
    requires |EncodeAll(done)| <= room < |EncodeAll(done)| + |Encode(count)|
    ensures StatusBytes(bits, room) == EncodeAll(done)
  {
    FitAppend(done, count, more, room);
    assert (done + [count] + more)[..|done|] == done;
  }

  lemma {:induction false} CompleteHere(bits: seq<bool>, done: seq<nat>, room: nat)
    requires RunLengths(bits, true) == done && |EncodeAll(done)| <= room
    ensures StatusBytes(bits, room) == EncodeAll(done)
  {
    FitAll(done, room);
    assert done[..|done|] == done;
  }

  /** Encodes the bitmap into the slice `w` and returns how many bytes of complete varints it
      wrote; a varint that does not fit ends the encoding. */
  method WriteRunlengthEncoded(bitmap: BitMap, w: array<byte>) returns (written: nat)
    requires bitmap.Valid() && w as object != bitmap.buf  // borrows never overlap
    modifies w
    ensures written <= w.Length
    ensures w[..written] == StatusBytes(old(bitmap.Bits()), w.Length)
  {
    ghost var bits := bitmap.Bits();
    ghost var done: seq<nat> := [];
    var count: nat, prev, front := 0, true, 0;
    var ok;
    written := 0;
    while front != bitmap.numBits
      invariant 0 <= front <= bitmap.numBits && written <= w.Length
      invariant bitmap.Bits() == bits
      invariant w[..written] == EncodeAll(done)
      invariant RunsSoFar(bits, done, count, prev, bits[front..])
    {
      var bit := bitmap.Get(front);
      ghost var rest := bits[front..];
      assert rest[0] == bit.value && rest[1..] == bits[front + 1..];
      if bit.value == prev {
        RunsSame(bits, done, count, prev, rest);
        count := count + 1;
      } else {
        RunsFlip(bits, done, count, prev, rest);
        ok, written := Emit(w, written, count, done);
        if !ok {
          CutHere(bits, done, count, RunLengths(rest, !prev), w.Length);
          return;
        }
        done := done + [count];
        prev, count := bit.value, 1;
      }
      front := front + 1;
    }
    assert bits[front..] == [] && RunLengths(bits, true) == done + [count] + [];
    ok, written := Emit(w, written, count, done);
    if ok {
      CompleteHere(bits, done + [count], w.Length);
    } else {
      CutHere(bits, done, count, [], w.Length);
    }
  }

  /** One `write_u64_varint` of the encoder with its bookkeeping. */
  method Emit(w: array<byte>, written: nat, count: nat, ghost done: seq<nat>) returns (ok: bool, next: nat)
    requires written <= w.Length && w[..written] == EncodeAll(done)
    modifies w
    ensures next <= w.Length
    ensures ok <==> written + |Encode(count)| <= w.Length
    ensures w[..next] == EncodeAll(if ok then done + [count] else done)
  {
    FitAppend(done, count, [], w.Length);
    var after;
    ok, after := WriteVarint(w, written, count);
    next := written;
    if ok {
      assert w[..after] == w[..written] + w[written..after];
      next := after;
    }
  }

  // ---------------------------------------------------------------- the round trip

  /** A status update decodes to the maximal zero runs of the bitmap, cut to those whose run
      pair fitted: nothing that was received is ever reported as missing. */
  lemma {:induction false} StatusRoundTrip(bits: seq<bool>, room: nat)
    requires |bits| < U64_LIMIT
    ensures PairsThatFit(bits, room) <= |ZeroRuns(bits, 0)|
    ensures DecodeRanges(StatusBytes(bits, room)) == Some(ZeroRuns(bits, 0)[..PairsThatFit(bits, room)])
  {
    var runs := RunLengths(bits, true);
    var m := FitCount(runs, room);
    RunLengthsTotal(bits, true);
    RunLengthsDecode(bits, 0);
    TotalOfPrefix(runs, m);
    DecodeCut(runs[..m], |EncodeAll(runs[..m])|);
    FitAll(runs[..m], |EncodeAll(runs[..m])|);
    assert EncodeAll(runs[..m])[..|EncodeAll(runs[..m])|] == EncodeAll(runs[..m]);
    PairsOfPrefix(runs, 0, m);
    var rs := Pairs(PrefixSums(runs[..m], 0));
    assert rs[..m / 2] == rs;
  }

  /** An update that was not cut reports exactly the zero bits. */
  lemma {:induction false} UncutStatusIsExact(bits: seq<bool>, room: nat)
    requires |bits| < U64_LIMIT
    requires |EncodeAll(RunLengths(bits, true))| <= room
    ensures DecodeRanges(StatusBytes(bits, room)) == Some(ZeroRuns(bits, 0))
    ensures AreMaximalZeroRuns(bits, 0, ZeroRuns(bits, 0))
  {
    StatusRoundTrip(bits, room);
    FitAll(RunLengths(bits, true), room);
    RunLengthsDecode(bits, 0);
    ZeroRunsAreMaximal(bits, 0);
    assert ZeroRuns(bits, 0)[..|ZeroRuns(bits, 0)|] == ZeroRuns(bits, 0);
  }

  /** With room for two varints, the decoded update is empty exactly when no bit is zero. */
  lemma {:induction false} StatusEmptyIffComplete(bits: seq<bool>, room: nat)
    requires |bits| < U64_LIMIT && room >= 20
    ensures DecodeRanges(StatusBytes(bits, room)) == Some([]) <==> forall i :: 0 <= i < |bits| ==> bits[i]
  {
    StatusRoundTrip(bits, room);
    var runs := RunLengths(bits, true);
    RunLengthsTotal(bits, true);
    TotalBoundsAll(runs);
    U64Length(runs[0]);
    if |runs| >= 2 {
      U64Length(runs[1]);
      assert runs[1..][0] == runs[1];
      assert FitCount(runs, room) >= 2;
    }
    RunLengthsDecode(bits, 0);
    assert ZeroRuns(bits, 0) == [] <==> |runs| < 2;
    if ZeroRuns(bits, 0) == [] {
      forall i | 0 <= i < |bits| ensures bits[i] {
        ZeroRunsCover(bits, 0, i);
      }
    } else {
      ZeroRunsOrdered(bits, 0);
      var r := ZeroRuns(bits, 0)[0];
      assert Covers(ZeroRuns(bits, 0), r.from);
      ZeroRunsCover(bits, 0, r.from);
    }
  }

  /** The ids a decoded update reports are zero bits of the bitmap it was made from. */
  lemma {:induction false} ReportedIsMissing(bits: seq<bool>, room: nat, x: nat)
    requires |bits| < U64_LIMIT
    requires DecodeRanges(StatusBytes(bits, room)).Some?
    requires Covers(DecodeRanges(StatusBytes(bits, room)).value, x)
    ensures x < |bits| && !bits[x]
  {
    StatusRoundTrip(bits, room);
    var rs := ZeroRuns(bits, 0)[..PairsThatFit(bits, room)];
    var i :| 0 <= i < |rs| && rs[i].from <= x < rs[i].to;
    assert ZeroRuns(bits, 0)[i] == rs[i];
    ZeroRunsCover(bits, 0, x);
  }

  /** Decoded updates can be walked with the cursor. */
  lemma {:induction false} DecodedIsOrdered(bits: seq<bool>, room: nat)
    requires |bits| < U64_LIMIT
    ensures DecodeRanges(StatusBytes(bits, room)).Some?
    ensures Ordered(DecodeRanges(StatusBytes(bits, room)).value)
    ensures Within(DecodeRanges(StatusBytes(bits, room)).value, 0, |bits|)
  {
    StatusRoundTrip(bits, room);
    ZeroRunsOrdered(bits, 0);
  }

  // ---------------------------------------------------------------- the client's view

  class MissingRanges {
    var missing: seq<Range>
    var cursor: nat

    constructor ()
      ensures missing == [] && cursor == 0
    {
      missing, cursor := [], 0;
    }

    /** Replaces the view; `Some(true)` says nothing is missing, `None` is a panic. */
    method ParseStatusUpdate(update: seq<byte>) returns (r: Option<bool>)
      modifies this
      ensures DecodeRanges(update).None? <==> r.None?
      ensures r.Some? ==> missing == DecodeRanges(update).value && cursor == 0 && r.value == (missing == [])
    {
      missing := [];
      match DecodeRanges(update)
      case None => r := None;
      case Some(rs) =>
        missing := missing + rs;
        cursor := 0;
        r := Some(missing == []);
    }

    /** The next missing chunk at or after `cursor + 1`, without moving. */
    method AdvanceCursor(c: nat) returns (r: Option<nat>)
      ensures r == NextMissing(missing, c + 1)
    {
      r := Find(c + 1);
    }

    /** Takes the first missing chunk at or after the cursor. */
    method NextChunk() returns (r: Option<nat>)
      modifies this`cursor
      ensures r == NextMissing(missing, old(cursor))
      ensures cursor == if r.Some? then r.value + 1 else old(cursor)
      ensures Ordered(missing) && r.Some? ==>
                IndicesFrom(missing, old(cursor)) == [r.value] + IndicesFrom(missing, cursor)
    {
      r := Find(cursor);
      if Ordered(missing) { NextIsHead(missing, cursor); }
      if r.Some? {
        cursor := r.value + 1;
      }
    }

    method Find(c: nat) returns (r: Option<nat>)
      ensures r == NextMissing(missing, c)
    {
      var i := 0;
      while i < |missing|
        invariant 0 <= i <= |missing|
        invariant NextMissing(missing, c) == NextMissing(missing[i..], c)
      {
        if missing[i].to > c {
          return Some(Max(c, missing[i].from));
        }
        assert missing[i..][1..] == missing[i + 1..];
        i := i + 1;
      }
      return None;
    }
  }

  /** After an update made by the encoder, repeated `next_chunk` calls yield every reported id
      once, in ascending order; the number still to come is what decreases. */
  lemma {:induction false} NextChunkEnumerates(bits: seq<bool>, room: nat)
    requires |bits| < U64_LIMIT
    ensures DecodeRanges(StatusBytes(bits, room)).Some?
    ensures var rs := DecodeRanges(StatusBytes(bits, room)).value;
            && Ordered(rs)
            && StrictlyAscending(Enumerate(rs, 0))
            && (forall x: nat :: x in Enumerate(rs, 0) <==> Covers(rs, x))
            && (forall x: nat :: x in Enumerate(rs, 0) ==> x < |bits| && !bits[x])
  {
    DecodedIsOrdered(bits, room);
    var rs := DecodeRanges(StatusBytes(bits, room)).value;
    IndicesAreCovered(rs, 0);
    forall x: nat | Covers(rs, x) ensures x < |bits| && !bits[x] {
      ReportedIsMissing(bits, room, x);
    }
  }

  /** An empty range, which no encoder output contains, would be yielded as a missing chunk. */
  lemma {:induction false} EmptyRangeIsYielded()
    ensures NextMissing([Range(3, 3)], 0) == Some(3) && !Covers([Range(3, 3)], 3)
  {
  }
}
