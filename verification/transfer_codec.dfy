/** v2 wire formats of block transfer: delta-coded status messages and payloads. */
module TransferCodec {
  import opened Varints
  import opened Ranges
  import opened Runs

  const CHUNK_SIZE: nat := 1450

  // ---------------------------------------------------------------- status messages

  /** `flat_map(|(from, to)| [from, to])` */
  function Flat(rs: seq<Range>): (xs: seq<nat>)
    ensures |xs| == 2 * |rs|
  {
    if rs == [] then [] else [rs[0].from, rs[0].to] + Flat(rs[1..])
  }

  predicate Ascending(xs: seq<nat>, acc: nat) {
    xs == [] || (acc <= xs[0] && Ascending(xs[1..], xs[0]))
  }

  /** `scan(0, |a, x| { x -= *a; *a += x; Some(x) })`, started at `acc`. */
  function Deltas(xs: seq<nat>, acc: nat): (ds: seq<nat>)
    requires Ascending(xs, acc)
    ensures |ds| == |xs|
  {
    if xs == [] then [] else [xs[0] - acc] + Deltas(xs[1..], xs[0])
  }

  /** The message, cut to the MTU wherever that falls. */
  function StatusMessage(rs: seq<Range>): seq<byte>
    requires Ascending(Flat(rs), 0)
  {
    Truncate([1] + EncodeAll(Deltas(Flat(rs), 0)), MTU)
  }

  function Truncate(s: seq<byte>, k: nat): seq<byte> { if |s| <= k then s else s[..k] }

  /** Encodes a status; `None` is the panic of a subtraction below zero, which happens exactly when
      the ranges are not in ascending order. */
  method EncodeStatus(rs: seq<Range>) returns (r: Option<seq<byte>>)
    ensures r.Some? <==> Ascending(Flat(rs), 0)
    ensures r.Some? ==> r.value == StatusMessage(rs)
  {
    var xs := Flat(rs);
    var dst: seq<byte> := [1];
    var acc, i := 0, 0;
    while i < |xs|
      invariant 0 <= i <= |xs|
      invariant Ascending(xs, 0) <==> Ascending(xs[i..], acc)
      invariant Ascending(xs, 0) ==> [1] + EncodeAll(Deltas(xs, 0)) == dst + EncodeAll(Deltas(xs[i..], acc))
    {
      assert xs[i..][1..] == xs[i + 1..];
      if xs[i] < acc {
        return None;
      }
      var delta := xs[i] - acc;
      if Ascending(xs[i..], acc) {
        assert Deltas(xs[i..], acc) == [delta] + Deltas(xs[i + 1..], xs[i]);
        assert EncodeAll(Deltas(xs[i..], acc)) == Encode(delta) + EncodeAll(Deltas(xs[i + 1..], xs[i]));
      }
      dst := dst + Encode(delta);
      acc := acc + delta;
      i := i + 1;
    }
    assert xs[i..] == [];
    if |dst| > MTU {
      dst := dst[..MTU];
    }
    return Some(dst);
  }

  /** Decodes a message with discriminator 1; `None` is a panic. */
  function DecodeStatus(bytes: seq<byte>): (r: Option<seq<Range>>)
    ensures r.Some? ==> bytes != [] && bytes[0] == 1
  {
    if bytes == [] || bytes[0] != 1 then None else DecodeRanges(bytes[1..])
  }

  lemma {:induction false} FlatExample()
    ensures Flat([Range(3, 5), Range(300, 301)]) == [3, 5, 300, 301]
  {
    var a, b := Range(3, 5), Range(300, 301);
    assert [a, b][1..] == [b] && [b][1..] == [];
    assert Flat([b]) == [300, 301] + Flat([]);
  }

  lemma {:induction false} DeltasExample()
    ensures Ascending([3, 5, 300, 301], 0) && Deltas([3, 5, 300, 301], 0) == [3, 2, 295, 1]
  {
    assert [3, 5, 300, 301][1..] == [5, 300, 301] && [5, 300, 301][1..] == [300, 301];
    assert [300, 301][1..] == [301] && [301][1..] == [];
    assert Deltas([300, 301], 5) == [295, 1];
  }

  lemma {:induction false} BytesExample()
    ensures EncodeAll([3, 2, 295, 1]) == [3, 2, 167, 2, 1]
  {
    assert [3, 2, 295, 1][1..] == [2, 295, 1] && [2, 295, 1][1..] == [295, 1];
    assert [295, 1][1..] == [1] && [1][1..] == [];
    assert Encode(295) == [167, 2];
    assert EncodeAll([295, 1]) == [167, 2, 1];
  }

  /** A whole message, byte by byte. */
  lemma {:induction false} StatusExample()
    ensures Ascending(Flat([Range(3, 5), Range(300, 301)]), 0)
    ensures StatusMessage([Range(3, 5), Range(300, 301)]) == [1, 3, 2, 167, 2, 1]
  {
    FlatExample();
    DeltasExample();
    BytesExample();
  }

  lemma {:induction false} DeltasSum(xs: seq<nat>, acc: nat)
    requires Ascending(xs, acc)
    ensures PrefixSums(Deltas(xs, acc), acc) == xs
    ensures Total(Deltas(xs, acc)) == if xs == [] then 0 else xs[|xs| - 1] - acc
  {
    if xs != [] {
      DeltasSum(xs[1..], xs[0]);
    }
  }

  lemma {:induction false} FlatPairs(rs: seq<Range>)
    ensures Pairs(Flat(rs)) == rs
  {
    if rs != [] {
      FlatPairs(rs[1..]);
      assert Flat(rs)[2..] == Flat(rs[1..]);
    }
  }

  lemma {:induction false} AscendingTwo(a: nat, b: nat, xs: seq<nat>, acc: nat)
    requires acc <= a <= b && Ascending(xs, b)
    ensures Ascending([a, b] + xs, acc)
  {
    var ys := [a, b] + xs;
    assert ys[1..] == [b] + xs && ys[1..][1..] == xs;
  }

  lemma {:induction false} OrderedIsAscending(rs: seq<Range>, acc: nat)
    requires Ordered(rs) && (rs != [] ==> acc <= rs[0].from)
    ensures Ascending(Flat(rs), acc)
  {
    if rs != [] {
      OrderedIsAscending(rs[1..], rs[0].to);
      AscendingTwo(rs[0].from, rs[0].to, Flat(rs[1..]), acc);
    }
  }

  lemma {:induction false} FlatLast(rs: seq<Range>)
    requires rs != []
    ensures Flat(rs)[|Flat(rs)| - 1] == rs[|rs| - 1].to
  {
    if |rs| > 1 {
      FlatLast(rs[1..]);
    }
  }

  /** Number of complete ranges in the message for `rs`. */
  function RangesThatFit(rs: seq<Range>): nat
    requires Ascending(Flat(rs), 0)
  {
    FitCount(Deltas(Flat(rs), 0), MTU - 1) / 2
  }

  lemma {:induction false} DecodeTruncated(ds: seq<nat>, room: nat)
    requires Total(ds) < U64_LIMIT
    ensures DecodeStatus(Truncate([1] + EncodeAll(ds), room + 1))
         == Some(Pairs(PrefixSums(ds, 0))[..FitCount(ds, room) / 2])
  {
    var all := EncodeAll(ds);
    var k := if |all| <= room then |all| else room;
    assert Truncate([1] + all, room + 1)[1..] == all[..k];
    DecodeCut(ds, k);
    FitAll(ds, |all|);
    FitAll(ds, room);
  }

  lemma {:induction false} DeltasTotal(rs: seq<Range>)
    requires Ascending(Flat(rs), 0)
    ensures Total(Deltas(Flat(rs), 0)) == if rs == [] then 0 else rs[|rs| - 1].to
  {
    var xs := Flat(rs);
    DeltasSum(xs, 0);
    if rs != [] {
      FlatLast(rs);
    }
  }

  /** Flattening, deltas, prefix sums and pairs undo each other. */
  lemma {:induction false} DeltasDecode(rs: seq<Range>)
    requires Ascending(Flat(rs), 0)
    ensures Pairs(PrefixSums(Deltas(Flat(rs), 0), 0)) == rs
  {
    DeltasSum(Flat(rs), 0);
    FlatPairs(rs);
  }

  /** A status message, cut anywhere, even inside a varint or between the ends of a range, decodes
      to a prefix of the ranges it was made from, those whose both ends survived, and to all of
      them when nothing was cut. */
  lemma {:induction false} StatusWire(rs: seq<Range>)
    requires Ordered(rs) && (rs != [] ==> rs[|rs| - 1].to < U64_LIMIT)
    ensures Ascending(Flat(rs), 0)
    ensures RangesThatFit(rs) <= |rs|
    ensures DecodeStatus(StatusMessage(rs)) == Some(rs[..RangesThatFit(rs)])
    ensures 1 + |EncodeAll(Deltas(Flat(rs), 0))| <= MTU ==> DecodeStatus(StatusMessage(rs)) == Some(rs)
  {
    OrderedIsAscending(rs, 0);
    DeltasDecode(rs);
    DeltasTotal(rs);
    var ds := Deltas(Flat(rs), 0);
    DecodeTruncated(ds, MTU - 1);
    FitAll(ds, MTU - 1);
    assert rs[..|rs|] == rs;
  }

  /** In an ascending message every earlier range ends before a later one starts. */
  lemma {:induction false} AscendingAt(rs: seq<Range>, acc: nat, i: nat, j: nat)
    requires Ascending(Flat(rs), acc) && i < j < |rs|
    ensures acc <= rs[i].from && rs[i].to <= rs[j].from
  {
    var rest := rs[1..];
    assert Flat(rs)[1..] == [rs[0].to] + Flat(rest) && Flat(rs)[1..][1..] == Flat(rest);
    if i > 0 {
      AscendingAt(rest, rs[0].to, i - 1, j - 1);
    } else {
      AscendingSelf(rest, rs[0].to, j - 1);
    }
  }

  lemma {:induction false} AscendingSelf(rs: seq<Range>, acc: nat, j: nat)
    requires Ascending(Flat(rs), acc) && j < |rs|
    ensures acc <= rs[j].from
  {
    if j > 0 {
      assert Flat(rs)[1..] == [rs[0].to] + Flat(rs[1..]) && Flat(rs)[1..][1..] == Flat(rs[1..]);
      AscendingSelf(rs[1..], rs[0].to, j - 1);
    }
  }

  // ---------------------------------------------------------------- availability runs

  lemma {:induction false} SkipOnes(bits: seq<bool>, off: nat, n: nat)
    requires n <= |bits| && forall i :: 0 <= i < n ==> bits[i]
    ensures ZeroRuns(bits, off) == ZeroRuns(bits[n..], off + n)
  {
    if n > 0 {
      SkipOnes(bits[1..], off + 1, n - 1);
      assert bits[1..][n - 1..] == bits[n..];
    } else {
      assert bits[0..] == bits;
    }
  }

  lemma {:induction false} TakeZeros(bits: seq<bool>, off: nat, n: nat)
    requires 1 <= n <= |bits| && forall i :: 0 <= i < n ==> !bits[i]
    requires n < |bits| ==> bits[n]
    ensures ZeroRuns(bits, off) == [Range(off, off + n)] + ZeroRuns(bits[n..], off + n)
  {
    if n > 1 {
      TakeZeros(bits[1..], off + 1, n - 1);
      assert bits[1..][n - 1..] == bits[n..];
    } else {
      var rest := bits[1..];
      ZeroRunsOrdered(rest, off + 1);
      var rs := ZeroRuns(rest, off + 1);
      if rs != [] && rs[0].from == off + 1 {
        assert Covers(rs, off + 1);
        ZeroRunsCover(rest, off + 1, off + 1);
      }
    }
  }

  /** One group taken off the rest: pushed when unavailable, skipped otherwise. */
  lemma {:induction false} TakeGroup(rest: seq<bool>, off: nat, count: nat, rle: seq<Range>)
    requires 1 <= count <= |rest| && forall j :: 0 <= j < count ==> rest[j] == rest[0]
    requires count < |rest| ==> rest[count] != rest[0]
    ensures rle + ZeroRuns(rest, off)
         == (if rest[0] then rle else rle + [Range(off, off + count)]) + ZeroRuns(rest[count..], off + count)
  {
    if rest[0] {
      SkipOnes(rest, off, count);
    } else {
      TakeZeros(rest, off, count);
      var r, more := [Range(off, off + count)], ZeroRuns(rest[count..], off + count);
      assert rle + (r + more) == (rle + r) + more;
    }
  }

  lemma {:induction false} TakeGroupAt(bits: seq<bool>, start: nat, i: nat, count: nat, rle: seq<Range>)
    requires i < |bits| && 1 <= count <= |bits| - i && forall j :: i <= j < i + count ==> bits[j] == bits[i]
    requires i + count < |bits| ==> bits[i + count] != bits[i]
    ensures rle + ZeroRuns(bits[i..], start + i)
         == (if bits[i] then rle else rle + [Range(start + i, start + i + count)])
            + ZeroRuns(bits[i + count..], start + (i + count))
  {
    TakeGroup(bits[i..], start + i, count, rle);
    assert bits[i..][count..] == bits[i + count..];
  }

  /** The length of the group that starts at `i`. */
  method CountGroup(bits: seq<bool>, i: nat) returns (count: nat)
    requires i < |bits|
    ensures 1 <= count <= |bits| - i
    ensures forall j :: i <= j < i + count ==> bits[j] == bits[i]
    ensures i + count < |bits| ==> bits[i + count] != bits[i]
  {
    count := 1;
    while i + count < |bits| && bits[i + count] == bits[i]
      invariant 1 <= count && i + count <= |bits|
      invariant forall j :: i <= j < i + count ==> bits[j] == bits[i]
    {
      count := count + 1;
    }
  }

  /** `group_by` over the availability of one block, pushing the unavailable groups. */
  method GroupRanges(available: seq<bool>, start: nat) returns (rle: seq<Range>)
    ensures rle == ZeroRuns(available, start)
  {
    rle := [];
    var i := 0;
    while i < |available|
      invariant 0 <= i <= |available|
      invariant ZeroRuns(available, start) == rle + ZeroRuns(available[i..], start + i)
    {
      var count := CountGroup(available, i);
      TakeGroupAt(available, start, i, count, rle);
      if !available[i] {
        rle := rle + [Range(start + i, start + i + count)];
      }
      i := i + count;
    }
  }

  // ---------------------------------------------------------------- payloads

  /** `None` is the failed assertion that the packet fits the MTU. */
  function EncodePayload(chunkid: nat, data: seq<byte>): (r: Option<seq<byte>>) {
    if 1 + |Encode(chunkid)| + |data| <= MTU then Some([0] + Encode(chunkid) + data) else None
  }

  function DecodePayload(bytes: seq<byte>): (r: Option<(nat, seq<byte>)>)
    ensures r.Some? ==> bytes != [] && bytes[0] == 0
  {
    if bytes == [] || bytes[0] != 0 then None
    else
      match ReadOne(bytes[1..])
      case Value(v, n) => Some((v, bytes[1 + n..]))
      case _ => None
  }

  lemma {:induction false} PayloadExample()
    ensures EncodePayload(300, [7, 8]) == Some([0, 172, 2, 7, 8])
  {
    GuideExamples();
    assert [0] + [172, 2] + [7, 8] == [0, 172, 2, 7, 8];
  }

  lemma {:induction false} PayloadWire(chunkid: nat, data: seq<byte>)
    requires chunkid < U64_LIMIT && EncodePayload(chunkid, data).Some?
    ensures DecodePayload(EncodePayload(chunkid, data).value) == Some((chunkid, data))
  {
    ReadEncoded(chunkid, data);
    var bytes := EncodePayload(chunkid, data).value;
    assert bytes[1..] == Encode(chunkid) + data;
    assert bytes[1 + |Encode(chunkid)|..] == data;
  }

  lemma {:induction false} FitsMtuIff(chunkid: nat, len: nat)
    requires chunkid < U64_LIMIT && len <= CHUNK_SIZE
    ensures 1 + |Encode(chunkid)| + len <= MTU <==> chunkid < 0x8000_0000_0000_0000 || len < CHUNK_SIZE
  {
    Pow128Values();
    EncodeLength(chunkid, 9);
    EncodeLength(chunkid, 10);
  }

  /** A full chunk fits the MTU exactly while its id is below 2^63. */
  lemma {:induction false} FullChunkFitsIff(chunkid: nat, data: seq<byte>)
    requires |data| == CHUNK_SIZE
    ensures EncodePayload(chunkid, data).Some? <==> chunkid < 0x8000_0000_0000_0000
  {
    Pow128Values();
    EncodeLength(chunkid, 9);
  }
}
