/** v1 chunk geometry: how a file is cut into chunks, the width of the index field, and chunk
    packets with their fixed-length little-endian index. */
module Geometry {
  import opened Varints

  datatype ChunkInfo = ChunkInfo(
    indexFieldSize: nat,
    chunkSize: nat,
    numChunks: nat,
    lastChunkSize: nat)

  function Pow256(k: nat): (p: nat)
    ensures p >= 1
  {
    if k == 0 then 1 else 256 * Pow256(k - 1)
  }

  /** Chunks of `MTU - width` bytes needed for a file. */
  function ChunksFor(length: nat, width: nat): nat
    requires width < MTU
  {
    length / (MTU - width) + if length % (MTU - width) != 0 then 1 else 0
  }

  /** A width has an id for every chunk and one more for the FIN. */
  predicate WidthSuffices(length: nat, width: nat)
    requires width < MTU
  {
    ChunksFor(length, width) + 1 <= Pow256(width)
  }

  ghost predicate IsInfoFor(info: ChunkInfo, length: nat) {
    && 1 <= info.indexFieldSize <= 7
    && info.chunkSize == MTU - info.indexFieldSize
    && info.numChunks == ChunksFor(length, info.indexFieldSize)
    && info.lastChunkSize == length % info.chunkSize
    && WidthSuffices(length, info.indexFieldSize)
    && forall w :: 1 <= w < info.indexFieldSize ==> !WidthSuffices(length, w)
  }

  /** Seven bytes suffice for every 64-bit length. */
  lemma {:induction false} SevenSuffice(length: nat)
    requires length < U64_LIMIT
    ensures WidthSuffices(length, 7)
  {
    assert Pow256(3) == 0x100_0000;
    assert Pow256(7) == 256 * 256 * 256 * 256 * Pow256(3);
    assert length / 1453 <= length / 256;
  }

  /** The search for the width. The shift `1 << (width * 8)` is a 64-bit one: the loop never
      reaches the width at which it would overflow, and stops at the least width that suffices. */
  method IndexFieldSize(length: nat) returns (info: ChunkInfo)
    requires length < U64_LIMIT
    ensures IsInfoFor(info, length)
  {
    SevenSuffice(length);
    var width, limit := 1, 256;
    var numChunks := ChunksFor(length, width) + 1;
    while numChunks > limit
      invariant 1 <= width <= 7
      invariant limit == Pow256(width) && limit < U64_LIMIT
      invariant numChunks == ChunksFor(length, width) + 1
      invariant forall w :: 1 <= w < width ==> !WidthSuffices(length, w)
      decreases 7 - width
    {
      ShiftFits(width + 1);
      width, limit := width + 1, limit * 256;
      numChunks := ChunksFor(length, width) + 1;
    }
    info := ChunkInfo(width, MTU - width, ChunksFor(length, width), length % (MTU - width));
  }

  /** At the boundary of the first width: 255 chunks and the FIN need one byte, 256 and the FIN two. */
  lemma {:induction false} WidthExamples(info: ChunkInfo)
    ensures IsInfoFor(info, 0) ==> info == ChunkInfo(1, 1459, 0, 0)
    ensures IsInfoFor(info, 372_045) ==> info == ChunkInfo(1, 1459, 255, 0)
    ensures IsInfoFor(info, 372_046) ==> info == ChunkInfo(2, 1458, 256, 256)
  {
    assert Pow256(1) == 256 && Pow256(2) == 65536;
    if IsInfoFor(info, 0) {
      assert WidthSuffices(0, 1);
    }
    if IsInfoFor(info, 372_045) {
      assert WidthSuffices(372_045, 1);
    }
    if IsInfoFor(info, 372_046) {
      assert !WidthSuffices(372_046, 1) && WidthSuffices(372_046, 2);
    }
  }

  lemma {:induction false} ShiftFits(width: nat)
    requires width <= 7
    ensures Pow256(width) < U64_LIMIT
  {
    if width < 7 {
      Pow256Grows(width, 7);
    }
    assert Pow256(3) == 0x100_0000;
    assert Pow256(7) == 256 * 256 * 256 * 256 * Pow256(3);
  }

  lemma {:induction false} Pow256Grows(a: nat, b: nat)
    requires a <= b
    ensures Pow256(a) <= Pow256(b)
  {
    if a < b {
      Pow256Grows(a, b - 1);
    }
  }

  // ---------------------------------------------------------------- tiling

  /** Bytes that the client reads for chunk `i`. */
  function PayloadSize(info: ChunkInfo, i: nat): nat {
    if i == info.numChunks - 1 then info.lastChunkSize else info.chunkSize
  }

  function Start(info: ChunkInfo, i: nat): nat { i * info.chunkSize }

  function End(info: ChunkInfo, i: nat): nat { Start(info, i) + PayloadSize(info, i) }

  /** The part of the file that chunks carry. */
  function TiledLength(info: ChunkInfo): nat {
    if info.numChunks == 0 then 0 else Start(info, info.numChunks - 1) + info.lastChunkSize
  }

  lemma {:induction false} ProductLe(a: nat, b: nat, c: nat)
    requires a <= b
    ensures a * c <= b * c
  {
  }

  lemma {:induction false} NextMultiple(a: nat, b: nat, c: nat)
    requires a < b
    ensures a * c + c <= b * c
  {
    ProductLe(a + 1, b, c);
  }

  lemma {:induction false} PreviousMultiple(n: nat, c: nat)
    requires n >= 1
    ensures (n - 1) * c + c == n * c
  {
  }

  /** Chunks carry the whole file exactly when its length is not a nonzero multiple of the chunk
      size; otherwise they stop one chunk short of the end. */
  lemma {:induction false} TiledExactly(info: ChunkInfo, length: nat)
    requires IsInfoFor(info, length)
    ensures TiledLength(info) == length <==> length == 0 || length % info.chunkSize != 0
    ensures TiledLength(info) == length || TiledLength(info) == length - info.chunkSize
  {
    var cs, q := info.chunkSize, length / info.chunkSize;
    assert length == q * cs + length % cs;
    if length % cs == 0 && q > 0 {
      PreviousMultiple(q, cs);
    }
  }

  /** Payload regions tile: the regions of two chunks do not overlap, */
  lemma {:induction false} RegionsApart(info: ChunkInfo, length: nat, i: nat, j: nat)
    requires IsInfoFor(info, length) && i < j < info.numChunks
    ensures End(info, i) <= Start(info, j)
  {
    NextMultiple(i, j, info.chunkSize);
  }

  /** they lie in the tiled part of the file, */
  lemma {:induction false} RegionInFile(info: ChunkInfo, length: nat, i: nat)
    requires IsInfoFor(info, length) && i < info.numChunks
    ensures End(info, i) <= TiledLength(info) <= length
  {
    TiledExactly(info, length);
    if i < info.numChunks - 1 {
      NextMultiple(i, info.numChunks - 1, info.chunkSize);
    }
  }

  /** and every byte of that part is in one of them. */
  lemma {:induction false} RegionOf(info: ChunkInfo, length: nat, p: nat)
    requires IsInfoFor(info, length) && p < TiledLength(info)
    ensures p / info.chunkSize < info.numChunks
    ensures Start(info, p / info.chunkSize) <= p < End(info, p / info.chunkSize)
  {
    var cs, q, n := info.chunkSize, p / info.chunkSize, info.numChunks;
    assert p == q * cs + p % cs;
    assert info.lastChunkSize < cs;
    if q >= n {
      NextMultiple(n - 1, q, cs);
    }
  }

  // ---------------------------------------------------------------- chunk packets

  /** `width` bytes of `v`, little-endian. */
  function LittleEndian(v: nat, width: nat): (bytes: seq<byte>)
    ensures |bytes| == width
  {
    if width == 0 then [] else [v % 256] + LittleEndian(v / 256, width - 1)
  }

  /** Byte `k` is digit `k` to the base 256. */
  lemma {:induction false} LittleEndianAt(v: nat, width: nat, k: nat)
    requires k < width
    ensures LittleEndian(v, width)[k] == v / Pow256(k) % 256
  {
    if k > 0 {
      LittleEndianAt(v / 256, width - 1, k - 1);
      DivProduct(v, Pow256(k - 1));
    }
  }

  lemma {:induction false} DivProduct(v: nat, m: nat)
    requires m >= 1
    ensures v / 256 / m == v / (256 * m)
  {
    var q, r := v / 256 / m, v / 256 % m;
    assert v / 256 == q * m + r;
    assert v == 256 * (q * m + r) + v % 256;
    assert 256 * (q * m + r) == q * (256 * m) + 256 * r;
    var rem := v % 256 + 256 * r;
    assert rem < 256 * m by {
      assert 256 * (r + 1) <= 256 * m;
    }
    QuotientUnique(v, 256 * m, q, rem);
  }

  lemma {:induction false} QuotientUnique(v: nat, d: nat, q: nat, r: nat)
    requires d >= 1 && r < d && v == q * d + r
    ensures v / d == q
  {
    var q', r' := v / d, v % d;
    assert v == q' * d + r';
    if q' < q {
      NextMultiple(q', q, d);
    } else if q < q' {
      NextMultiple(q, q', d);
    }
  }

  function FromLittleEndian(bytes: seq<byte>): nat {
    if bytes == [] then 0 else bytes[0] + 256 * FromLittleEndian(bytes[1..])
  }

  lemma {:induction false} DivModProduct(v: nat, m: nat)
    requires m >= 1
    ensures v % (256 * m) == v % 256 + 256 * (v / 256 % m)
  {
    var q, r := v / 256 / m, v / 256 % m;
    assert v / 256 == q * m + r;
    assert v == 256 * (q * m + r) + v % 256;
    assert 256 * (q * m + r) == q * (256 * m) + 256 * r;
    var rem := v % 256 + 256 * r;
    assert rem < 256 * m by {
      assert 256 * (r + 1) <= 256 * m;
    }
    ModUnique(v, 256 * m, q, rem);
  }

  lemma {:induction false} ModUnique(v: nat, d: nat, q: nat, r: nat)
    requires d >= 1 && r < d && v == q * d + r
    ensures v % d == r
  {
    var q', r' := v / d, v % d;
    assert v == q' * d + r';
    if q' < q {
      NextMultiple(q', q, d);
    } else if q < q' {
      NextMultiple(q, q', d);
    }
  }

  lemma {:induction false} LittleEndianRoundTrip(v: nat, width: nat)
    ensures FromLittleEndian(LittleEndian(v, width)) == v % Pow256(width)
  {
    if width > 0 {
      LittleEndianRoundTrip(v / 256, width - 1);
      DivModProduct(v, Pow256(width - 1));
    }
  }

  lemma {:induction false} LittleEndianPrefix(v: nat, w: nat, width: nat)
    requires w <= width
    ensures LittleEndian(v, width)[..w] == LittleEndian(v, w)
  {
    if w > 0 {
      LittleEndianPrefix(v / 256, w - 1, width - 1);
    }
  }

  /** `Chunk::new`: eight bytes of index, then the buffer is resized to the index field plus the
      data; the data area is what `as_mut` exposes. */
  method ChunkNew(index: nat, width: nat, dataSize: nat) returns (buf: seq<byte>)
    requires 0 < width <= 8 && index < U64_LIMIT
    ensures |buf| == width + dataSize
    ensures buf[..width] == LittleEndian(index, width)
  {
    buf := LittleEndian(index, 8);
    LittleEndianPrefix(index, width, 8);
    if width + dataSize <= 8 {
      buf := buf[..width + dataSize];
    } else {
      buf := buf + seq(width + dataSize - 8, _ => 0);
    }
  }

  /** `Chunk::decode` as (index, data); `None` is the slice panic on a packet without an index. */
  function ChunkDecode(packet: seq<byte>, width: nat): (r: Option<(nat, seq<byte>)>) {
    if |packet| < width then None else Some((FromLittleEndian(packet[..width]), packet[width..]))
  }

  /** Decoding recovers the index and the data exactly when the field is wide enough. */
  lemma {:induction false} ChunkRoundTrip(index: nat, width: nat, data: seq<byte>)
    ensures ChunkDecode(LittleEndian(index, width) + data, width) == Some((index % Pow256(width), data))
    ensures ChunkDecode(LittleEndian(index, width) + data, width) == Some((index, data)) <==> index < Pow256(width)
  {
    var packet := LittleEndian(index, width) + data;
    assert packet[..width] == LittleEndian(index, width) && packet[width..] == data;
    LittleEndianRoundTrip(index, width);
    ModSmall(index, Pow256(width));
  }

  lemma {:induction false} ModSmall(v: nat, d: nat)
    requires d >= 1
    ensures v % d == v <==> v < d
  {
    if v < d {
      ModUnique(v, d, 0, v);
    }
  }
}
