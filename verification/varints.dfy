/** Base 128 varints (v1/specification.md, section "Varint"): the integer encoding under both
    status messages, and what a reader recovers from a stream of them that was cut anywhere. */
module Varints {

  type byte = b: int | 0 <= b < 256

  const U64_LIMIT: nat := 0x1_0000_0000_0000_0000

  /** Largest datagram of both protocol versions. */
  const MTU: nat := 1460

  datatype Option<+T> = None | Some(value: T)

  /** Little-endian septets; the high bit says that another septet follows. */
  function Encode(v: nat): (bytes: seq<byte>)
    ensures |bytes| >= 1
  {
    if v < 128 then [v] else [128 + v % 128] + Encode(v / 128)
  }

  /** The number that septets stand for, the least significant first. */
  function Septets(bytes: seq<byte>): nat {
    if bytes == [] then 0 else bytes[0] % 128 + 128 * Septets(bytes[1..])
  }

  /** The high bit is set on every byte but the last. */
  ghost predicate IsVarint(bytes: seq<byte>) {
    && bytes != []
    && (forall i :: 0 <= i < |bytes| - 1 ==> bytes[i] >= 128)
    && bytes[|bytes| - 1] < 128
  }

  /** An encoding is a varint, stands for the value, and is the shortest one that does. */
  lemma {:induction false} EncodingForm(v: nat)
    ensures IsVarint(Encode(v)) && Septets(Encode(v)) == v
    ensures |Encode(v)| > 1 ==> Encode(v)[|Encode(v)| - 1] != 0
  {
    if v >= 128 {
      EncodingForm(v / 128);
      assert Encode(v)[1..] == Encode(v / 128);
    } else {
      assert [v][1..] == [];
    }
  }

  /** The guide's own examples. */
  lemma {:induction false} GuideExamples()
    ensures Encode(1) == [1] && Encode(150) == [150, 1] && Encode(300) == [172, 2]
  {
  }

  datatype Read = Value(value: nat, length: nat) | Eof | Overflow

  /** Reads one varint: its value and width, end of input, or a value that 64 bits cannot hold. */
  function ReadOne(s: seq<byte>): (r: Read)
    ensures r.Value? ==> 1 <= r.length <= |s| && r.value < U64_LIMIT
  {
    if s == [] then Eof
    else if s[0] < 128 then Value(s[0], 1)
    else
      match ReadOne(s[1..])
      case Value(v, n) =>
        if s[0] - 128 + 128 * v < U64_LIMIT then Value(s[0] - 128 + 128 * v, n + 1) else Overflow
      case other => other
  }

  lemma {:induction false} ReadOneGives(s: seq<byte>)
    requires ReadOne(s).Value?
    ensures var Value(v, n) := ReadOne(s); n <= |s| && IsVarint(s[..n]) && Septets(s[..n]) == v
  {
    var n := ReadOne(s).length;
    var head := s[..n];
    if s[0] >= 128 {
      ReadOneGives(s[1..]);
      assert head[1..] == s[1..][..n - 1];
      VarintTail(head);
    } else {
      assert head[1..] == [];
    }
  }

  lemma {:induction false} ReadOneTakes(s: seq<byte>, n: nat)
    requires n <= |s| && IsVarint(s[..n]) && Septets(s[..n]) < U64_LIMIT
    ensures ReadOne(s) == Value(Septets(s[..n]), n)
  {
    var head := s[..n];
    if s[0] >= 128 {
      assert head[1..] == s[1..][..n - 1];
      VarintTail(head);
      ReadOneTakes(s[1..], n - 1);
    } else {
      assert head[0] == s[0] && head[1..] == [];
    }
  }

  /** Reading succeeds exactly on input that starts with a varint of a 64-bit number. */
  lemma {:induction false} ReadOneIff(s: seq<byte>, v: nat, n: nat)
    ensures ReadOne(s) == Value(v, n) <==>
            n <= |s| && IsVarint(s[..n]) && Septets(s[..n]) == v && v < U64_LIMIT
  {
    if ReadOne(s).Value? {
      ReadOneGives(s);
    }
    if n <= |s| && IsVarint(s[..n]) && Septets(s[..n]) < U64_LIMIT {
      ReadOneTakes(s, n);
    }
  }

  lemma {:induction false} VarintTail(bytes: seq<byte>)
    requires bytes != [] && bytes[0] >= 128
    ensures IsVarint(bytes) <==> IsVarint(bytes[1..])
  {
    var rest := bytes[1..];
    assert forall i :: 0 <= i < |rest| ==> rest[i] == bytes[i + 1];
    if IsVarint(rest) {
      assert forall i :: 0 < i < |bytes| ==> bytes[i] == rest[i - 1];
    }
  }

  /** Input that ends inside a varint: every byte announces another. */
  lemma {:induction false} ReadEofIff(s: seq<byte>)
    ensures ReadOne(s) == Eof <==> forall i :: 0 <= i < |s| ==> s[i] >= 128
  {
    if s != [] && s[0] >= 128 {
      ReadEofIff(s[1..]);
      assert forall i :: 0 < i < |s| ==> s[i] == s[1..][i - 1];
    }
  }

  /** The iterator of both decoders, collected: it ends at the first incomplete varint.
      `None` is the panic on any other read error. */
  function ReadAll(s: seq<byte>): (r: Option<seq<nat>>)
    decreases |s|
  {
    match ReadOne(s)
    case Eof => Some([])
    case Overflow => None
    case Value(v, n) =>
      match ReadAll(s[n..])
      case None => None
      case Some(vs) => Some([v] + vs)
  }

  function EncodeAll(vs: seq<nat>): seq<byte> {
    if vs == [] then [] else Encode(vs[0]) + EncodeAll(vs[1..])
  }

  /** How many leading values fit completely into `room` bytes. */
  function FitCount(vs: seq<nat>, room: nat): (n: nat)
    ensures n <= |vs|
  {
    if vs == [] || |Encode(vs[0])| > room then 0
    else 1 + FitCount(vs[1..], room - |Encode(vs[0])|)
  }

  ghost predicate AllU64(vs: seq<nat>) {
    forall i :: 0 <= i < |vs| ==> vs[i] < U64_LIMIT
  }

  lemma {:induction false} ReadEncoded(v: nat, rest: seq<byte>)
    requires v < U64_LIMIT
    ensures ReadOne(Encode(v) + rest) == Value(v, |Encode(v)|)
  {
    if v >= 128 {
      assert (Encode(v) + rest)[1..] == Encode(v / 128) + rest;
      ReadEncoded(v / 128, rest);
    }
  }

  lemma {:induction false} ReadCut(v: nat, k: nat)
    requires k < |Encode(v)|
    ensures ReadOne(Encode(v)[..k]) == Eof
  {
    if v >= 128 && k > 0 {
      assert Encode(v)[..k][1..] == Encode(v / 128)[..k - 1];
      ReadCut(v / 128, k - 1);
    }
  }

  /** Values and then something else: all of them when the input just ends, a panic when what follows is
      a number beyond 64 bits. */
  lemma {:induction false} ReadAllStream(vs: seq<nat>, rest: seq<byte>)
    requires AllU64(vs) && !ReadOne(rest).Value?
    ensures ReadAll(EncodeAll(vs) + rest) == if ReadOne(rest).Eof? then Some(vs) else None
  {
    if vs != [] {
      var tail := EncodeAll(vs[1..]) + rest;
      assert EncodeAll(vs) + rest == Encode(vs[0]) + tail;
      ReadEncoded(vs[0], tail);
      assert (Encode(vs[0]) + tail)[|Encode(vs[0])|..] == tail;
      ReadAllStream(vs[1..], rest);
      assert [vs[0]] + vs[1..] == vs;
    } else {
      assert [] + rest == rest;
    }
  }

  /** A stream of varints cut after any number of bytes, even inside a varint, is read back as
      exactly the values whose encodings survived whole. */
  lemma {:induction false} ReadAllOfCut(vs: seq<nat>, k: nat)
    requires AllU64(vs) && k <= |EncodeAll(vs)|
    ensures ReadAll(EncodeAll(vs)[..k]) == Some(vs[..FitCount(vs, k)])
  {
    if vs != [] {
      var head, tail := Encode(vs[0]), EncodeAll(vs[1..]);
      var cut := EncodeAll(vs)[..k];
      if k < |head| {
        assert cut == head[..k];
        ReadCut(vs[0], k);
      } else {
        assert cut == head + tail[..k - |head|];
        ReadEncoded(vs[0], tail[..k - |head|]);
        assert cut[|head|..] == tail[..k - |head|];
        ReadAllOfCut(vs[1..], k - |head|);
        assert vs[..FitCount(vs, k)] == [vs[0]] + vs[1..][..FitCount(vs[1..], k - |head|)];
      }
    }
  }

  /** `FitCount` is the longest prefix of values that fits. */
  lemma {:induction false} FitIsLongest(vs: seq<nat>, room: nat)
    ensures |EncodeAll(vs[..FitCount(vs, room)])| <= room
    ensures FitCount(vs, room) < |vs| ==> |EncodeAll(vs[..FitCount(vs, room) + 1])| > room
  {
    if vs != [] {
      var n := FitCount(vs, room);
      if |Encode(vs[0])| <= room {
        assert vs[..n][1..] == vs[1..][..n - 1];
        FitIsLongest(vs[1..], room - |Encode(vs[0])|);
        if n < |vs| {
          assert vs[..n + 1][1..] == vs[1..][..n];
        }
      }
    }
  }

  lemma {:induction false} FitAll(vs: seq<nat>, room: nat)
    ensures FitCount(vs, room) == |vs| <==> |EncodeAll(vs)| <= room
  {
    if vs != [] && |Encode(vs[0])| <= room {
      FitAll(vs[1..], room - |Encode(vs[0])|);
    }
  }

  function Pow128(m: nat): (p: nat)
    ensures p >= 1
  {
    if m == 0 then 1 else 128 * Pow128(m - 1)
  }

  /** Width of an encoding: seven bits a byte. */
  lemma {:induction false} EncodeLength(v: nat, m: nat)
    requires m >= 1
    ensures |Encode(v)| <= m <==> v < Pow128(m)
  {
    if m == 1 {
      assert Pow128(1) == 128 * Pow128(0);
    } else if v >= 128 {
      EncodeLength(v / 128, m - 1);
    }
  }

  lemma {:induction false} Pow128Values()
    ensures Pow128(5) == 0x8_0000_0000 && Pow128(9) == 0x8000_0000_0000_0000 && Pow128(10) > U64_LIMIT
  {
    assert Pow128(5) == 0x8_0000_0000;
    assert Pow128(9) == 128 * 128 * 128 * 128 * Pow128(5);
  }

  /** A 64-bit value takes at most ten bytes. */
  lemma {:induction false} U64Length(v: nat)
    requires v < U64_LIMIT
    ensures |Encode(v)| <= 10
  {
    Pow128Values();
    EncodeLength(v, 10);
  }

  /** Writing a varint into a fixed slice: bytes go in until the slice is full, and the write
      fails (`WriteZero`) when it runs out before the last septet. */
  method WriteVarint(w: array<byte>, pos: nat, v: nat) returns (ok: bool, next: nat)
    requires pos <= w.Length
    modifies w
    ensures ok <==> pos + |Encode(v)| <= w.Length
    ensures ok ==> next == pos + |Encode(v)| && w[pos..next] == Encode(v)
    ensures w[..pos] == old(w[..pos])
  {
    var rest := v;
    next := pos;
    while rest >= 128 && next < w.Length
      invariant pos <= next <= w.Length
      invariant w[..pos] == old(w[..pos])
      invariant w[pos..next] + Encode(rest) == Encode(v)
      decreases rest
    {
      ghost var before := w[pos..next];
      w[next] := 128 + rest % 128;
      next := next + 1;
      assert w[pos..next] == before + [128 + rest % 128];
      rest := rest / 128;
    }
    if next == w.Length {
      assert |Encode(v)| == next - pos + |Encode(rest)|;
      return false, next;
    }
    w[next] := rest;
    next := next + 1;
    assert w[pos..next] == w[pos..next - 1] + [rest];
    ok := true;
  }
}
