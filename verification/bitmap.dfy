/** The byte-packed bitmap with its cached number of zeroes. */
module BitMaps {
  import opened Varints

  // ---------------------------------------------------------------- bits of one byte

  function Mask(k: nat): bv8
    requires k < 8
  {
    1 << k
  }

  predicate Test(b: bv8, k: nat)
    requires k < 8
  {
    (b & Mask(k)) == Mask(k)
  }

  function WithBit(b: bv8, k: nat, v: bool): bv8
    requires k < 8
  {
    (b & !Mask(k)) | ((if v then 1 else 0) << k)
  }

  lemma {:induction false} MaskTable(k: nat)
    requires k < 8
    ensures (k == 0 ==> Mask(k) == 1) && (k == 1 ==> Mask(k) == 2) && (k == 2 ==> Mask(k) == 4)
    ensures (k == 3 ==> Mask(k) == 8) && (k == 4 ==> Mask(k) == 16) && (k == 5 ==> Mask(k) == 32)
    ensures (k == 6 ==> Mask(k) == 64) && (k == 7 ==> Mask(k) == 128)
    ensures (0 as bv8) << k == 0
  {
    if k == 0 {} else if k == 1 {} else if k == 2 {} else if k == 3 {}
    else if k == 4 {} else if k == 5 {} else if k == 6 {} else { assert k == 7; }
  }

  /** Bit `k` is the one of value 2 to the `k`. */
  lemma {:induction false} TestIsBinaryDigit(b: bv8, k: nat)
    requires k < 8
    ensures Test(b, k) <==> (b >> k) & 1 == 1
  {
    MaskTable(k);
    if k == 0 {} else if k == 1 {} else if k == 2 {} else if k == 3 {}
    else if k == 4 {} else if k == 5 {} else if k == 6 {} else { assert k == 7; }
  }

  lemma {:induction false} MasksDisjoint(j: nat, k: nat)
    requires j < k < 8
    ensures Mask(j) & Mask(k) == 0 && Mask(k) & Mask(j) == 0
    ensures Mask(j) != 0 && Mask(k) != 0
  {
    MaskTable(j);
    MaskTable(k);
  }

  lemma {:induction false} ReplaceMasked(b: bv8, m: bv8, n: bv8, v: bool)
    requires m != 0 && n != 0
    ensures (((b & !m) | (if v then m else 0)) & m == m) == v
    ensures m & n == 0 ==> (((b & !m) | (if v then m else 0)) & n == n) == (b & n == n)
  {
  }

  /** Writing one bit of a byte changes that bit and no other. */
  lemma {:induction false} WithBitTests(b: bv8, k: nat, v: bool, j: nat)
    requires k < 8 && j < 8
    ensures Test(WithBit(b, k, v), j) == if j == k then v else Test(b, j)
  {
    MaskTable(k);
    if j < k { MasksDisjoint(j, k); } else if k < j { MasksDisjoint(k, j); }
    ReplaceMasked(b, Mask(k), Mask(j), v);
  }

  // ---------------------------------------------------------------- counting zeroes

  function ZeroCount(bits: seq<bool>): (n: nat)
    ensures n <= |bits|
  {
    if bits == [] then 0 else (if bits[0] then 0 else 1) + ZeroCount(bits[1..])
  }

  lemma {:induction false} ZeroCountUpdate(bits: seq<bool>, i: nat, v: bool)
    requires i < |bits|
    ensures ZeroCount(bits[i := v])
         == ZeroCount(bits) + (if bits[i] && !v then 1 else if !bits[i] && v then -1 else 0)
  {
    if i > 0 {
      assert bits[i := v][1..] == bits[1..][i - 1 := v];
      ZeroCountUpdate(bits[1..], i - 1, v);
    } else {
      assert bits[i := v][1..] == bits[1..];
    }
  }

  lemma {:induction false} ZeroCountNone(bits: seq<bool>)
    ensures ZeroCount(bits) == 0 <==> forall i :: 0 <= i < |bits| ==> bits[i]
  {
    if bits != [] {
      ZeroCountNone(bits[1..]);
      assert forall i :: 1 <= i < |bits| ==> bits[i] == bits[1..][i - 1];
    }
  }

  lemma {:induction false} ZeroCountAppend(bits: seq<bool>, v: bool)
    ensures ZeroCount(bits + [v]) == ZeroCount(bits) + if v then 0 else 1
  {
    if bits != [] {
      assert (bits + [v])[1..] == bits[1..] + [v];
      ZeroCountAppend(bits[1..], v);
    }
  }

  lemma {:induction false} ZeroCountAllFalse(bits: seq<bool>)
    requires forall i :: 0 <= i < |bits| ==> !bits[i]
    ensures ZeroCount(bits) == |bits|
  {
    if bits != [] {
      ZeroCountAllFalse(bits[1..]);
    }
  }

  // ---------------------------------------------------------------- the bitmap

  /** Bit `i` of a buffer. */
  predicate BitAt(buf: seq<bv8>, i: nat)
    requires i < 8 * |buf|
  {
    Test(buf[i / 8], i % 8)
  }

  /** The first `n` bits of a buffer. */
  ghost function BitsOf(buf: seq<bv8>, n: nat): (bits: seq<bool>)
    requires n <= 8 * |buf|
    ensures |bits| == n && forall i :: 0 <= i < n ==> bits[i] == BitAt(buf, i)
  {
    seq(n, i requires 0 <= i < n => BitAt(buf, i))
  }

  lemma {:induction false} BitsOfUpdate(buf: seq<bv8>, n: nat, bit: nat, v: bool)
    requires n <= 8 * |buf| && bit < 8 * |buf|
    ensures var b' := buf[bit / 8 := WithBit(buf[bit / 8], bit % 8, v)];
            BitsOf(b', n) == if bit < n then BitsOf(buf, n)[bit := v] else BitsOf(buf, n)
  {
    var b' := buf[bit / 8 := WithBit(buf[bit / 8], bit % 8, v)];
    forall i | 0 <= i < n ensures BitAt(b', i) == if i == bit then v else BitAt(buf, i) {
      WithBitTests(buf[bit / 8], bit % 8, v, i % 8);
    }
  }

  class BitMap {
    const buf: array<bv8>
    const numBits: nat
    var zeroes: nat

    ghost predicate Fits() { numBits <= 8 * buf.Length }

    ghost function Bits(): (bits: seq<bool>)
      requires Fits()
      reads buf
    {
      BitsOf(buf[..], numBits)
    }

    /** The cached count is the number of zero bits. */
    ghost predicate Valid()
      reads this, buf
    {
      Fits() && zeroes == ZeroCount(Bits())
    }

    /** Panics, as documented, when the buffer is too small for `numBits`. */
    constructor WithLength(buf: array<bv8>, numBits: nat)
      requires numBits <= 8 * buf.Length
      ensures Valid() && this.buf == buf && this.numBits == numBits
      ensures buf[..] == old(buf[..])
    {
      this.buf := buf;
      this.numBits := numBits;
      this.zeroes := 0;
      new;
      var front := 0;
      while front != numBits
        invariant 0 <= front <= numBits
        invariant zeroes == ZeroCount(BitsOf(buf[..], front))
        invariant buf[..] == old(buf[..])
      {
        var bit := Get(front);
        assert BitsOf(buf[..], front + 1) == BitsOf(buf[..], front) + [bit.value];
        ZeroCountAppend(BitsOf(buf[..], front), bit.value);
        if !bit.value {
          zeroes := zeroes + 1;
        }
        front := front + 1;
      }
    }

    /** `None` is a panic: the check lets `bit == numBits` pass, the slice index may still fail. */
    function Get(bit: nat): (r: Option<bool>)
      requires Fits()
      reads buf
      ensures bit < numBits ==> r == Some(Bits()[bit])
      ensures r.None? <==> bit > numBits || bit / 8 >= buf.Length
    {
      if bit > numBits || bit / 8 >= buf.Length then None else Some(Test(buf[bit / 8], bit % 8))
    }

    /** Writes one bit and returns its old value. One index too many gets past the check: the
        invariant then survives exactly when the padding bit already had the new value. */
    method Set(bit: nat, v: bool) returns (r: Option<bool>)
      requires Valid()
      modifies buf, this`zeroes
      ensures bit < numBits ==> r == Some(old(Bits())[bit]) && Valid() && Bits() == old(Bits())[bit := v]
      ensures r.None? <==>
                || bit > numBits || bit / 8 >= buf.Length
                || (bit == numBits && v && old(zeroes) == 0 && !old(Get(bit)).value)
      ensures bit == numBits && r.Some? ==> Bits() == old(Bits()) && (Valid() <==> r.value == v)
    {
      if bit > numBits || bit / 8 >= buf.Length {
        return None;
      }
      var byte := buf[bit / 8];
      var was := Test(byte, bit % 8);
      BitsOfUpdate(buf[..], numBits, bit, v);
      ghost var before := Bits();
      if was != v {
        buf[bit / 8] := WithBit(byte, bit % 8, v);
        assert buf[..] == old(buf[..])[bit / 8 := WithBit(byte, bit % 8, v)];
        if bit < numBits {
          ZeroCountUpdate(before, bit, v);
        }
        if v {
          if zeroes == 0 {
            return None;
          }
          zeroes := zeroes - 1;
        } else {
          zeroes := zeroes + 1;
        }
      } else {
        assert bit < numBits ==> before[bit := v] == before;
      }
      return Some(was);
    }

    method Reset()
      requires Valid()
      modifies buf, this`zeroes
      ensures Valid() && zeroes == numBits
      ensures forall i :: 0 <= i < numBits ==> !Bits()[i]
    {
      var i := 0;
      while i < buf.Length
        invariant 0 <= i <= buf.Length
        invariant forall j :: 0 <= j < i ==> buf[j] == 0
      {
        buf[i] := 0;
        i := i + 1;
      }
      zeroes := numBits;
      forall k | 0 <= k < numBits ensures !Bits()[k] {
        MaskTable(k % 8);
      }
      ZeroCountAllFalse(Bits());
    }

    predicate All()
      reads this, buf
      requires Valid()
      ensures All() <==> forall i :: 0 <= i < numBits ==> Bits()[i]
    {
      ZeroCountNone(Bits());
      zeroes == 0
    }
  }
}
