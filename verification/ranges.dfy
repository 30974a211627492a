/** Missing ranges: what both protocol versions compute from a bitmap, put on the wire as
    prefix sums, and walk with a cursor. */
module Ranges {
  import opened Varints

  /** Half-open range of chunk ids. */
  datatype Range = Range(from: nat, to: nat)

  // ---------------------------------------------------------------- the decoder pipeline

  /** `scan(0, |a, x| { *a += x; Some(*a) })`, started at `acc`. */
  function PrefixSums(vs: seq<nat>, acc: nat): (sums: seq<nat>)
    ensures |sums| == |vs|
  {
    if vs == [] then [] else [acc + vs[0]] + PrefixSums(vs[1..], acc + vs[0])
  }

  function Total(vs: seq<nat>): nat {
    if vs == [] then 0 else vs[0] + Total(vs[1..])
  }

  /** Sum number `k` is that of the first `k + 1` values. */
  lemma {:induction false} PrefixSumsAt(vs: seq<nat>, acc: nat, k: nat)
    requires k < |vs|
    ensures PrefixSums(vs, acc)[k] == acc + Total(vs[..k + 1])
  {
    assert vs[..k + 1][1..] == vs[1..][..k];
    if k > 0 {
      PrefixSumsAt(vs[1..], acc + vs[0], k - 1);
    }
  }

  /** `tuples()`: consecutive pairs, an odd value at the end is dropped. */
  function Pairs(xs: seq<nat>): (r: seq<Range>)
    ensures |r| == |xs| / 2
  {
    if |xs| < 2 then [] else [Range(xs[0], xs[1])] + Pairs(xs[2..])
  }

  lemma {:induction false} PairsAt(xs: seq<nat>, i: nat)
    requires i < |xs| / 2
    ensures Pairs(xs)[i] == Range(xs[2 * i], xs[2 * i + 1])
  {
    if i > 0 {
      PairsAt(xs[2..], i - 1);
    }
  }

  /** Varints, prefix sums, pairs. `None` is a panic: a varint or a sum beyond 64 bits. */
  function DecodeRanges(bytes: seq<byte>): (r: Option<seq<Range>>) {
    match ReadAll(bytes)
    case None => None
    case Some(vs) => if Total(vs) < U64_LIMIT then Some(Pairs(PrefixSums(vs, 0))) else None
  }

  lemma {:induction false} PairsOfPrefix(vs: seq<nat>, acc: nat, m: nat)
    requires m <= |vs|
    ensures Pairs(PrefixSums(vs[..m], acc)) == Pairs(PrefixSums(vs, acc))[..m / 2]
  {
    if m >= 2 {
      var next := acc + vs[0] + vs[1];
      assert vs[1..][1..] == vs[2..] && vs[..m][1..][1..] == vs[2..][..m - 2];
      assert PrefixSums(vs, acc) == [acc + vs[0], next] + PrefixSums(vs[2..], next);
      assert PrefixSums(vs[..m], acc) == [acc + vs[0], next] + PrefixSums(vs[2..][..m - 2], next);
      assert PrefixSums(vs, acc)[2..] == PrefixSums(vs[2..], next);
      assert PrefixSums(vs[..m], acc)[2..] == PrefixSums(vs[2..][..m - 2], next);
      PairsOfPrefix(vs[2..], next, m - 2);
    }
  }

  lemma {:induction false} TotalOfPrefix(vs: seq<nat>, m: nat)
    requires m <= |vs|
    ensures Total(vs[..m]) <= Total(vs)
  {
    if m > 0 {
      assert vs[..m][1..] == vs[1..][..m - 1];
      TotalOfPrefix(vs[1..], m - 1);
    }
  }

  lemma {:induction false} TotalBoundsAll(vs: seq<nat>)
    ensures forall i :: 0 <= i < |vs| ==> vs[i] <= Total(vs)
  {
    if vs != [] {
      TotalBoundsAll(vs[1..]);
      assert forall i :: 1 <= i < |vs| ==> vs[i] == vs[1..][i - 1];
    }
  }

  /** Values cut to `k` bytes decode to the pairs of prefix sums that survived complete. */
  lemma {:induction false} DecodeCut(vs: seq<nat>, k: nat)
    requires Total(vs) < U64_LIMIT && k <= |EncodeAll(vs)|
    ensures DecodeRanges(EncodeAll(vs)[..k]) == Some(Pairs(PrefixSums(vs, 0))[..FitCount(vs, k) / 2])
  {
    TotalBoundsAll(vs);
    ReadAllOfCut(vs, k);
    TotalOfPrefix(vs, FitCount(vs, k));
    PairsOfPrefix(vs, 0, FitCount(vs, k));
  }

  /** Whole values decode to the pairs of their sums, or panic exactly when the last sum is beyond 64
      bits. */
  lemma {:induction false} DecodeWhole(vs: seq<nat>)
    requires AllU64(vs)
    ensures DecodeRanges(EncodeAll(vs)) == if Total(vs) < U64_LIMIT then Some(Pairs(PrefixSums(vs, 0))) else None
  {
    assert EncodeAll(vs) + [] == EncodeAll(vs);
    ReadAllStream(vs, []);
  }

  /** So does a number beyond 64 bits after them. */
  lemma {:induction false} DecodeTooLarge(vs: seq<nat>, rest: seq<byte>)
    requires AllU64(vs) && ReadOne(rest).Overflow?
    ensures DecodeRanges(EncodeAll(vs) + rest).None?
  {
    ReadAllStream(vs, rest);
  }

  // ---------------------------------------------------------------- ordered ranges

  /** Nonempty and in ascending order without overlap. */
  ghost predicate Ordered(rs: seq<Range>) {
    && (forall i :: 0 <= i < |rs| ==> rs[i].from < rs[i].to)
    && (forall i, j :: 0 <= i < j < |rs| ==> rs[i].to <= rs[j].from)
  }

  ghost predicate Covers(rs: seq<Range>, x: nat) {
    exists i :: 0 <= i < |rs| && rs[i].from <= x < rs[i].to
  }

  lemma {:induction false} CoversCons(r: Range, rs: seq<Range>, x: nat)
    ensures Covers([r] + rs, x) <==> r.from <= x < r.to || Covers(rs, x)
  {
    var all := [r] + rs;
    if Covers(rs, x) {
      var i :| 0 <= i < |rs| && rs[i].from <= x < rs[i].to;
      assert all[i + 1] == rs[i];
    }
    if r.from <= x < r.to {
      assert all[0] == r;
    }
  }

  function Interval(a: nat, b: nat): (ids: seq<nat>)
    ensures |ids| == if a < b then b - a else 0
    ensures forall i :: 0 <= i < |ids| ==> ids[i] == a + i
    decreases b - a
  {
    if a >= b then [] else [a] + Interval(a + 1, b)
  }

  /** The covered ids at or after `c`, range by range. */
  function IndicesFrom(rs: seq<Range>, c: nat): seq<nat> {
    if rs == [] then [] else Interval(Max(c, rs[0].from), rs[0].to) + IndicesFrom(rs[1..], c)
  }

  function Indices(rs: seq<Range>): seq<nat> { IndicesFrom(rs, 0) }

  function Max(a: nat, b: nat): nat { if a < b then b else a }

  ghost predicate StrictlyAscending(xs: seq<nat>) {
    forall i, j :: 0 <= i < j < |xs| ==> xs[i] < xs[j]
  }

  lemma {:induction false} IndicesAreCovered(rs: seq<Range>, c: nat)
    requires Ordered(rs)
    ensures StrictlyAscending(IndicesFrom(rs, c))
    ensures forall x: nat :: x in IndicesFrom(rs, c) <==> c <= x && Covers(rs, x)
  {
    if rs != [] {
      var rest := rs[1..];
      IndicesAreCovered(rest, c);
      var head, tail := Interval(Max(c, rs[0].from), rs[0].to), IndicesFrom(rest, c);
      forall x: nat ensures x in IndicesFrom(rs, c) <==> c <= x && Covers(rs, x) {
        assert [rs[0]] + rest == rs;
        CoversCons(rs[0], rest, x);
        assert x in head <==> Max(c, rs[0].from) <= x < rs[0].to by {
          if Max(c, rs[0].from) <= x < rs[0].to {
            assert head[x - Max(c, rs[0].from)] == x;
          }
        }
      }
      forall i, j | 0 <= i < |head| && 0 <= j < |tail| ensures head[i] < tail[j] {
        assert tail[j] in tail && Covers(rest, tail[j]);
      }
    }
  }

  // ---------------------------------------------------------------- walking with a cursor

  /** `iter().find(|r| r.to > c)`, then `max(c, from)`: the cursor rule of both versions. */
  function NextMissing(rs: seq<Range>, c: nat): (r: Option<nat>) {
    if rs == [] then None
    else if rs[0].to > c then Some(Max(c, rs[0].from))
    else NextMissing(rs[1..], c)
  }

  /** Below every range, the position of the cursor does not matter. */
  lemma {:induction false} CursorSkip(rs: seq<Range>, c: nat, d: nat)
    requires c <= d && forall i :: 0 <= i < |rs| ==> d <= rs[i].from
    ensures IndicesFrom(rs, c) == IndicesFrom(rs, d)
  {
    if rs != [] {
      CursorSkip(rs[1..], c, d);
    }
  }

  lemma {:induction false} SplitFirst(x: nat, to: nat, tail: seq<nat>)
    requires x < to
    ensures Interval(x, to) + tail == [x] + (Interval(x + 1, to) + tail)
  {
  }

  lemma {:induction false} TakeFromFirst(r: Range, rest: seq<Range>, c: nat)
    requires c < r.to && r.from < r.to && forall i :: 0 <= i < |rest| ==> r.to <= rest[i].from
    ensures var x := Max(c, r.from); IndicesFrom([r] + rest, c) == [x] + IndicesFrom([r] + rest, x + 1)
  {
    var x := Max(c, r.from);
    CursorSkip(rest, c, x + 1);
    SplitFirst(x, r.to, IndicesFrom(rest, c));
    assert ([r] + rest)[1..] == rest;
  }

  lemma {:induction false} SkipFirst(r: Range, rest: seq<Range>, c: nat)
    requires r.to <= c
    ensures IndicesFrom([r] + rest, c) == IndicesFrom(rest, c)
    ensures NextMissing([r] + rest, c) == NextMissing(rest, c)
  {
    assert ([r] + rest)[1..] == rest;
  }

  /** One cursor step takes the first remaining id, and nothing else. */
  lemma {:induction false} NextIsHead(rs: seq<Range>, c: nat)
    requires Ordered(rs)
    ensures NextMissing(rs, c).None? <==> IndicesFrom(rs, c) == []
    ensures NextMissing(rs, c).Some? ==>
              var x := NextMissing(rs, c).value;
              c <= x && IndicesFrom(rs, c) == [x] + IndicesFrom(rs, x + 1)
  {
    if rs != [] {
      var r, rest := rs[0], rs[1..];
      assert rs == [r] + rest;
      if r.to > c {
        TakeFromFirst(r, rest, c);
      } else {
        NextIsHead(rest, c);
        SkipFirst(r, rest, c);
        if NextMissing(rest, c).Some? {
          SkipFirst(r, rest, NextMissing(rest, c).value + 1);
        }
      }
    }
  }

  /** Repeated `next_chunk` calls from cursor `c`, until they answer `None`. */
  ghost function Enumerate(rs: seq<Range>, c: nat): (ids: seq<nat>)
    requires Ordered(rs)
    ensures ids == IndicesFrom(rs, c)
    decreases |IndicesFrom(rs, c)|
  {
    NextIsHead(rs, c);
    match NextMissing(rs, c)
    case None => []
    case Some(x) => [x] + Enumerate(rs, x + 1)
  }

  /** Once exhausted, the cursor stays exhausted. */
  lemma {:induction false} NoneForever(rs: seq<Range>, c: nat, d: nat)
    requires c <= d && NextMissing(rs, c).None?
    ensures NextMissing(rs, d).None?
  {
    if rs != [] {
      NoneForever(rs[1..], c, d);
    }
  }

  /** `next_chunk` yields an id that is missing and skips none that is. */
  lemma {:induction false} NextIsLeast(rs: seq<Range>, c: nat)
    requires Ordered(rs)
    ensures match NextMissing(rs, c)
            case None => forall y: nat :: c <= y ==> !Covers(rs, y)
            case Some(x) => c <= x && Covers(rs, x) && forall y: nat :: c <= y < x ==> !Covers(rs, y)
  {
    NextIsHead(rs, c);
    IndicesAreCovered(rs, c);
    match NextMissing(rs, c)
    case None =>
    case Some(x) =>
      IndicesAreCovered(rs, x + 1);
      assert IndicesFrom(rs, c)[0] == x;
  }

  /** At a missing id, that id comes first. */
  lemma {:induction false} AtCovered(rs: seq<Range>, c: nat)
    requires Ordered(rs) && Covers(rs, c)
    ensures IndicesFrom(rs, c) == [c] + IndicesFrom(rs, c + 1)
  {
    NextIsHead(rs, c);
    NextIsLeast(rs, c);
  }

  /** Jumping to the next missing id loses none. */
  lemma {:induction false} FromNext(rs: seq<Range>, c: nat)
    requires Ordered(rs)
    ensures match NextMissing(rs, c)
            case None => IndicesFrom(rs, c) == []
            case Some(x) => Covers(rs, x) && IndicesFrom(rs, x) == IndicesFrom(rs, c)
  {
    NextIsHead(rs, c);
    var next := NextMissing(rs, c);
    if next.Some? {
      NextIsCovered(rs, c, next.value);
      AtCovered(rs, next.value);
    }
  }

  lemma {:induction false} NextIsCovered(rs: seq<Range>, c: nat, x: nat)
    requires Ordered(rs) && NextMissing(rs, c) == Some(x)
    ensures Covers(rs, x)
  {
    NextIsLeast(rs, c);
  }
}
