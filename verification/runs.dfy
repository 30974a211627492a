/** Run lengths of a bitmap and its maximal runs of zeroes. */
module Runs {
  import opened Ranges

  /** Alternating run lengths; the first one counts `v` and may be 0. */
  function RunLengths(bits: seq<bool>, v: bool): (r: seq<nat>)
    ensures |r| >= 1
    decreases |bits|, bits != [] && bits[0] != v
  {
    if bits == [] then [0]
    else if bits[0] == v then Bump(RunLengths(bits[1..], v))
    else [0] + RunLengths(bits, !v)
  }

  /** One more element in the first run. */
  function Bump(runs: seq<nat>): (r: seq<nat>)
    requires |runs| >= 1
    ensures |r| == |runs|
  {
    [runs[0] + 1] + runs[1..]
  }

  /** The bits that alternating runs stand for, the first run being of `v`. */
  function Expand(runs: seq<nat>, v: bool): seq<bool> {
    if runs == [] then [] else seq(runs[0], _ => v) + Expand(runs[1..], !v)
  }

  /** The run lengths stand for the bitmap, and only the first may be empty: nothing else does both. */
  lemma {:induction false} RunLengthsExpand(bits: seq<bool>, v: bool)
    ensures Expand(RunLengths(bits, v), v) == bits
    ensures forall k :: 1 <= k < |RunLengths(bits, v)| ==> RunLengths(bits, v)[k] > 0
    ensures bits != [] && bits[0] == v ==> RunLengths(bits, v)[0] > 0
    decreases |bits|, bits != [] && bits[0] != v
  {
    if bits == [] {
      assert [0][1..] == [];
    } else if bits[0] == v {
      RunLengthsExpand(bits[1..], v);
      BumpExpands(RunLengths(bits[1..], v), v);
      assert bits == [v] + bits[1..];
    } else {
      RunLengthsExpand(bits, !v);
      assert ([0] + RunLengths(bits, !v))[1..] == RunLengths(bits, !v);
    }
  }

  lemma {:induction false} BumpExpands(runs: seq<nat>, v: bool)
    requires |runs| >= 1
    ensures Expand(Bump(runs), v) == [v] + Expand(runs, v)
  {
    assert Bump(runs)[1..] == runs[1..];
    assert seq(runs[0] + 1, _ => v) == [v] + seq(runs[0], _ => v);
  }

  /** The runs of `false` as ranges of ids, the first bit having id `off`. */
  function ZeroRuns(bits: seq<bool>, off: nat): (r: seq<Range>) {
    if bits == [] then []
    else if bits[0] then ZeroRuns(bits[1..], off + 1)
    else Prepend(off, ZeroRuns(bits[1..], off + 1))
  }

  /** Adds the id `x` in front, joining a range that starts right after it. */
  function Prepend(x: nat, rs: seq<Range>): (r: seq<Range>)
    ensures |r| >= 1
  {
    if rs != [] && rs[0].from == x + 1 then [Range(x, rs[0].to)] + rs[1..] else [Range(x, x + 1)] + rs
  }

  /** What it means to be the list of maximal zero runs of `bits`, without naming an algorithm:
      ordered ranges that cover exactly the zero bits and that no neighbouring bit extends. */
  ghost predicate AreMaximalZeroRuns(bits: seq<bool>, off: nat, rs: seq<Range>) {
    && Ordered(rs)
    && Within(rs, off, off + |bits|)
    && (forall i :: 0 <= i < |rs| ==> rs[i].from > off ==> bits[rs[i].from - 1 - off])
    && (forall i :: 0 <= i < |rs| ==> rs[i].to < off + |bits| ==> bits[rs[i].to - off])
    && (forall k :: 0 <= k < |bits| ==> (Covers(rs, off + k) <==> !bits[k]))
  }

  ghost predicate Within(rs: seq<Range>, lo: nat, hi: nat) {
    forall i :: 0 <= i < |rs| ==> lo <= rs[i].from && rs[i].to <= hi
  }

  lemma {:induction false} PrependOrdered(x: nat, rs: seq<Range>, hi: nat)
    requires Ordered(rs) && Within(rs, x + 1, hi) && x < hi
    ensures Ordered(Prepend(x, rs)) && Within(Prepend(x, rs), x, hi)
  {
    if rs != [] && rs[0].from == x + 1 {
      TailOrdered(rs, hi);
      ConsOrdered(Range(x, rs[0].to), rs[1..], hi);
    } else {
      ConsOrdered(Range(x, x + 1), rs, hi);
    }
  }

  lemma {:induction false} TailOrdered(rs: seq<Range>, hi: nat)
    requires Ordered(rs) && rs != [] && Within(rs, 0, hi)
    ensures Ordered(rs[1..]) && Within(rs[1..], rs[0].to, hi) && rs[0].from < rs[0].to <= hi
  {
    var rest := rs[1..];
    forall i | 0 <= i < |rest| ensures rest[i].from < rest[i].to && rs[0].to <= rest[i].from && rest[i].to <= hi {
      assert rest[i] == rs[i + 1];
    }
    forall i, j | 0 <= i < j < |rest| ensures rest[i].to <= rest[j].from {
      assert rest[i] == rs[i + 1] && rest[j] == rs[j + 1];
    }
  }

  lemma {:induction false} ConsOrdered(r: Range, rs: seq<Range>, hi: nat)
    requires Ordered(rs) && Within(rs, r.to, hi) && r.from < r.to <= hi
    ensures Ordered([r] + rs) && Within([r] + rs, r.from, hi)
  {
    var all := [r] + rs;
    forall i | 0 <= i < |all| ensures all[i].from < all[i].to && r.from <= all[i].from && all[i].to <= hi {
      assert i > 0 ==> all[i] == rs[i - 1];
    }
    forall i, j | 0 <= i < j < |all| ensures all[i].to <= all[j].from {
      assert all[j] == rs[j - 1] && (i > 0 ==> all[i] == rs[i - 1]);
    }
  }

  lemma {:induction false} PrependCovers(x: nat, rs: seq<Range>, y: nat)
    requires Ordered(rs)
    ensures Covers(Prepend(x, rs), y) <==> y == x || Covers(rs, y)
  {
    if rs != [] {
      assert rs == [rs[0]] + rs[1..];
      CoversCons(rs[0], rs[1..], y);
      CoversCons(Range(x, rs[0].to), rs[1..], y);
    }
    CoversCons(Range(x, x + 1), rs, y);
  }

  lemma {:induction false} ZeroRunsOrdered(bits: seq<bool>, off: nat)
    ensures Ordered(ZeroRuns(bits, off)) && Within(ZeroRuns(bits, off), off, off + |bits|)
  {
    if bits != [] {
      ZeroRunsOrdered(bits[1..], off + 1);
      if !bits[0] {
        PrependOrdered(off, ZeroRuns(bits[1..], off + 1), off + |bits|);
      }
    }
  }

  lemma {:induction false} ZeroRunsCover(bits: seq<bool>, off: nat, x: nat)
    ensures Covers(ZeroRuns(bits, off), x) <==> off <= x < off + |bits| && !bits[x - off]
  {
    if bits != [] {
      ZeroRunsCover(bits[1..], off + 1, x);
      ZeroRunsOrdered(bits[1..], off + 1);
      if !bits[0] {
        PrependCovers(off, ZeroRuns(bits[1..], off + 1), x);
      }
    }
  }

  /** Ranges are never adjacent: each one ends where a one bit, or the bitmap's end, is. */
  lemma {:induction false} ZeroRunsApart(bits: seq<bool>, off: nat)
    ensures forall i :: 0 <= i < |ZeroRuns(bits, off)| - 1 ==>
              ZeroRuns(bits, off)[i].to < ZeroRuns(bits, off)[i + 1].from
  {
    if bits != [] {
      var rest := ZeroRuns(bits[1..], off + 1);
      ZeroRunsApart(bits[1..], off + 1);
      ZeroRunsOrdered(bits[1..], off + 1);
      var rs := ZeroRuns(bits, off);
      if !bits[0] {
        forall i | 0 <= i < |rs| - 1 ensures rs[i].to < rs[i + 1].from {
          if |rs| == |rest| {
            assert rs[i + 1] == rest[i + 1] && rs[i].to == rest[i].to;
          } else if i > 0 {
            assert rs[i] == rest[i - 1] && rs[i + 1] == rest[i];
          }
        }
      }
    }
  }

  lemma {:induction false} ZeroRunsAreMaximal(bits: seq<bool>, off: nat)
    ensures AreMaximalZeroRuns(bits, off, ZeroRuns(bits, off))
  {
    var rs := ZeroRuns(bits, off);
    ZeroRunsOrdered(bits, off);
    forall k | 0 <= k < |bits| ensures Covers(rs, off + k) <==> !bits[k] {
      ZeroRunsCover(bits, off, off + k);
    }
    forall i | 0 <= i < |rs| && rs[i].from > off ensures bits[rs[i].from - 1 - off] {
      ZeroRunsApart(bits, off);
      ZeroRunsCover(bits, off, rs[i].from - 1);
      NotCovered(rs, i, rs[i].from - 1);
    }
    forall i | 0 <= i < |rs| && rs[i].to < off + |bits| ensures bits[rs[i].to - off] {
      ZeroRunsApart(bits, off);
      ZeroRunsCover(bits, off, rs[i].to);
      NotCovered(rs, i, rs[i].to);
    }
  }

  /** An id just beside range `i` is in no range when ranges are apart. */
  lemma {:induction false} NotCovered(rs: seq<Range>, i: nat, x: nat)
    requires Ordered(rs) && i < |rs| && (x + 1 == rs[i].from || x == rs[i].to)
    requires forall j :: 0 <= j < |rs| - 1 ==> rs[j].to < rs[j + 1].from
    ensures !Covers(rs, x)
  {
    forall j | 0 <= j < |rs| ensures !(rs[j].from <= x < rs[j].to) {
      if j < i {
        assert rs[i - 1].to < rs[i - 1 + 1].from;
        assert j < i - 1 ==> rs[j].to <= rs[i - 1].from;
      } else if j > i {
        assert rs[i].to < rs[i + 1].from;
        assert j > i + 1 ==> rs[i + 1].to <= rs[j].from;
      }
    }
  }

  /** Run lengths add up to the number of bits. */
  lemma {:induction false} RunLengthsTotal(bits: seq<bool>, v: bool)
    ensures Total(RunLengths(bits, v)) == |bits|
    decreases |bits|, bits != [] && bits[0] != v
  {
    if bits != [] {
      if bits[0] == v {
        RunLengthsTotal(bits[1..], v);
      } else {
        RunLengthsTotal(bits, !v);
      }
    }
  }

  lemma {:induction false} SumsOfBump(runs: seq<nat>, acc: nat)
    requires |runs| >= 1
    ensures PrefixSums(Bump(runs), acc) == PrefixSums(runs, acc + 1)
  {
    assert Bump(runs)[1..] == runs[1..];
  }

  lemma {:induction false} PairsOfTwo(a: nat, more: seq<nat>, acc: nat)
    requires |more| >= 1
    ensures Pairs(PrefixSums([a] + more, acc))
         == [Range(acc + a, acc + a + more[0])] + Pairs(PrefixSums(more[1..], acc + a + more[0]))
  {
    var vs := [a] + more;
    assert vs[1..] == more;
    assert PrefixSums(vs, acc)[2..] == PrefixSums(more[1..], acc + a + more[0]);
  }

  /** A zero bit in front of `rest`: its run joins the one that `rest` starts with, or stands alone. */
  lemma {:induction false} PrependRun(rest: seq<bool>, off: nat)
    ensures Pairs(PrefixSums([0] + Bump(RunLengths(rest, false)), off))
         == Prepend(off, Pairs(PrefixSums(RunLengths(rest, true), off + 1)))
  {
    var zeros := RunLengths(rest, false);
    PairsOfTwo(0, Bump(zeros), off);
    if rest == [] {
    } else if rest[0] {
      var ones := RunLengths(rest, true);
      assert zeros == [0] + ones && Bump(zeros)[1..] == ones;
      assert ones[0] >= 1;
      FirstRangeAfter(ones, off + 1);
    } else {
      assert RunLengths(rest, true) == [0] + zeros;
      PairsOfTwo(0, zeros, off + 1);
      assert Bump(zeros)[1..] == zeros[1..];
    }
  }

  lemma {:induction false} FirstRangeAfter(runs: seq<nat>, acc: nat)
    requires |runs| >= 1 && runs[0] >= 1
    ensures var rs := Pairs(PrefixSums(runs, acc)); rs != [] ==> rs[0].from > acc
  {
  }

  /** Prefix sums of the run lengths, taken in pairs, are the maximal zero runs. */
  lemma {:induction false} RunLengthsDecode(bits: seq<bool>, off: nat)
    ensures Pairs(PrefixSums(RunLengths(bits, true), off)) == ZeroRuns(bits, off)
  {
    if bits != [] {
      RunLengthsDecode(bits[1..], off + 1);
      if bits[0] {
        SumsOfBump(RunLengths(bits[1..], true), off);
      } else {
        PrependRun(bits[1..], off);
      }
    }
  }
}
