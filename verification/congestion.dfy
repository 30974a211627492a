/** The v1 inter-packet-time average. Durations are whole nanoseconds. */
module Congestion {
  import opened Varints

  const NANOS: nat := 1_000_000_000

  /** A duration divided by an integer: seconds and nanoseconds separately, each rounded down. */
  function Quotient(d: nat, n: nat): nat
    requires n > 0
  {
    var secs: nat, nanos: nat := d / NANOS, d % NANOS;
    Part(secs, n) * NANOS + Part(secs % n * NANOS, n) + Part(nanos, n)
  }

  function Part(x: nat, n: nat): nat
    requires n > 0
  {
    x / n
  }

  /** The gaps held, at most ten, and the running average. */
  datatype Average = Average(gaps: seq<nat>, ipt: nat)

  const NONE_YET := Average([], 0)

  /** One more gap; `None` is the panic when the subtraction of durations underflows. */
  function AddGap(a: Average, gap: nat): (r: Option<Average>) {
    var n := |a.gaps|;
    if n == 10 then
      if a.ipt < Quotient(a.gaps[0], 10) then None
      else Some(Average(a.gaps[1..] + [gap], a.ipt - Quotient(a.gaps[0], 10) + Quotient(gap, 10)))
    else Some(Average(a.gaps + [gap], Reweigh(a.ipt, n) + Quotient(gap, n + 1)))
  }

  /** An average of `n` gaps as a share of `n + 1`. */
  function Reweigh(ipt: nat, n: nat): nat { Quotient(ipt * n, n + 1) }

  /** The average after a whole run of gaps. */
  function AddAll(gaps: seq<nat>): (r: Option<Average>) {
    if gaps == [] then Some(NONE_YET)
    else
      match AddAll(gaps[..|gaps| - 1])
      case None => None
      case Some(a) => AddGap(a, gaps[|gaps| - 1])
  }

  /** Whether a first packet has started the clock, and the average of the gaps since. */
  datatype Meter = Meter(started: bool, avg: Average)

  /** One more packet, `gap` after the last one; the first packet only starts the clock. */
  function Tick(m: Meter, gap: nat): (r: Option<Meter>) {
    if !m.started then Some(m.(started := true))
    else
      match AddGap(m.avg, gap)
      case None => None
      case Some(avg) => Some(m.(avg := avg))
  }

  class CongestionInfo {
    var last: Option<nat>
    var ipts: seq<nat>
    var ipt: nat

    ghost function View(): Meter
      reads this
    {
      Meter(last.Some?, Average(ipts, ipt))
    }

    constructor ()
      ensures last.None? && View() == Meter(false, NONE_YET)
    {
      last, ipts, ipt := None, [], 0;
    }

    /** A chunk arrived at time `now`; `false` is a panic. The gap counted is the time since the last
        chunk, and of ten gaps the oldest goes. */
    method IptPacket(now: nat) returns (ok: bool)
      requires last.Some? ==> last.value <= now  // the clock is monotonic
      requires |ipts| <= 10
      modifies this
      ensures last == Some(now)
      ensures old(last).None? ==> ok && ipts == old(ipts) && ipt == old(ipt)
      ensures old(last).Some? && ok ==>
                ipts == (if |old(ipts)| == 10 then old(ipts)[1..] else old(ipts)) + [now - old(last).value]
      ensures |ipts| <= 10
      ensures var r := Tick(old(View()), if old(last).Some? then now - old(last).value else 0);
              (ok <==> r.Some?) && (ok ==> r == Some(View()))
    {
      if last.None? {
        last := Some(now);
        return true;
      }
      var diff := now - last.value;
      last := Some(now);
      if |ipts| == 10 {
        var front := ipts[0];
        ipts := ipts[1..];
        if ipt < Quotient(front, 10) {
          return false;
        }
        ipt := ipt - Quotient(front, 10);
      } else {
        ipt := Reweigh(ipt, |ipts|);
      }
      ipts := ipts + [diff];
      ipt := ipt + Quotient(diff, |ipts|);
      return true;
    }
  }

  // ---------------------------------------------------------------- packets in time

  predicate Monotonic(times: seq<nat>) { forall i, j :: 0 <= i < j < |times| ==> times[i] <= times[j] }

  /** The times between consecutive packets. */
  function Differences(times: seq<nat>): (gaps: seq<nat>)
    requires Monotonic(times)
    ensures |gaps| == if times == [] then 0 else |times| - 1
    ensures forall i :: 0 <= i < |gaps| ==> gaps[i] == times[i + 1] - times[i]
  {
    if |times| < 2 then [] else Differences(times[..|times| - 1]) + [times[|times| - 1] - times[|times| - 2]]
  }

  /** Packets at these times, up to the first that panics: the average is that of the times between
      consecutive packets, and a panic comes exactly where that average has one. */
  method PacketsAt(times: seq<nat>) returns (c: CongestionInfo, ok: bool)
    requires Monotonic(times)
    ensures ok <==> AddAll(Differences(times)).Some?
    ensures ok ==> AddAll(Differences(times)) == Some(Average(c.ipts, c.ipt))
    ensures ok && times != [] ==> c.last == Some(times[|times| - 1])
  {
    c := new CongestionInfo();
    var i := 0;
    while i < |times|
      invariant 0 <= i <= |times| && |c.ipts| <= 10
      invariant c.last == if i == 0 then None else Some(times[i - 1])
      invariant AddAll(Differences(times[..i])) == Some(Average(c.ipts, c.ipt))
    {
      ok := PacketAt(c, times, i);
      if !ok {
        PanicStays(times, i + 1);
        return;
      }
      i := i + 1;
    }
    assert times[..i] == times;
    ok := true;
  }

  method PacketAt(c: CongestionInfo, times: seq<nat>, i: nat) returns (ok: bool)
    requires Monotonic(times) && i < |times| && |c.ipts| <= 10
    requires c.last == if i == 0 then None else Some(times[i - 1])
    requires AddAll(Differences(times[..i])) == Some(Average(c.ipts, c.ipt))
    modifies c
    ensures |c.ipts| <= 10 && c.last == Some(times[i])
    ensures ok <==> AddAll(Differences(times[..i + 1])).Some?
    ensures ok ==> AddAll(Differences(times[..i + 1])) == Some(Average(c.ipts, c.ipt))
  {
    NextDifference(times, i);
    if i == 0 {
      ok := c.IptPacket(times[i]);
    } else {
      ghost var gaps, gap := Differences(times[..i]), times[i] - times[i - 1];
      CountOne(gaps, gap, Average(c.ipts, c.ipt));
      TickNext(Average(c.ipts, c.ipt), gap);
      ok := c.IptPacket(times[i]);
    }
  }

  lemma {:induction false} CountOne(gaps: seq<nat>, gap: nat, a: Average)
    requires AddAll(gaps) == Some(a)
    ensures AddAll(gaps + [gap]) == AddGap(a, gap)
  {
    assert (gaps + [gap])[..|gaps|] == gaps;
  }

  lemma {:induction false} TickNext(a: Average, gap: nat)
    ensures Tick(Meter(true, a), gap)
         == match AddGap(a, gap) { case None => None case Some(avg) => Some(Meter(true, avg)) }
  {
  }

  lemma {:induction false} NextDifference(times: seq<nat>, i: nat)
    requires Monotonic(times) && i < |times|
    ensures Differences(times[..i + 1])
         == if i == 0 then [] else Differences(times[..i]) + [times[i] - times[i - 1]]
  {
    assert times[..i + 1][..i] == times[..i];
  }

  lemma {:induction false} PanicStays(times: seq<nat>, n: nat)
    requires Monotonic(times) && n <= |times| && AddAll(Differences(times[..n])).None?
    ensures AddAll(Differences(times)).None?
    decreases |times| - n
  {
    if n < |times| {
      NextDifference(times, n);
      PanicStays(times, n + 1);
    } else {
      assert times[..n] == times;
    }
  }

  // ---------------------------------------------------------------- the division

  /** What the seconds' remainder can lose when it is divided by `n`: nothing when `n` divides a
      power of ten. */
  function Spill(n: nat): nat {
    if n == 3 then 2 else if n == 6 then 4 else if n == 7 then 6 else if n == 9 then 8 else 0
  }

  /** A product and its quotient lose the remainder. */
  lemma {:induction false} QuotientSplit(d: nat, n: nat)
    requires n > 0
    ensures n * Quotient(d, n) == d - d / NANOS % n * NANOS % n - d % NANOS % n
  {
    var secs, nanos := d / NANOS, d % NANOS;
    var q, c := secs / n, secs % n;
    var x, y := c * NANOS / n, nanos / n;
    assert n * (q * NANOS + x + y) == n * (q * NANOS) + n * x + n * y;
    assert n * (q * NANOS) == (n * q) * NANOS;
    assert c * NANOS == n * x + c * NANOS % n;
    assert nanos == n * y + nanos % n;
    assert secs * NANOS == (n * q + c) * NANOS == (n * q) * NANOS + c * NANOS;
  }

  lemma {:induction false} SpillBound(c: nat, n: nat)
    requires 1 <= n <= 10 && c < n
    ensures c * NANOS % n <= Spill(n)
  {
    if n == 1 { } else if n == 2 { } else if n == 3 { } else if n == 4 { } else if n == 5 { }
    else if n == 6 { } else if n == 7 { } else if n == 8 { } else if n == 9 { } else { }
  }

  /** Exact for durations below a second, and otherwise short by at most the spill. */
  lemma {:induction false} QuotientLoss(d: nat, n: nat)
    requires 1 <= n <= 10
    ensures n * Quotient(d, n) <= d <= n * Quotient(d, n) + n - 1 + if d < NANOS then 0 else Spill(n)
  {
    QuotientSplit(d, n);
    SpillBound(d / NANOS % n, n);
  }

  lemma {:induction false} QuotientTenth(d: nat)
    ensures Quotient(d, 10) == d / 10
  {
    QuotientLoss(d, 10);
  }

  // ---------------------------------------------------------------- drift

  function Sum(gaps: seq<nat>): nat {
    if gaps == [] then 0 else Sum(gaps[..|gaps| - 1]) + gaps[|gaps| - 1]
  }

  /** Sum of the gaps' tenths, each rounded down. */
  function Tenths(gaps: seq<nat>): nat {
    if gaps == [] then 0 else Tenths(gaps[..|gaps| - 1]) + gaps[|gaps| - 1] / 10
  }

  lemma {:induction false} TenthsBounds(gaps: seq<nat>)
    ensures 10 * Tenths(gaps) <= Sum(gaps) <= 10 * Tenths(gaps) + 9 * |gaps|
  {
    if gaps != [] {
      TenthsBounds(gaps[..|gaps| - 1]);
    }
  }

  lemma {:induction false} TenthsFront(gaps: seq<nat>)
    requires gaps != []
    ensures Tenths(gaps) == gaps[0] / 10 + Tenths(gaps[1..])
  {
    if |gaps| > 1 {
      TenthsFront(gaps[..|gaps| - 1]);
      assert gaps[..|gaps| - 1][1..] == gaps[1..][..|gaps| - 2];
    }
  }

  lemma {:induction false} TenthsSnoc(gaps: seq<nat>, gap: nat)
    ensures Tenths(gaps + [gap]) == Tenths(gaps) + gap / 10
    ensures Sum(gaps + [gap]) == Sum(gaps) + gap
  {
    assert (gaps + [gap])[..|gaps|] == gaps;
  }

  lemma {:induction false} TenthsAtLeast(gaps: seq<nat>, least: nat)
    requires forall i :: 0 <= i < |gaps| ==> gaps[i] / 10 >= least
    ensures Tenths(gaps) >= least * |gaps|
  {
    if gaps != [] {
      TenthsAtLeast(gaps[..|gaps| - 1], least);
      assert least * |gaps| == least * (|gaps| - 1) + least;
    }
  }

  lemma {:induction false} TenthsOfOne(gaps: seq<nat>, i: nat)
    requires i < |gaps|
    ensures Tenths(gaps) >= gaps[i] / 10
  {
    if i < |gaps| - 1 {
      TenthsOfOne(gaps[..|gaps| - 1], i);
    }
  }

  /** What is lost, in `n` times the average, while the first `n` gaps fill the window. */
  function Loss(n: nat, brief: bool): nat {
    if n == 0 then 0 else Loss(n - 1, brief) + 2 * (n - 1 + if brief then 0 else Spill(n))
  }

  lemma {:induction false} LossOfTen()
    ensures Loss(10, true) == 90 && Loss(10, false) == 130
  {
    assert Loss(2, true) == 2 && Loss(2, false) == 2;
    assert Loss(4, true) == 12 && Loss(4, false) == 16;
    assert Loss(6, true) == 30 && Loss(6, false) == 42;
    assert Loss(8, true) == 56 && Loss(8, false) == 80;
  }

  lemma {:induction false} LossGrows(n: nat)
    ensures Loss(n, true) <= Loss(n, false)
  {
    if n > 0 {
      LossGrows(n - 1);
    }
  }

  lemma {:induction false} Distribute(m: nat, a: nat, b: nat)
    ensures (a + b) * m == m * a + m * b
  {
  }

  lemma {:induction false} FillingStep(sum: nat, n: nat, ipt: nat, gap: nat, loss: nat)
    requires n < 10 && ipt * n <= sum <= ipt * n + loss
    ensures var next := Reweigh(ipt, n) + Quotient(gap, n + 1);
            var more := 2 * (n + if sum + gap < NANOS then 0 else Spill(n + 1));
            next * (n + 1) <= sum + gap <= next * (n + 1) + loss + more
  {
    var weighed: nat := ipt * n;
    QuotientLoss(weighed, n + 1);
    QuotientLoss(gap, n + 1);
    Distribute(n + 1, Quotient(weighed, n + 1), Quotient(gap, n + 1));
  }

  lemma {:induction false} FillingNext(a: Average, sum: nat, gap: nat, loss: nat)
    requires |a.gaps| < 10 && a.ipt * |a.gaps| <= sum <= a.ipt * |a.gaps| + loss
    ensures AddGap(a, gap).Some? && AddGap(a, gap).value.gaps == a.gaps + [gap]
    ensures var (next, n) := (AddGap(a, gap).value.ipt, |a.gaps|);
            var more := 2 * (n + if sum + gap < NANOS then 0 else Spill(n + 1));
            next * (n + 1) <= sum + gap <= next * (n + 1) + loss + more
  {
    FillingStep(sum, |a.gaps|, a.ipt, gap, loss);
  }

  /** While the window fills, the average falls short of the mean by no more than the roundings,
      and by less when the gaps together last less than a second. */
  lemma {:induction false} FillingLoss(gaps: seq<nat>)
    requires |gaps| <= 10
    ensures AddAll(gaps).Some? && AddAll(gaps).value.gaps == gaps
    ensures var (ipt, n) := (AddAll(gaps).value.ipt, |gaps|);
            ipt * n <= Sum(gaps) <= ipt * n + Loss(n, Sum(gaps) < NANOS)
  {
    if gaps != [] {
      var n := |gaps| - 1;
      var before, gap := gaps[..n], gaps[n];
      FillingLoss(before);
      LossGrows(n);
      assert before + [gap] == gaps;
      CountOne(before, gap, AddAll(before).value);
      FillingNext(AddAll(before).value, Sum(before), gap, Loss(n, Sum(gaps) < NANOS));
    }
  }

  /** The difference between the average and the rounded-down tenths of the gaps it holds. */
  ghost function Offset(a: Average): int { a.ipt - Tenths(a.gaps) }

  lemma {:induction false} OffsetKept(a: Average, gap: nat)
    requires |a.gaps| == 10 && AddGap(a, gap).Some?
    ensures |AddGap(a, gap).value.gaps| == 10 && Offset(AddGap(a, gap).value) == Offset(a)
  {
    QuotientTenth(a.gaps[0]);
    QuotientTenth(gap);
    TenthsFront(a.gaps);
    TenthsSnoc(a.gaps[1..], gap);
  }

  /** The least the offset can be: -9, or -13 when the first ten gaps last a second or more. */
  function LeastOffset(gaps: seq<nat>): int
    requires |gaps| >= 10
  {
    if Sum(gaps[..10]) < NANOS then -9 else -13
  }

  lemma {:induction false} FirstOffset(gaps: seq<nat>)
    requires |gaps| == 10
    ensures AddAll(gaps).Some? && AddAll(gaps).value.gaps == gaps
    ensures LeastOffset(gaps) <= Offset(AddAll(gaps).value) <= 9
  {
    assert gaps[..10] == gaps;
    FillingLoss(gaps);
    LossOfTen();
    TenthsBounds(gaps);
  }

  /** Once ten gaps are held the offset is fixed, and it is small either way. */
  lemma {:induction false} OffsetIsConstant(gaps: seq<nat>)
    requires |gaps| >= 10 && AddAll(gaps).Some?
    ensures AddAll(gaps[..10]).Some?
    ensures |AddAll(gaps).value.gaps| == 10 && AddAll(gaps).value.gaps == gaps[|gaps| - 10..]
    ensures Offset(AddAll(gaps).value) == Offset(AddAll(gaps[..10]).value)
    ensures LeastOffset(gaps) <= Offset(AddAll(gaps).value) <= 9
  {
    if |gaps| == 10 {
      assert gaps[..10] == gaps;
      FirstOffset(gaps);
    } else {
      var n := |gaps| - 1;
      var before := gaps[..n];
      assert before[..10] == gaps[..10];
      OffsetIsConstant(before);
      OffsetKept(AddAll(before).value, gaps[n]);
    }
  }

  /** In every run that does not panic, the average stays within 22 ns of the true mean of the last
      ten gaps, and within 18 ns when the first ten last less than a second (stated tenfold, so
      without division). */
  lemma {:induction false} DriftIsBounded(gaps: seq<nat>)
    requires |gaps| >= 10 && AddAll(gaps).Some?
    ensures 10 * LeastOffset(gaps) - 90 <= 10 * AddAll(gaps).value.ipt - Sum(gaps[|gaps| - 10..]) <= 90
  {
    OffsetIsConstant(gaps);
    TenthsBounds(AddAll(gaps).value.gaps);
  }

  // ---------------------------------------------------------------- underflow

  /** Ten gaps are held and the oldest one's tenth exceeds the average: the next packet panics. */
  predicate Underflows(a: Average) { |a.gaps| == 10 && a.ipt < a.gaps[0] / 10 }

  lemma {:induction false} AddGapPanicsIff(a: Average, gap: nat)
    ensures AddGap(a, gap).None? <==> Underflows(a)
  {
    if |a.gaps| == 10 {
      QuotientTenth(a.gaps[0]);
    }
  }

  lemma {:induction false} UnderflowsByOffset(a: Average)
    requires |a.gaps| == 10
    ensures Underflows(a) <==> Tenths(a.gaps[1..]) < -Offset(a)
  {
    TenthsFront(a.gaps);
  }

  /** The subtraction underflows exactly when the nine younger gaps' tenths cannot make up for the
      offset fixed by the first ten gaps. */
  lemma {:induction false} UnderflowsIff(gaps: seq<nat>, gap: nat)
    requires |gaps| >= 10 && AddAll(gaps).Some?
    ensures AddAll(gaps[..10]).Some?
    ensures AddAll(gaps + [gap]).None? <==>
            Tenths(gaps[|gaps| - 9..]) < -Offset(AddAll(gaps[..10]).value)
  {
    OffsetIsConstant(gaps);
    var a := AddAll(gaps).value;
    assert (gaps + [gap])[..|gaps|] == gaps && (gaps + [gap])[|gaps|] == gap;
    AddGapPanicsIff(a, gap);
    UnderflowsByOffset(a);
    assert a.gaps[1..] == gaps[|gaps| - 9..];
  }

  /** No gap is shorter than 10 ns, or than 20 ns when the first ten last a second or more. */
  ghost predicate Steady(gaps: seq<nat>) {
    |gaps| >= 10 ==>
      forall i :: 0 <= i < |gaps| ==> gaps[i] >= if Sum(gaps[..10]) < NANOS then 10 else 20
  }

  /** Then it never panics. */
  lemma {:induction false} NoUnderflow(gaps: seq<nat>)
    requires Steady(gaps)
    ensures AddAll(gaps).Some?
  {
    if |gaps| <= 10 {
      FillingLoss(gaps);
    } else {
      var n := |gaps| - 1;
      var before := gaps[..n];
      assert before[..10] == gaps[..10];
      NoUnderflow(before);
      UnderflowsIff(before, gaps[n]);
      OffsetIsConstant(before);
      assert before + [gaps[n]] == gaps;
      TenthsAtLeast(before[n - 9..], if Sum(gaps[..10]) < NANOS then 1 else 2);
    }
  }

  // ---------------------------------------------------------------- averages of some run

  ghost predicate Reached(a: Average) { exists gaps :: AddAll(gaps) == Some(a) }

  lemma {:induction false} ReachedAdd(a: Average, gap: nat)
    requires Reached(a) && AddGap(a, gap).Some?
    ensures Reached(AddGap(a, gap).value)
  {
    var gaps :| AddAll(gaps) == Some(a);
    var more := gaps + [gap];
    assert more[..|gaps|] == gaps && more[|gaps|] == gap;
    assert AddAll(more) == AddGap(a, gap);
  }

  lemma {:induction false} ReachedBounds(a: Average)
    requires Reached(a)
    ensures |a.gaps| <= 10
    ensures |a.gaps| == 10 ==> -13 <= Offset(a) <= 9
  {
    var gaps :| AddAll(gaps) == Some(a);
    if |gaps| < 10 {
      FillingLoss(gaps);
    } else {
      OffsetIsConstant(gaps);
    }
  }

  /** After a gap of at least 130 ns the next packet does not panic, whatever came before. */
  lemma {:induction false} LongGapIsSafe(a: Average, gap: nat)
    requires Reached(a) && AddGap(a, gap).Some? && gap >= 130
    ensures !Underflows(AddGap(a, gap).value)
  {
    var b := AddGap(a, gap).value;
    ReachedAdd(a, gap);
    ReachedBounds(b);
    if |b.gaps| == 10 {
      UnderflowsByOffset(b);
      assert b.gaps[1..][8] == gap;
      TenthsOfOne(b.gaps[1..], 8);
    }
  }

  /** A meter of some run; gaps come only after the clock was started. */
  ghost predicate MeterOk(m: Meter) { Reached(m.avg) && (m.avg.gaps != [] ==> m.started) }

  lemma {:induction false} TickOk(m: Meter, gap: nat)
    requires MeterOk(m) && Tick(m, gap).Some?
    ensures MeterOk(Tick(m, gap).value)
  {
    if m.started {
      ReachedAdd(m.avg, gap);
    }
  }

  lemma {:induction false} TickPanicsIff(m: Meter, gap: nat)
    ensures Tick(m, gap).None? <==> m.started && Underflows(m.avg)
  {
    AddGapPanicsIff(m.avg, gap);
  }

  // ---------------------------------------------------------------- runs that panic

  lemma {:induction false} FillGap(a: Average, gap: nat, next: nat)
    requires |a.gaps| < 10 && next == Reweigh(a.ipt, |a.gaps|) + Quotient(gap, |a.gaps| + 1)
    ensures AddGap(a, gap) == Some(Average(a.gaps + [gap], next))
  {
  }

  lemma {:induction false} Fill(g: seq<nat>, n: nat, a: Average, b: Average)
    requires n < |g| && AddAll(g[..n]) == Some(a) && AddGap(a, g[n]) == Some(b)
    ensures AddAll(g[..n + 1]) == Some(b)
  {
    CountOne(g[..n], g[n], a);
    assert g[..n] + [g[n]] == g[..n + 1];
  }

  /** The average after gap `n` of `g`, from the one before. */
  lemma {:induction false} FillNext(g: seq<nat>, n: nat, ipt: nat, next: nat)
    requires n < |g| && n < 10
    requires AddAll(g[..n]) == Some(Average(g[..n], ipt)) && next == Reweigh(ipt, n) + Quotient(g[n], n + 1)
    ensures AddAll(g[..n + 1]) == Some(Average(g[..n + 1], next))
  {
    FillGap(Average(g[..n], ipt), g[n], next);
    assert g[..n] + [g[n]] == g[..n + 1];
    Fill(g, n, Average(g[..n], ipt), Average(g[..n + 1], next));
  }

  /** One gap of 10 ns, then packets at the same instant. */
  lemma {:induction false} UnderflowWitness(g: seq<nat>)
    requires |g| == 11 && g[0] == 10 && forall i :: 1 <= i < 11 ==> g[i] == 0
    ensures AddAll(g).None?
  {
    assert g[..0] == [];
    FillNext(g, 0, 0, 10);
    FillNext(g, 1, 10, 5);
    FillNext(g, 2, 5, 3);
    FillNext(g, 3, 3, 2);
    FillNext(g, 4, 2, 1);
    FillNext(g, 5, 1, 0);
    FillNext(g, 6, 0, 0);
    FillNext(g, 7, 0, 0);
    FillNext(g, 8, 0, 0);
    FillNext(g, 9, 0, 0);
    assert g[..10][0] == 10;
  }

  lemma {:induction false} BurstUnderflows(gaps: seq<nat>)
    requires |gaps| == 10 && gaps[0] == 10 && forall i :: 1 <= i < 10 ==> gaps[i] == 0
    ensures AddAll(gaps).Some? && Underflows(AddAll(gaps).value)
  {
    FillingLoss(gaps);
    var more := gaps + [0];
    UnderflowWitness(more);
    assert more[..10] == gaps && more[10] == 0;
    AddGapPanicsIff(AddAll(gaps).value, 0);
  }

  /** Ten gaps of seconds, for which the split division loses most. */
  ghost predicate IsSlow(g: seq<nat>) {
    && |g| >= 10
    && g[0] == 3_000_000_190 && g[1] == 8_000_000_040 && g[2] == 5_000_000_080 && g[3] == 8_000_000_270
    && g[4] == 4_000_000_160 && g[5] == 1_000_000_040 && g[6] == 8_000_000_090 && g[7] == 7_000_000_070
    && g[8] == 8_000_000_080 && g[9] == 2_000_000_250
  }

  lemma {:induction false} SlowSumsFirst()
    ensures Reweigh(3_000_000_190, 1) + Quotient(8_000_000_040, 2) == 5_500_000_115
    ensures Reweigh(5_500_000_115, 2) + Quotient(5_000_000_080, 3) == 5_333_333_434
    ensures Reweigh(5_333_333_434, 3) + Quotient(8_000_000_270, 4) == 6_000_000_142
    ensures Reweigh(6_000_000_142, 4) + Quotient(4_000_000_160, 5) == 5_600_000_145
  {
  }

  lemma {:induction false} SlowSumsLast()
    ensures Reweigh(5_600_000_145, 5) + Quotient(1_000_000_040, 6) == 4_833_333_458
    ensures Reweigh(4_833_333_458, 6) + Quotient(8_000_000_090, 7) == 5_285_714_402
    ensures Reweigh(5_285_714_402, 7) + Quotient(7_000_000_070, 8) == 5_500_000_109
    ensures Reweigh(5_500_000_109, 8) + Quotient(8_000_000_080, 9) == 5_777_777_880
    ensures Reweigh(5_777_777_880, 9) + Quotient(2_000_000_250, 10) == 5_400_000_117
  {
  }

  lemma {:induction false} SlowAverage(g: seq<nat>)
    requires IsSlow(g)
    ensures AddAll(g[..10]) == Some(Average(g[..10], 5_400_000_117))
  {
    SlowSumsFirst();
    SlowSumsLast();
    assert g[..0] == [];
    FillNext(g, 0, 0, 3_000_000_190);
    FillNext(g, 1, 3_000_000_190, 5_500_000_115);
    FillNext(g, 2, 5_500_000_115, 5_333_333_434);
    FillNext(g, 3, 5_333_333_434, 6_000_000_142);
    FillNext(g, 4, 6_000_000_142, 5_600_000_145);
    FillNext(g, 5, 5_600_000_145, 4_833_333_458);
    FillNext(g, 6, 4_833_333_458, 5_285_714_402);
    FillNext(g, 7, 5_285_714_402, 5_500_000_109);
    FillNext(g, 8, 5_500_000_109, 5_777_777_880);
    FillNext(g, 9, 5_777_777_880, 5_400_000_117);
  }

  /** While a gap of 130 ns is among the nine younger ones, nothing panics. */
  lemma {:induction false} GoesOn(g: seq<nat>, k: nat)
    requires 10 <= k <= 19 && k <= |g| && AddAll(g[..10]).Some? && g[9] >= 130
    ensures AddAll(g[..k]).Some?
  {
    if k > 10 {
      var before := g[..k - 1];
      GoesOn(g, k - 1);
      UnderflowsIff(before, g[k - 1]);
      OffsetIsConstant(before);
      assert before + [g[k - 1]] == g[..k];
      var young := before[k - 10..];
      assert young[19 - k] == g[9];
      TenthsOfOne(young, 19 - k);
    }
  }

  lemma {:induction false} TenthsOfTens(gaps: seq<nat>)
    requires forall i :: 0 <= i < |gaps| ==> gaps[i] == 10
    ensures Tenths(gaps) == |gaps|
  {
    if gaps != [] {
      TenthsOfTens(gaps[..|gaps| - 1]);
    }
  }

  lemma {:induction false} TenthsNext(g: seq<nat>, k: nat)
    requires k < |g|
    ensures Tenths(g[..k + 1]) == Tenths(g[..k]) + g[k] / 10
  {
    assert g[..k + 1] == g[..k] + [g[k]];
    TenthsSnoc(g[..k], g[k]);
  }

  lemma {:induction false} SlowTenths(g: seq<nat>)
    requires IsSlow(g)
    ensures Tenths(g[..10]) == 5_400_000_127
  {
    TenthsNext(g, 0);
    TenthsNext(g, 1);
    TenthsNext(g, 2);
    TenthsNext(g, 3);
    TenthsNext(g, 4);
    TenthsNext(g, 5);
    TenthsNext(g, 6);
    TenthsNext(g, 7);
    TenthsNext(g, 8);
    TenthsNext(g, 9);
  }

  /** With an offset of -10, nine gaps of 10 ns make the next packet panic. */
  lemma {:induction false} TooFast(gaps: seq<nat>, gap: nat)
    requires |gaps| == 19 && AddAll(gaps).Some? && forall i :: 10 <= i < 19 ==> gaps[i] == 10
    requires AddAll(gaps[..10]).Some? && Offset(AddAll(gaps[..10]).value) == -10
    ensures AddAll(gaps + [gap]).None?
  {
    UnderflowsIff(gaps, gap);
    TenthsOfTens(gaps[10..]);
  }

  /** Why 10 ns are not enough after a slow start: ten gaps of seconds, then packets every 10 ns. */
  lemma {:induction false} SlowStartUnderflows(g: seq<nat>)
    requires |g| == 20 && IsSlow(g) && forall i :: 10 <= i < 20 ==> g[i] == 10
    ensures AddAll(g).None?
  {
    SlowAverage(g);
    GoesOn(g, 19);
    SlowTenths(g);
    assert g[..19][..10] == g[..10] && g[..19] + [g[19]] == g;
    TooFast(g[..19], g[19]);
  }
}
