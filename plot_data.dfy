/**
 * The series images/visualise.py derives from the sorted `design_data`
 * before it draws anything: the parallel arrays, the 1-based iteration
 * numbers, the running best L/D, the padded axis limits of the 3-D plot,
 * the limits of the top plot and the number of exploration (Sobol) trials.
 */
module PlotData {
  import opened Designs

  /** A pair of axis limits. */
  datatype Limits = Limits(lower: real, upper: real)

  /** Python's `max(a, b)`: the first argument unless the second is larger. */
  function Max(a: real, b: real): (m: real)
    ensures m >= a && m >= b && (m == a || m == b)
  {
    if b > a then b else a
  }

  /** Python's `max(xs)` on a non-empty list. */
  function SeqMax(xs: seq<real>): (m: real)
    requires |xs| > 0
    ensures m in xs
    ensures forall i :: 0 <= i < |xs| ==> xs[i] <= m
  {
    if |xs| == 1 then xs[0] else Max(SeqMax(xs[..|xs| - 1]), xs[|xs| - 1])
  }

  /** Python's `min(xs)` on a non-empty list. */
  function SeqMin(xs: seq<real>): (m: real)
    requires |xs| > 0
    ensures m in xs
    ensures forall i :: 0 <= i < |xs| ==> m <= xs[i]
  {
    if |xs| == 1 then xs[0]
    else
      var m := SeqMin(xs[..|xs| - 1]);
      if xs[|xs| - 1] < m then xs[|xs| - 1] else m
  }

  // ---------------------------------------------------------------------
  // Projection into parallel arrays
  // ---------------------------------------------------------------------

  /** `aoas`: the angle of attack of every row, in row order. */
  function AnglesOfAttack(data: seq<Record>): (r: seq<real>)
    ensures |r| == |data| && forall i :: 0 <= i < |data| ==> r[i] == data[i].angleOfAttack
  {
    seq(|data|, i requires 0 <= i < |data| => data[i].angleOfAttack)
  }

  /** `speeds`: the speed of every row, in row order. */
  function Speeds(data: seq<Record>): (r: seq<real>)
    ensures |r| == |data| && forall i :: 0 <= i < |data| ==> r[i] == data[i].speed
  {
    seq(|data|, i requires 0 <= i < |data| => data[i].speed)
  }

  /** `LDs`: the L/D value of every row, in row order. */
  function LiftToDrags(data: seq<Record>): (r: seq<real>)
    ensures |r| == |data| && forall i :: 0 <= i < |data| ==> r[i] == data[i].liftToDrag
  {
    seq(|data|, i requires 0 <= i < |data| => data[i].liftToDrag)
  }

  /** `list(range(1, n + 1))`. */
  function Iterations(n: nat): (r: seq<int>)
    ensures |r| == n && forall i :: 0 <= i < n ==> r[i] == i + 1
  {
    if n == 0 then [] else Iterations(n - 1) + [n]
  }

  /**
   * The iteration numbers are exactly 1..n: consecutive, starting at 1, and
   * every prefix of length k is the list for k frames (`iterations[:k]`).
   */
  lemma IterationsPrefix(n: nat, k: nat)
    requires k <= n
    ensures Iterations(n)[..k] == Iterations(k)
    ensures forall i :: 0 <= i < n ==> 1 <= Iterations(n)[i] <= n
    ensures forall i :: 0 < i < n ==> Iterations(n)[i] == Iterations(n)[i - 1] + 1
  {
  }

  // ---------------------------------------------------------------------
  // Running best (maximise L/D)
  // ---------------------------------------------------------------------

  /**
   * The cumulative-best loop: start from the first value, and after each
   * value append the larger of the best so far and that value.
   */
  method CumulativeBest(lds: seq<real>) returns (best: seq<real>)
    requires |lds| > 0
    ensures |best| == |lds|
    ensures forall i :: 0 <= i < |lds| ==> best[i] == SeqMax(lds[..i + 1])
  {
    best := [];
    var currentBest := lds[0];
    var i := 0;
    while i < |lds|
      invariant 0 <= i <= |lds|
      invariant |best| == i
      invariant forall j :: 0 <= j < i ==> best[j] == SeqMax(lds[..j + 1])
      invariant currentBest == if i == 0 then lds[0] else SeqMax(lds[..i])
    {
      assert lds[..i + 1][..i] == lds[..i];
      currentBest := Max(currentBest, lds[i]);
      best := best + [currentBest];
      i := i + 1;
    }
  }

  /** The running best never decreases and never falls below the current value. */
  lemma RunningBestMonotone(lds: seq<real>, i: nat, j: nat)
    requires i <= j < |lds|
    ensures SeqMax(lds[..i + 1]) <= SeqMax(lds[..j + 1])
    ensures lds[j] <= SeqMax(lds[..j + 1])
  {
    assert SeqMax(lds[..i + 1]) in lds[..j + 1];
    assert lds[..j + 1][j] == lds[j];
  }

  /** The last running best of a prepared data set is the best L/D of all its designs. */
  lemma FinalBest(s: Series)
    requires FrameData(s)
    ensures s.cumulativeBest[|s.lds| - 1] == SeqMax(s.lds)
    ensures forall i :: 0 <= i < |s.lds| ==> s.lds[i] <= s.cumulativeBest[|s.lds| - 1]
  {
    assert s.lds[..|s.lds|] == s.lds;
  }

  // ---------------------------------------------------------------------
  // Axis limits
  // ---------------------------------------------------------------------

  /** The padding of a data range: a tenth of its width, or 0.1 when it is a single value. */
  function Pad(lo: real, hi: real): (p: real)
    requires lo <= hi
    ensures p > 0.0
    ensures lo < hi ==> 10.0 * p == hi - lo
    ensures lo == hi ==> p == 0.1
  {
    0.1 * (if hi != lo then hi - lo else 1.0)
  }

  /**
   * The fixed limits of one axis of the 3-D plot, computed once from the
   * whole data set: they strictly enclose every value, the two margins are
   * equal, and each is a tenth of the data's range when that is not empty.
   */
  function PaddedLimits(xs: seq<real>): (l: Limits)
    requires |xs| > 0
    ensures l.lower < SeqMin(xs) <= SeqMax(xs) < l.upper
    ensures forall i :: 0 <= i < |xs| ==> l.lower < xs[i] < l.upper
    ensures SeqMin(xs) - l.lower == l.upper - SeqMax(xs)
    ensures SeqMin(xs) < SeqMax(xs) ==> 10.0 * (SeqMin(xs) - l.lower) == SeqMax(xs) - SeqMin(xs)
  {
    var lo, hi := SeqMin(xs), SeqMax(xs);
    assert lo <= xs[0] <= hi;
    var pad := Pad(lo, hi);
    Limits(lo - pad, hi + pad)
  }

  /**
   * The y-limits of the top plot: the minimum scaled by 1.1 when negative
   * and by 0.9 otherwise, the maximum by 1.1 when positive and by 0.9
   * otherwise. Every L/D value lies within them, and a limit touches its
   * extreme only when that extreme is zero.
   */
  function TopPlotYLimits(lds: seq<real>): (l: Limits)
    requires |lds| > 0
    ensures l.lower <= SeqMin(lds) && SeqMax(lds) <= l.upper
    ensures l.lower == SeqMin(lds) <==> SeqMin(lds) == 0.0
    ensures l.upper == SeqMax(lds) <==> SeqMax(lds) == 0.0
    ensures forall i :: 0 <= i < |lds| ==> l.lower <= lds[i] <= l.upper
  {
    var lmin, lmax := SeqMin(lds), SeqMax(lds);
    Limits(if lmin < 0.0 then lmin * 1.1 else lmin * 0.9,
           if lmax > 0.0 then lmax * 1.1 else lmax * 0.9)
  }

  /** The x-limits of the top plot, (0, n + 1): every iteration number lies strictly inside. */
  function TopPlotXLimits(n: nat): (l: Limits)
    ensures forall i :: 0 <= i < n ==> l.lower < Iterations(n)[i] as real < l.upper
  {
    Limits(0.0, n as real + 1.0)
  }

  /** `num_sobol`: the exploration trials shaded in the top plot, at most four. */
  function NumSobol(n: nat): (r: nat)
    ensures r <= 4 && r <= n
    ensures r == 4 || r == n
  {
    if n < 4 then n else 4
  }

  // ---------------------------------------------------------------------
  // The prepared data set
  // ---------------------------------------------------------------------

  /** Everything the animation reads, computed once before the first frame. */
  datatype Series = Series(
    designData: seq<Record>,
    aoas: seq<real>,
    speeds: seq<real>,
    lds: seq<real>,
    iterations: seq<int>,
    cumulativeBest: seq<real>,
    aoaLim: Limits,
    spdLim: Limits,
    ldLim: Limits,
    xLim: Limits,
    yLim: Limits,
    numSobol: nat)

  /** What the animation reads: equally long arrays, the iteration numbers, the running best, `num_sobol`. */
  ghost predicate FrameData(s: Series) {
    var n := |s.lds|;
    && n > 0
    && |s.aoas| == n
    && |s.speeds| == n
    && s.iterations == Iterations(n)
    && |s.cumulativeBest| == n
    && (forall i :: 0 <= i < n ==> s.cumulativeBest[i] == SeqMax(s.lds[..i + 1]))
    && s.numSobol == NumSobol(n)
  }

  /** How the script's top-level statements relate the fields of a prepared data set. */
  ghost predicate WellFormed(s: Series) {
    && FrameData(s)
    && s.aoas == AnglesOfAttack(s.designData)
    && s.speeds == Speeds(s.designData)
    && s.lds == LiftToDrags(s.designData)
    && s.aoaLim == PaddedLimits(s.aoas)
    && s.spdLim == PaddedLimits(s.speeds)
    && s.ldLim == PaddedLimits(s.lds)
    && s.xLim == TopPlotXLimits(|s.lds|)
    && s.yLim == TopPlotYLimits(s.lds)
  }
}
