/**
 * What `animate(frame)` in images/visualise.py shows in frame number
 * `frame`: the first k = frame + 1 iterations, the design with the best
 * L/D among them (the first one when several share the maximum), and the
 * phase label of the optimisation.
 */
module Animation {
  import opened PlotData

  datatype Phase = SobolSampling | BayesianOptimization

  /** The phase label of frame k: exploration while k is within the shaded Sobol trials. */
  function PhaseOf(k: nat, numSobol: nat): (p: Phase)
    ensures p == SobolSampling <==> k <= numSobol
    ensures p == BayesianOptimization <==> numSobol < k
  {
    if k <= numSobol then SobolSampling else BayesianOptimization
  }

  /** Python's `s.index(v)`: the first position holding `v`. */
  function IndexOf(s: seq<real>, v: real): (i: nat)
    requires v in s
    ensures i < |s| && s[i] == v
    ensures forall j :: 0 <= j < i ==> s[j] != v
  {
    if s[0] == v then 0 else 1 + IndexOf(s[1..], v)
  }

  /**
   * `y.index(max(y))`: the smallest position of the maximum of `y`: no
   * value exceeds it and every value before it is strictly smaller.
   */
  function BestIndex(y: seq<real>): (b: nat)
    requires |y| > 0
    ensures b < |y| && y[b] == SeqMax(y)
    ensures forall j :: 0 <= j < |y| ==> y[j] <= y[b]
    ensures forall j :: 0 <= j < b ==> y[j] < y[b]
  {
    IndexOf(y, SeqMax(y))
  }

  /** What one frame draws and prints. */
  datatype Frame = Frame(
    k: nat,                 // iterations shown
    x: seq<int>,            // iterations[:k]
    y: seq<real>,           // LDs[:k]
    best: seq<real>,        // cumulative_best[:k]
    bestIdx: nat,           // position of the starred design
    aoaBest: real,
    speedBest: real,
    starLD: real,           // y[best_idx], the starred point
    phase: Phase,
    currentLD: real,        // y[-1], printed as "Current LD"
    bestLD: real)           // best[-1], printed as "Best LD"

  /**
   * `animate(frame)` for the frames FuncAnimation asks for (0 <= frame < n).
   * The starred design is the first one with the best L/D so far; the best
   * value printed from the running best is that design's L/D; and the phase
   * is Sobol sampling exactly for the first min(4, n) frames.
   */
  function Animate(s: Series, frame: nat): (f: Frame)
    requires FrameData(s) && frame < |s.lds|
    ensures f.k == frame + 1
    ensures f.x == s.iterations[..f.k] && f.y == s.lds[..f.k] && f.best == s.cumulativeBest[..f.k]
    ensures forall i :: 0 <= i < f.k ==> f.x[i] == i + 1
    ensures f.bestIdx < f.k
    ensures forall j :: 0 <= j < f.k ==> f.y[j] <= f.y[f.bestIdx]
    ensures forall j :: 0 <= j < f.bestIdx ==> f.y[j] < f.y[f.bestIdx]
    ensures f.aoaBest == s.aoas[f.bestIdx] && f.speedBest == s.speeds[f.bestIdx]
    ensures f.starLD == f.y[f.bestIdx] == f.bestLD
    ensures f.currentLD == s.lds[frame]
    ensures f.phase == SobolSampling <==> f.k <= NumSobol(|s.lds|)
    ensures f.phase == SobolSampling <==> f.k <= 4
  {
    var k := frame + 1;
    var x, y, best := s.iterations[..k], s.lds[..k], s.cumulativeBest[..k];
    IterationsPrefix(|s.lds|, k);
    var bestIdx := BestIndex(y);
    Frame(k, x, y, best, bestIdx, s.aoas[bestIdx], s.speeds[bestIdx], y[bestIdx],
          PhaseOf(k, s.numSobol), y[k - 1], best[k - 1])
  }

  /** The phase label of every frame, in frame order. */
  function Phases(n: nat): (ps: seq<Phase>)
    ensures |ps| == n
  {
    seq(n, i requires 0 <= i < n => PhaseOf(i + 1, NumSobol(n)))
  }

  function Repeat(p: Phase, m: nat): (ps: seq<Phase>)
    ensures |ps| == m && forall i :: 0 <= i < m ==> ps[i] == p
  {
    if m == 0 then [] else Repeat(p, m - 1) + [p]
  }

  /**
   * Over a whole animation of n frames the label reads "Sobol sampling"
   * for the first min(4, n) frames and "Bayesian Optimization" for the rest:
   * once guided, the label never returns to exploration.
   */
  lemma PhasesSplit(n: nat)
    ensures Phases(n) == Repeat(SobolSampling, NumSobol(n)) + Repeat(BayesianOptimization, n - NumSobol(n))
  {
    var lhs, rhs := Phases(n), Repeat(SobolSampling, NumSobol(n)) + Repeat(BayesianOptimization, n - NumSobol(n));
    assert |lhs| == |rhs|;
    forall i | 0 <= i < n ensures lhs[i] == rhs[i] {
      assert lhs[i] == PhaseOf(i + 1, NumSobol(n));
      if i < NumSobol(n) {
        assert rhs[i] == Repeat(SobolSampling, NumSobol(n))[i];
      } else {
        assert rhs[i] == Repeat(BayesianOptimization, n - NumSobol(n))[i - NumSobol(n)];
      }
    }
  }
}
