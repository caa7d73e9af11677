// Hill-climbing trainer of a DMNN: the error function, the resumable chunk
// of at most ten mutation steps (HiloTrainNet.run) and the session driver
// that seeds the history and re-runs chunks until the target or an abort
// (trainNet / finHiloTrainNet).

module Trainer {
  import opened Numeric
  import opened Dmnn
  import opened Initializer
  import KMeans

  /** The patterns form a matrix (one feature count for all) and every one
      of them can be fed to the net (pesW of length wlen, blocks numK). */
  predicate Fits(ps: seq<Pattern>, wlen: nat, numK: seq<nat>)
  {
    |ps| > 0 ==> Uniform(ps, |ps[0].features|) && WellShaped(|ps[0].features|, wlen, numK)
  }

  /** The class the net predicts for every pattern. */
  function Predictions(ps: seq<Pattern>, w: seq<real>, numK: seq<nat>): (ys: seq<nat>)
    requires Fits(ps, |w|, numK)
    ensures |ys| == |ps|
    ensures forall p :: 0 <= p < |ys| ==> ys[p] < |numK|
  {
    seq(|ps|, p requires 0 <= p < |ps| => Decision(ps[p].features, w, numK))
  }

  /** Number of patterns among the first n whose label is the prediction. */
  function Matches(ps: seq<Pattern>, ys: seq<nat>, n: nat): (c: nat)
    requires n <= |ps| && n <= |ys|
    ensures c <= n
  {
    if n == 0 then 0
    else Matches(ps, ys, n - 1) + (if ps[n - 1].cls == ys[n - 1] then 1 else 0)
  }

  /** Fraction of misclassified patterns. */
  function ErrorRate(ps: seq<Pattern>, w: seq<real>, numK: seq<nat>): real
    requires |ps| > 0 && Fits(ps, |w|, numK)
  {
    1.0 - (Matches(ps, Predictions(ps, w, numK), |ps|) as real) / (|ps| as real)
  }

  lemma {:induction false} MatchesAll(ps: seq<Pattern>, ys: seq<nat>, n: nat)
    requires n <= |ps| && n <= |ys|
    ensures Matches(ps, ys, n) == n <==> forall p :: 0 <= p < n ==> ps[p].cls == ys[p]
    ensures Matches(ps, ys, n) == 0 <==> forall p :: 0 <= p < n ==> ps[p].cls != ys[p]
  {
    if n > 0 {
      MatchesAll(ps, ys, n - 1);
    }
  }

  /** 1 - c/n lies in [0, 1] for c <= n, and is 0 or 1 exactly at c = n or c = 0. */
  lemma RateBounds(c: nat, n: nat)
    requires 0 < n && c <= n
    ensures 0.0 <= 1.0 - (c as real) / (n as real) <= 1.0
    ensures 1.0 - (c as real) / (n as real) == 0.0 <==> c == n
    ensures 1.0 - (c as real) / (n as real) == 1.0 <==> c == 0
  {
    var q := (c as real) / (n as real);
    assert q * (n as real) == c as real;
    DivideBounds(c as real, n as real, 0.0, 1.0);
  }

  /** The error lies in [0, 1]; it is 0 exactly when every pattern is
      classified as labelled and 1 exactly when none is. */
  lemma ErrorRateBounds(ps: seq<Pattern>, w: seq<real>, numK: seq<nat>)
    requires |ps| > 0 && Fits(ps, |w|, numK)
    ensures 0.0 <= ErrorRate(ps, w, numK) <= 1.0
    ensures ErrorRate(ps, w, numK) == 0.0 <==>
      forall p :: 0 <= p < |ps| ==> Decision(ps[p].features, w, numK) == ps[p].cls
    ensures ErrorRate(ps, w, numK) == 1.0 <==>
      forall p :: 0 <= p < |ps| ==> Decision(ps[p].features, w, numK) != ps[p].cls
  {
    var ys := Predictions(ps, w, numK);
    MatchesAll(ps, ys, |ps|);
    RateBounds(Matches(ps, ys, |ps|), |ps|);
  }

  /** Candidate weights: each weight moved by (2u - 1) * muta, where u is the
      uniform sample drawn for it. */
  function Perturb(w: seq<real>, u: seq<real>, muta: real): (child: seq<real>)
    requires |u| == |w|
    ensures |child| == |w|
  {
    seq(|w|, i requires 0 <= i < |w| => w[i] + (u[i] * 2.0 - 1.0) * muta)
  }

  function Abs(x: real): real
  {
    if x < 0.0 then -x else x
  }

  /** A sample in [0, 1) moves a weight by at most |muta|. */
  lemma PerturbBounded(w: seq<real>, u: seq<real>, muta: real, i: nat)
    requires |u| == |w| && i < |w| && 0.0 <= u[i] < 1.0
    ensures Abs(Perturb(w, u, muta)[i] - w[i]) <= Abs(muta)
  {
    var t := u[i] * 2.0 - 1.0;
    assert Perturb(w, u, muta)[i] - w[i] == t * muta;
    var m := Abs(muta);
    KMeans.MulNonNegative(t + 1.0, m);
    KMeans.MulNonNegative(1.0 - t, m);
    assert (t + 1.0) * m == t * m + m;
    assert (1.0 - t) * m == m - t * m;
    assert t * muta == t * m || t * muta == -(t * m);
  }

  /** Last iteration of a chunk started at step: ten steps ahead, capped by the goal. */
  function Limit(step: int, goal: int): (limit: int)
    ensures limit <= goal && limit <= step + 10
    ensures limit == goal || limit == step + 10
  {
    if step + 10 <= goal then step + 10 else goal
  }

  function Last(s: seq<real>): real
    requires |s| >= 1
  {
    s[|s| - 1]
  }

  datatype Progress = Progress(step: int, weights: seq<real>, best: real)

  /** One mutation step from (step, w, err): draw the sample draw(step + 1),
      keep the candidate when its error does not exceed err, and jump to the
      goal when that error is zero. */
  function Mutation(ps: seq<Pattern>, numK: seq<nat>, muta: real, draw: int -> seq<real>,
                    step: int, goal: int, w: seq<real>, err: real): (r: Progress)
    requires |ps| > 0 && Fits(ps, |w|, numK)
    requires forall t :: |draw(t)| == |w|
    ensures |r.weights| == |w|
    ensures r.step == step + 1 || r.step == goal
    ensures step < goal ==> step < r.step <= goal
  {
    var s := step + 1;
    var child := Perturb(w, draw(s), muta);
    var e := ErrorRate(ps, child, numK);
    if e <= err then Progress(if e == 0.0 then goal else s, child, e)
    else Progress(s, w, err)
  }

  /** The state a chunk reaches from (step, w, err) by mutation steps until
      the step counter reaches limit. */
  function Climb(ps: seq<Pattern>, numK: seq<nat>, muta: real, draw: int -> seq<real>,
                 step: int, limit: int, goal: int, w: seq<real>, err: real): (r: Progress)
    requires |ps| > 0 && Fits(ps, |w|, numK)
    requires forall t :: |draw(t)| == |w|
    requires limit <= goal
    ensures |r.weights| == |w|
    decreases limit - step
  {
    if step >= limit then Progress(step, w, err)
    else
      var n := Mutation(ps, numK, muta, draw, step, goal, w, err);
      Climb(ps, numK, muta, draw, n.step, limit, goal, n.weights, n.best)
  }

  /** The step counter never moves back, never passes the goal, and a chunk
      that starts below its limit ends at the limit or at the goal. */
  lemma {:induction false} ClimbSteps(ps: seq<Pattern>, numK: seq<nat>, muta: real, draw: int -> seq<real>,
                                      step: int, limit: int, goal: int, w: seq<real>, err: real)
    requires |ps| > 0 && Fits(ps, |w|, numK)
    requires forall t :: |draw(t)| == |w|
    requires limit <= goal
    ensures var r := Climb(ps, numK, muta, draw, step, limit, goal, w, err);
      && step <= r.step
      && (step <= goal ==> r.step <= goal)
      && (step >= limit ==> r.step == step)
      && (step < limit ==> r.step == limit || r.step == goal)
    decreases limit - step
  {
    if step < limit {
      var n := Mutation(ps, numK, muta, draw, step, goal, w, err);
      ClimbSteps(ps, numK, muta, draw, n.step, limit, goal, n.weights, n.best);
    }
  }

  /** The best error never grows, and the weights a chunk ends with are either
      the ones it started with (best unchanged) or a candidate whose error is
      the final best. */
  lemma {:induction false} ClimbImproves(ps: seq<Pattern>, numK: seq<nat>, muta: real, draw: int -> seq<real>,
                                         step: int, limit: int, goal: int, w: seq<real>, err: real)
    requires |ps| > 0 && Fits(ps, |w|, numK)
    requires forall t :: |draw(t)| == |w|
    requires limit <= goal
    ensures var r := Climb(ps, numK, muta, draw, step, limit, goal, w, err);
      && r.best <= err
      && ((r.weights == w && r.best == err) || ErrorRate(ps, r.weights, numK) == r.best)
    decreases limit - step
  {
    if step < limit {
      var n := Mutation(ps, numK, muta, draw, step, goal, w, err);
      ClimbImproves(ps, numK, muta, draw, n.step, limit, goal, n.weights, n.best);
    }
  }

  /** Reaching a zero error from a nonzero one ends the chunk at the goal. */
  lemma {:induction false} ClimbZero(ps: seq<Pattern>, numK: seq<nat>, muta: real, draw: int -> seq<real>,
                                     step: int, limit: int, goal: int, w: seq<real>, err: real)
    requires |ps| > 0 && Fits(ps, |w|, numK)
    requires forall t :: |draw(t)| == |w|
    requires limit <= goal && step <= goal
    ensures var r := Climb(ps, numK, muta, draw, step, limit, goal, w, err);
      r.best == 0.0 && err != 0.0 ==> r.step == goal
    decreases limit - step
  {
    if step < limit {
      var n := Mutation(ps, numK, muta, draw, step, goal, w, err);
      if n.best == 0.0 && err != 0.0 {
        ClimbSteps(ps, numK, muta, draw, n.step, limit, goal, n.weights, n.best);
      } else {
        ClimbZero(ps, numK, muta, draw, n.step, limit, goal, n.weights, n.best);
      }
    }
  }

  /** The history of best errors, read from index 1 on, never increases
      (index 0 holds the seed 0). */
  predicate Descending(error: seq<real>)
  {
    forall i, j :: 1 <= i <= j < |error| ==> error[j] <= error[i]
  }

  /** Largest feature value over all patterns. */
  function MaxFeature(ps: seq<Pattern>): (r: real)
    requires |ps| > 0 && forall p :: 0 <= p < |ps| ==> |ps[p].features| > 0
    ensures forall p, i :: 0 <= p < |ps| && 0 <= i < |ps[p].features| ==> ps[p].features[i] <= r
    ensures exists p, i :: 0 <= p < |ps| && 0 <= i < |ps[p].features| && ps[p].features[i] == r
  {
    var m := MaxOf(ps[|ps| - 1].features);
    if |ps| == 1 then m
    else
      var rest := MaxFeature(ps[..|ps| - 1]);
      if rest <= m then m else rest
  }

  /** The loop of funError: how many patterns the net classifies as labelled. */
  method CountHits(ps: seq<Pattern>, w: seq<real>, numK: seq<nat>) returns (res: real)
    requires Fits(ps, |w|, numK)
    ensures res == Matches(ps, Predictions(ps, w, numK), |ps|) as real
  {
    ghost var ys := Predictions(ps, w, numK);
    res := 0.0;
    for p := 0 to |ps|
      invariant res == Matches(ps, ys, p) as real
    {
      var y := ExecuteDMNN(ps[p].features, w, numK);
      if ps[p].cls == y {
        res := res + 1.0;
      }
    }
  }

  /** The body of funError: one minus the fraction of hits. */
  method MeasureError(ps: seq<Pattern>, w: seq<real>, numK: seq<nat>) returns (e: real)
    requires |ps| > 0 && Fits(ps, |w|, numK)
    ensures e == ErrorRate(ps, w, numK)
  {
    var res := CountHits(ps, w, numK);
    e := 1.0 - res / (|ps| as real);
  }

  /** One step of run: draw a candidate, keep it when its error is not
      worse than the best, jump to the goal on a zero error. */
  method Mutate(ps: seq<Pattern>, numK: seq<nat>, muta: real, draw: int -> seq<real>,
                s: int, goal: int, w: seq<real>, err: real)
    returns (s': int, w': seq<real>, err': real)
    requires |ps| > 0 && Fits(ps, |w|, numK)
    requires forall t :: |draw(t)| == |w|
    ensures Progress(s', w', err') == Mutation(ps, numK, muta, draw, s, goal, w, err)
  {
    s', w', err' := s + 1, w, err;
    var hijo := Perturb(w, draw(s'), muta);
    var newerror := MeasureError(ps, hijo, numK);
    if newerror <= err {
      if newerror == 0.0 {
        s' := goal;
      }
      w' := hijo;
      err' := newerror;
    }
  }

  /** The loop of run: mutation steps from step up to limit. */
  method ClimbLoop(ps: seq<Pattern>, numK: seq<nat>, muta: real, draw: int -> seq<real>,
                   step: int, limit: int, goal: int, w: seq<real>, err: real) returns (r: Progress)
    requires |ps| > 0 && Fits(ps, |w|, numK)
    requires forall t :: |draw(t)| == |w|
    requires limit <= goal
    ensures r == Climb(ps, numK, muta, draw, step, limit, goal, w, err)
  {
    ghost var target := Climb(ps, numK, muta, draw, step, limit, goal, w, err);
    var s, pesW, error := step, w, err;
    while s < limit
      invariant |pesW| == |w|
      invariant Climb(ps, numK, muta, draw, s, limit, goal, pesW, error) == target
      decreases limit - s
    {
      s, pesW, error := Mutate(ps, numK, muta, draw, s, goal, pesW, error);
    }
    r := Progress(s, pesW, error);
  }

  /** Mutation size of a session: the largest feature value scaled by pct. */
  function MutationSize(ps: seq<Pattern>, pct: real): real
    requires |ps| > 0 && forall p :: 0 <= p < |ps| ==> |ps[p].features| > 0
  {
    MaxFeature(ps) * pct
  }

  class HiloTrainNet {
    var patrones: seq<Pattern>
    var pesW: seq<real>
    var numK: seq<nat>
    /** iteracion[0]: steps done so far. */
    var step: int
    /** iteracion[1]: steps wanted. */
    var goal: int
    var muta: real
    /** History of best errors, one entry per chunk. */
    var error: seq<real>

    constructor ()
      ensures patrones == [] && pesW == [0.0] && numK == [0]
      ensures step == 0 && goal == 100 && muta == 1.0 && error == [0.0]
      ensures Descending(error)
    {
      patrones := [];
      pesW := [0.0];
      numK := [0];
      step := 0;
      goal := 100;
      muta := 1.0;
      error := [0.0];
    }

    /** There are patterns and each of them can be fed to the net. */
    predicate Ready()
      reads this
    {
      |patrones| > 0 && Fits(patrones, |pesW|, numK)
    }

    /** Session setup of trainNet: load the data, set mutation size and
        goal, restart the step counter and seed an empty history with
        [0, error of w]. */
    method Prepare(ps: seq<Pattern>, w: seq<real>, k: seq<nat>, m: real, g: int)
      requires |ps| > 0 && Fits(ps, |w|, k)
      modifies this
      ensures patrones == ps && pesW == w && numK == k && muta == m && goal == g && step == 0
      ensures error == if old(|error|) == 0 then [0.0, ErrorRate(ps, w, k)] else old(error)
      ensures Ready() && |error| >= 1
      ensures old(Descending(error)) ==> Descending(error)
    {
      patrones, pesW, numK, muta, goal, step := ps, w, k, m, g, 0;
      if |error| == 0 {
        var e := FunError(pesW);
        error := [0.0, e];
      }
    }

    method FunError(w: seq<real>) returns (e: real)
      requires |patrones| > 0 && Fits(patrones, |w|, numK)
      ensures e == ErrorRate(patrones, w, numK)
    {
      e := MeasureError(patrones, w, numK);
    }

    /** One chunk: at most ten mutation steps, then one history entry. */
    method Run(draw: int -> seq<real>)
      requires Ready() && |error| >= 1
      requires forall t :: |draw(t)| == |pesW|
      modifies this
      ensures patrones == old(patrones) && numK == old(numK) && goal == old(goal) && muta == old(muta)
      ensures |pesW| == old(|pesW|) && Ready()
      ensures |error| == old(|error|) + 1 && error[..old(|error|)] == old(error)
      ensures Progress(step, pesW, Last(error))
           == Climb(patrones, numK, muta, draw, old(step), Limit(old(step), goal), goal, old(pesW), old(Last(error)))
      ensures old(step) <= goal ==> old(step) <= step <= goal
      ensures old(step) < goal ==> old(step) < step
      ensures step <= old(step) + 10 || step == goal
      ensures Last(error) <= old(Last(error))
      ensures (pesW == old(pesW) && Last(error) == old(Last(error))) || ErrorRate(patrones, pesW, numK) == Last(error)
      ensures old(Descending(error)) ==> Descending(error)
    {
      var err := Last(error);
      var limit := Limit(step, goal);
      ClimbSteps(patrones, numK, muta, draw, step, limit, goal, pesW, err);
      ClimbImproves(patrones, numK, muta, draw, step, limit, goal, pesW, err);
      var r := ClimbLoop(patrones, numK, muta, draw, step, limit, goal, pesW, err);
      step, pesW := r.step, r.weights;
      error := error + [r.best];
    }
  }

  /** The re-run rule of finHiloTrainNet: run a chunk; when it ends below
      the goal and no abort was requested (abort(c) after chunk c), start
      the next one. Chunk numbers continue from done. */
  method RunChunks(t: HiloTrainNet, draw: int -> seq<real>, abort: nat -> bool, done: nat)
    returns (chunks: nat)
    requires t.Ready() && |t.error| >= 1 && 0 <= t.step < t.goal
    requires forall s :: |draw(s)| == |t.pesW|
    modifies t
    ensures t.patrones == old(t.patrones) && t.numK == old(t.numK) && t.goal == old(t.goal) && t.muta == old(t.muta)
    ensures t.Ready() && |t.pesW| == old(|t.pesW|) && |t.error| > old(|t.error|)
    ensures t.error[..old(|t.error|)] == old(t.error)
    ensures chunks > done && (t.step == t.goal || abort(chunks))
    ensures forall c :: done < c < chunks ==> !abort(c)
    ensures old(Descending(t.error)) ==> Descending(t.error)
    ensures old(ErrorRate(t.patrones, t.pesW, t.numK) == Last(t.error)) ==>
      ErrorRate(t.patrones, t.pesW, t.numK) == Last(t.error)
    decreases t.goal - t.step
  {
    t.Run(draw);
    if t.step < t.goal && !abort(done + 1) {
      chunks := RunChunks(t, draw, abort, done + 1);
    } else {
      chunks := done + 1;
    }
  }

  /**
   * A training session: copies the patterns, weights and blocks into the
   * trainer, sets the mutation size to the largest feature times pct and the
   * goal to max(1, n), seeds an empty history with [0, error of w], then runs
   * chunks while the goal is not reached and no abort was requested.
   * abort(c) tells whether an abort was requested when chunk c ended.
   * Returns the weights copied back to the net, or None when there is no data.
   */
  method TrainSession(t: HiloTrainNet, ps: seq<Pattern>, w: seq<real>, numK: seq<nat>,
                      pct: real, n: int, draw: int -> seq<real>, abort: nat -> bool)
    returns (net: Option<seq<real>>, chunks: nat)
    requires Fits(ps, |w|, numK)
    requires forall s :: |draw(s)| == |w|
    requires Descending(t.error)
    modifies t
    ensures net.None? <==> |ps| == 0 || |w| == 0
    ensures net.None? ==> unchanged(t)
    ensures Descending(t.error)
    ensures net.Some? ==>
      && net.value == t.pesW && |t.pesW| == |w|
      && t.patrones == ps && t.numK == numK
      && t.goal == (if n >= 1 then n else 1)
      && t.muta == MutationSize(ps, pct)
      && chunks >= 1
      && (t.step == t.goal || abort(chunks))
      && (forall c :: 1 <= c < chunks ==> !abort(c))
    ensures net.Some? && old(|t.error|) == 0 ==>
      && |t.error| >= 2
      && t.error[1] == ErrorRate(ps, w, numK)
      && ErrorRate(ps, t.pesW, numK) == Last(t.error) <= t.error[1]
  {
    chunks := 0;
    if |ps| == 0 || |w| == 0 {
      net := None;
      return;
    }
    var muta := MutationSize(ps, pct);
    var goal := if n >= 1 then n else 1;
    t.Prepare(ps, w, numK, muta, goal);
    chunks := RunChunks(t, draw, abort, 0);
    net := Some(t.pesW);
  }
}
