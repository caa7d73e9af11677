/** k-means clustering as Kmedias runs it, used to seed hyperbox centres.

    The random initial centres are injected: `samples` holds the values
    np.random.random_sample would draw, each in [0, 1). The early stop is
    modelled as the source writes it: after a pass the loop stops when
    EVERY centre changed, and continues as soon as one centre is unchanged. */
module KMeans {
  import opened Numeric
  import opened Compaction

  function Zeros(d: nat): (z: seq<real>)
    ensures |z| == d && forall i :: 0 <= i < d ==> z[i] == 0.0
  {
    seq(d, i => 0.0)
  }

  function Add(a: seq<real>, b: seq<real>): (r: seq<real>)
    requires |a| == |b|
    ensures |r| == |a| && forall i :: 0 <= i < |a| ==> r[i] == a[i] + b[i]
  {
    seq(|a|, i requires 0 <= i < |a| => a[i] + b[i])
  }

  function DivideBy(a: seq<real>, t: real): (r: seq<real>)
    requires t != 0.0
    ensures |r| == |a| && forall i :: 0 <= i < |a| ==> r[i] == a[i] / t
  {
    seq(|a|, i requires 0 <= i < |a| => a[i] / t)
  }

  /** Squared Euclidean distance. */
  function SqDist(a: seq<real>, b: seq<real>): (r: real)
    requires |a| == |b|
    ensures r >= 0.0
  {
    var sq := seq(|a|, i requires 0 <= i < |a| => (a[i] - b[i]) * (a[i] - b[i]));
    SumNonNegative(sq);
    Sum(sq)
  }

  /** Index of the closest centre; ties go to the lowest index (np.argmin). */
  function Nearest(centers: seq<seq<real>>, x: seq<real>): (r: nat)
    requires |centers| >= 1 && Rectangular(centers, |x|)
    ensures r < |centers|
    ensures forall c :: 0 <= c < |centers| ==> SqDist(centers[r], x) <= SqDist(centers[c], x)
    ensures forall c :: 0 <= c < r ==> SqDist(centers[r], x) < SqDist(centers[c], x)
  {
    var dist := seq(|centers|, c requires 0 <= c < |centers| => SqDist(centers[c], x));
    assert forall c :: 0 <= c < |centers| ==> dist[c] == SqDist(centers[c], x);
    FirstArgMin(dist)
  }

  /** The label column after an assignment pass. */
  function Assign(centers: seq<seq<real>>, points: seq<seq<real>>, d: nat): (labels: seq<nat>)
    requires |centers| >= 1 && Rectangular(centers, d) && Rectangular(points, d)
    ensures |labels| == |points|
    ensures forall p :: 0 <= p < |points| ==> labels[p] < |centers|
  {
    seq(|points|, p requires 0 <= p < |points| => Nearest(centers, points[p]))
  }

  /** Number of the first n points labelled c. */
  function AssignedCount(labels: seq<nat>, c: nat, n: nat): nat
    requires n <= |labels|
  {
    if n == 0 then 0
    else AssignedCount(labels, c, n - 1) + (if labels[n - 1] == c then 1 else 0)
  }

  /** Coordinate-wise sum of the first n points labelled c. */
  function AssignedSum(points: seq<seq<real>>, labels: seq<nat>, c: nat, n: nat, d: nat): (s: seq<real>)
    requires Rectangular(points, d) && n <= |points| == |labels|
    ensures |s| == d
  {
    if n == 0 then Zeros(d)
    else
      var s := AssignedSum(points, labels, c, n - 1, d);
      if labels[n - 1] == c then Add(s, points[n - 1]) else s
  }

  /** A centre after the update step: the mean of its points, or its
      previous value when no point was assigned to it. */
  function UpdatedCenter(points: seq<seq<real>>, labels: seq<nat>, c: nat, current: seq<real>, d: nat): (r: seq<real>)
    requires Rectangular(points, d) && |points| == |labels| && |current| == d
    ensures |r| == d
  {
    var t := AssignedCount(labels, c, |labels|);
    if t == 0 then current else DivideBy(AssignedSum(points, labels, c, |labels|, d), t as real)
  }

  /** The update step applied to every centre for a given label column. */
  function UpdatedCenters(points: seq<seq<real>>, labels: seq<nat>, centers: seq<seq<real>>, d: nat): (next: seq<seq<real>>)
    requires Rectangular(centers, d) && Rectangular(points, d) && |points| == |labels|
    ensures |next| == |centers| && Rectangular(next, d)
  {
    seq(|centers|, c requires 0 <= c < |centers| => UpdatedCenter(points, labels, c, centers[c], d))
  }

  /** One assignment-and-update pass over all centres. */
  function Pass(points: seq<seq<real>>, centers: seq<seq<real>>, d: nat): (next: seq<seq<real>>)
    requires |centers| >= 1 && Rectangular(centers, d) && Rectangular(points, d)
    ensures |next| == |centers| && Rectangular(next, d)
  {
    UpdatedCenters(points, Assign(centers, points, d), centers, d)
  }

  /** The source's `fin` after a pass: every centre differs from its value
      before the pass in at least one coordinate. */
  predicate AllMoved(before: seq<seq<real>>, after: seq<seq<real>>)
    requires |before| == |after|
  {
    forall c :: 0 <= c < |before| ==> before[c] != after[c]
  }

  /** The centres Kmedias returns after at most `iters` passes, paired with
      the number of passes made. */
  function Run(points: seq<seq<real>>, centers: seq<seq<real>>, d: nat, iters: int): (r: (seq<seq<real>>, nat))
    requires |centers| >= 1 && Rectangular(centers, d) && Rectangular(points, d)
    ensures |r.0| == |centers| && Rectangular(r.0, d)
    ensures iters <= 0 ==> r.1 == 0
    ensures iters >= 1 ==> 1 <= r.1 <= iters
    decreases iters
  {
    if iters <= 0 then (centers, 0)
    else
      var next := Pass(points, centers, d);
      if AllMoved(centers, next) then (next, 1)
      else
        var rest := Run(points, next, d, iters - 1);
        (rest.0, rest.1 + 1)
  }

  /** Column-wise minimum and maximum of the points (np.min / np.max). */
  function ColMin(points: seq<seq<real>>, d: nat): (lo: seq<real>)
    requires Rectangular(points, d) && |points| >= 1
    ensures |lo| == d
  {
    seq(d, i requires 0 <= i < d => MinOf(Column(points, d, i)))
  }

  function ColMax(points: seq<seq<real>>, d: nat): (hi: seq<real>)
    requires Rectangular(points, d) && |points| >= 1
    ensures |hi| == d
  {
    seq(d, i requires 0 <= i < d => MaxOf(Column(points, d, i)))
  }

  /** x lies in the per-dimension box [lo, hi]. */
  ghost predicate PointInBox(x: seq<real>, lo: seq<real>, hi: seq<real>)
  {
    && |x| == |lo| == |hi|
    && forall i :: 0 <= i < |lo| ==> lo[i] <= x[i] <= hi[i]
  }

  /** Every row lies in the per-dimension box [lo, hi]. */
  ghost predicate InBox(rows: seq<seq<real>>, lo: seq<real>, hi: seq<real>)
  {
    && |lo| == |hi|
    && Rectangular(rows, |lo|)
    && forall r :: 0 <= r < |rows| ==> PointInBox(rows[r], lo, hi)
  }

  /** The points lie in their own bounding box. */
  lemma PointsInOwnBox(points: seq<seq<real>>, d: nat)
    requires Rectangular(points, d) && |points| >= 1
    ensures InBox(points, ColMin(points, d), ColMax(points, d))
  {
    forall r | 0 <= r < |points|
      ensures PointInBox(points[r], ColMin(points, d), ColMax(points, d))
    {
      forall i | 0 <= i < d
        ensures ColMin(points, d)[i] <= points[r][i] <= ColMax(points, d)[i]
      {
        assert Column(points, d, i)[r] == points[r][i];
      }
    }
  }

  /** The initial centres: (dMax - dMin) * sample + dMin. */
  function InitialCenters(samples: seq<seq<real>>, lo: seq<real>, hi: seq<real>): (centers: seq<seq<real>>)
    requires |lo| == |hi| && Rectangular(samples, |lo|)
    ensures |centers| == |samples| && Rectangular(centers, |lo|)
  {
    seq(|samples|, c requires 0 <= c < |samples| =>
      seq(|lo|, i requires 0 <= i < |lo| => (hi[i] - lo[i]) * samples[c][i] + lo[i]))
  }

  /** Uniform samples in [0, 1). */
  predicate UnitSamples(samples: seq<seq<real>>)
  {
    forall c, i :: 0 <= c < |samples| && 0 <= i < |samples[c]| ==> 0.0 <= samples[c][i] < 1.0
  }

  lemma MulNonNegative(a: real, b: real)
    requires a >= 0.0 && b >= 0.0
    ensures a * b >= 0.0
  {
  }

  lemma ScaledSampleInRange(lo: real, hi: real, u: real)
    requires lo <= hi && 0.0 <= u < 1.0
    ensures lo <= (hi - lo) * u + lo <= hi
  {
    var w := hi - lo;
    MulNonNegative(w, u);
    MulNonNegative(w, 1.0 - u);
    assert w * (1.0 - u) == w - w * u;
  }

  /** Centres drawn from unit samples start inside the box. */
  lemma InitialCentersInBox(samples: seq<seq<real>>, lo: seq<real>, hi: seq<real>)
    requires |lo| == |hi| && Rectangular(samples, |lo|) && UnitSamples(samples)
    requires forall i :: 0 <= i < |lo| ==> lo[i] <= hi[i]
    ensures InBox(InitialCenters(samples, lo, hi), lo, hi)
  {
    var centers := InitialCenters(samples, lo, hi);
    forall c | 0 <= c < |centers|
      ensures PointInBox(centers[c], lo, hi)
    {
      forall i | 0 <= i < |lo|
        ensures lo[i] <= centers[c][i] <= hi[i]
      {
        ScaledSampleInRange(lo[i], hi[i], samples[c][i]);
      }
    }
  }

  /** v added once for every one of the first n points labelled c. */
  function Repeated(labels: seq<nat>, c: nat, n: nat, v: real): real
    requires n <= |labels|
  {
    if n == 0 then 0.0
    else Repeated(labels, c, n - 1, v) + (if labels[n - 1] == c then v else 0.0)
  }

  /** Adding v once per labelled point is multiplying it by their count. */
  lemma {:induction false} RepeatedIsProduct(labels: seq<nat>, c: nat, n: nat, v: real)
    requires n <= |labels|
    ensures Repeated(labels, c, n, v) == AssignedCount(labels, c, n) as real * v
  {
    if n > 0 {
      RepeatedIsProduct(labels, c, n - 1, v);
      var t := AssignedCount(labels, c, n - 1) as real;
      assert (t + 1.0) * v == t * v + v;
    }
  }

  /** Averaged over the labelled points, v repeated is v itself. */
  lemma RepeatedMean(labels: seq<nat>, c: nat, n: nat, v: real)
    requires n <= |labels| && AssignedCount(labels, c, n) > 0
    ensures Repeated(labels, c, n, v) / AssignedCount(labels, c, n) as real == v
  {
    RepeatedIsProduct(labels, c, n, v);
    var t := AssignedCount(labels, c, n) as real;
    assert t * v / t == v;
  }

  /** Coordinate i of the sum of the points labelled c lies between the
      corresponding multiples of lo[i] and hi[i]. */
  lemma {:induction false} AssignedSumBetween(points: seq<seq<real>>, labels: seq<nat>, c: nat, n: nat,
                                              lo: seq<real>, hi: seq<real>, i: nat)
    requires InBox(points, lo, hi) && n <= |points| == |labels| && i < |lo|
    ensures Repeated(labels, c, n, lo[i]) <= AssignedSum(points, labels, c, n, |lo|)[i] <= Repeated(labels, c, n, hi[i])
  {
    if n > 0 {
      AssignedSumBetween(points, labels, c, n - 1, lo, hi, i);
      AssignedStep(points, labels, c, n, |lo|, i);
      if labels[n - 1] == c {
        assert PointInBox(points[n - 1], lo, hi);
      }
    }
  }

  /** One more point either joins the sum and the count of centre c or
      leaves both unchanged. */
  lemma AssignedStep(points: seq<seq<real>>, labels: seq<nat>, c: nat, n: nat, d: nat, i: nat)
    requires Rectangular(points, d) && 0 < n <= |points| == |labels| && i < d
    ensures labels[n - 1] == c ==>
      AssignedSum(points, labels, c, n, d)[i] == AssignedSum(points, labels, c, n - 1, d)[i] + points[n - 1][i]
    ensures labels[n - 1] != c ==>
      AssignedSum(points, labels, c, n, d)[i] == AssignedSum(points, labels, c, n - 1, d)[i]
  {
  }

  /** The update step keeps a centre of the box inside the box. */
  lemma UpdatedCenterInBox(points: seq<seq<real>>, labels: seq<nat>, c: nat, current: seq<real>,
                           lo: seq<real>, hi: seq<real>)
    requires InBox(points, lo, hi) && |points| == |labels|
    requires PointInBox(current, lo, hi)
    ensures PointInBox(UpdatedCenter(points, labels, c, current, |lo|), lo, hi)
  {
    var d := |lo|;
    var t := AssignedCount(labels, c, |labels|);
    var r := UpdatedCenter(points, labels, c, current, d);
    if t > 0 {
      forall i | 0 <= i < d
        ensures lo[i] <= r[i] <= hi[i]
      {
        var sum := AssignedSum(points, labels, c, |labels|, d)[i];
        AssignedSumBetween(points, labels, c, |labels|, lo, hi, i);
        RepeatedMean(labels, c, |labels|, lo[i]);
        RepeatedMean(labels, c, |labels|, hi[i]);
        DivideMonotone(Repeated(labels, c, |labels|, lo[i]), sum, t as real);
        DivideMonotone(sum, Repeated(labels, c, |labels|, hi[i]), t as real);
      }
    }
  }

  /** A pass keeps every centre of the points' box inside it. */
  lemma PassKeepsBox(points: seq<seq<real>>, centers: seq<seq<real>>, lo: seq<real>, hi: seq<real>)
    requires |centers| >= 1 && InBox(points, lo, hi) && InBox(centers, lo, hi)
    ensures InBox(Pass(points, centers, |lo|), lo, hi)
  {
    var d := |lo|;
    var labels := Assign(centers, points, d);
    var next := Pass(points, centers, d);
    forall c | 0 <= c < |next|
      ensures PointInBox(next[c], lo, hi)
    {
      UpdatedCenterInBox(points, labels, c, centers[c], lo, hi);
    }
  }

  /** With two or more passes allowed, the loop stops after the first pass
      exactly when that pass moved every centre. */
  lemma EarlyStopRule(points: seq<seq<real>>, centers: seq<seq<real>>, d: nat, iters: int)
    requires |centers| >= 1 && Rectangular(centers, d) && Rectangular(points, d)
    requires iters >= 2
    ensures Run(points, centers, d, iters).1 == 1 <==> AllMoved(centers, Pass(points, centers, d))
  {
  }

  /** A fixed point does NOT stop the loop: with every centre unchanged,
      `fin` is cleared and all `iters` passes run. */
  lemma {:induction false} FixedPointRunsAllPasses(points: seq<seq<real>>, centers: seq<seq<real>>, d: nat, iters: nat)
    requires |centers| >= 1 && Rectangular(centers, d) && Rectangular(points, d)
    requires Pass(points, centers, d) == centers
    ensures Run(points, centers, d, iters) == (centers, iters)
    decreases iters
  {
    if iters > 0 {
      assert !AllMoved(centers, Pass(points, centers, d)) by {
        assert centers[0] == Pass(points, centers, d)[0];
      }
      FixedPointRunsAllPasses(points, centers, d, iters - 1);
    }
  }

  /** A loop that stops after the first step leaving its state unchanged,
      or after `iters` steps; returns the state and the number of steps. */
  function StopWhenSettled<T(==)>(step: T -> T, x: T, iters: int): (r: (T, nat))
    ensures iters <= 0 ==> r.1 == 0
    ensures iters >= 1 ==> 1 <= r.1 <= iters
    decreases iters
  {
    if iters <= 0 then (x, 0)
    else if step(x) == x then (x, 1)
    else
      var rest := StopWhenSettled(step, step(x), iters - 1);
      (rest.0, rest.1 + 1)
  }

  /** Such a loop that ends before its last allowed step ends at a fixed
      point of the step. */
  lemma {:induction false} SettledStopIsFixed<T>(step: T -> T, x: T, iters: int)
    ensures var r := StopWhenSettled(step, x, iters);
      r.1 < iters ==> step(r.0) == r.0
    decreases iters
  {
    if iters > 0 && step(x) != x {
      SettledStopIsFixed(step, step(x), iters - 1);
    }
  }

  /** Every state the loop can end in satisfies an invariant of the step. */
  lemma {:induction false} SettledStopKeeps<T>(step: T -> T, inv: T -> bool, x: T, iters: int)
    requires inv(x)
    requires forall y :: inv(y) ==> inv(step(y))
    ensures inv(StopWhenSettled(step, x, iters).0)
    decreases iters
  {
    if iters > 0 && step(x) != x {
      SettledStopKeeps(step, inv, step(x), iters - 1);
    }
  }

  /** The centres of `clusters` rows of d coordinates. */
  predicate CentersOfShape(centers: seq<seq<real>>, clusters: nat, d: nat)
  {
    |centers| == clusters && Rectangular(centers, d)
  }

  /** One pass as a total step: a pass on well-shaped centres, and no change
      on anything else. */
  function PassStep(points: seq<seq<real>>, d: nat): (step: seq<seq<real>> -> seq<seq<real>>)
    requires Rectangular(points, d)
  {
    c => if |c| >= 1 && Rectangular(c, d) then Pass(points, c, d) else c
  }

  /** The loop as its comments describe it: stop after a pass that moved no
      centre. */
  function IntendedRun(points: seq<seq<real>>, centers: seq<seq<real>>, d: nat, iters: int): (r: (seq<seq<real>>, nat))
    requires Rectangular(points, d)
  {
    StopWhenSettled(PassStep(points, d), centers, iters)
  }

  /** With the intended rule the centres keep their shape, and a loop that
      ends before its last allowed pass ends at a fixed point of the pass. */
  lemma IntendedRunStopsAtFixedPoint(points: seq<seq<real>>, centers: seq<seq<real>>, d: nat, iters: int)
    requires |centers| >= 1 && Rectangular(centers, d) && Rectangular(points, d)
    ensures var r := IntendedRun(points, centers, d, iters);
      && CentersOfShape(r.0, |centers|, d)
      && (r.1 < iters ==> Pass(points, r.0, d) == r.0)
  {
    var step := PassStep(points, d);
    var inv := c => CentersOfShape(c, |centers|, d);
    forall y | inv(y)
      ensures inv(step(y))
    {
    }
    SettledStopKeeps(step, inv, centers, iters);
    SettledStopIsFixed(step, centers, iters);
  }

  /** With the intended rule, a fixed point ends the loop after one pass,
      where the source's rule runs every pass (FixedPointRunsAllPasses). */
  lemma IntendedRunAtFixedPoint(points: seq<seq<real>>, centers: seq<seq<real>>, d: nat, iters: int)
    requires |centers| >= 1 && Rectangular(centers, d) && Rectangular(points, d)
    requires iters >= 1 && Pass(points, centers, d) == centers
    ensures IntendedRun(points, centers, d, iters) == (centers, 1)
  {
  }

  /** A centre no point chose keeps its previous value. */
  lemma UnassignedCenterKept(points: seq<seq<real>>, centers: seq<seq<real>>, d: nat, c: nat)
    requires |centers| >= 1 && Rectangular(centers, d) && Rectangular(points, d) && c < |centers|
    requires forall p :: 0 <= p < |points| ==> Nearest(centers, points[p]) != c
    ensures Pass(points, centers, d)[c] == centers[c]
  {
    var labels := Assign(centers, points, d);
    NoneAssigned(labels, c, |labels|);
  }

  lemma {:induction false} NoneAssigned(labels: seq<nat>, c: nat, n: nat)
    requires n <= |labels| && forall p :: 0 <= p < n ==> labels[p] != c
    ensures AssignedCount(labels, c, n) == 0
  {
    if n > 0 {
      NoneAssigned(labels, c, n - 1);
    }
  }

  /** The assignment loop: write each point's nearest centre into the label
      column. */
  method AssignPoints(points: seq<seq<real>>, centers: seq<seq<real>>, d: nat, labels: array<nat>)
    requires |centers| >= 1 && Rectangular(centers, d) && Rectangular(points, d)
    requires labels.Length == |points|
    modifies labels
    ensures labels[..] == Assign(centers, points, d)
  {
    for p := 0 to |points|
      invariant forall q :: 0 <= q < p ==> labels[q] == Assign(centers, points, d)[q]
    {
      labels[p] := Nearest(centers, points[p]);
    }
  }

  /** The update of centre c: zero it at its first assigned point, add up its
      points, count them in t, and divide by t (by 1 when t is 0). */
  method UpdateCenter(points: seq<seq<real>>, labels: seq<nat>, c: nat, current: seq<real>, d: nat)
    returns (next: seq<real>)
    requires Rectangular(points, d) && |points| == |labels| && |current| == d
    ensures next == UpdatedCenter(points, labels, c, current, d)
  {
    var acc := current;
    var t := 0.0;
    var encola := true;
    for p := 0 to |points|
      invariant t == AssignedCount(labels, c, p) as real
      invariant encola <==> AssignedCount(labels, c, p) == 0
      invariant encola ==> acc == current && AssignedSum(points, labels, c, p, d) == Zeros(d)
      invariant !encola ==> acc == AssignedSum(points, labels, c, p, d)
    {
      if labels[p] == c {
        if encola {
          encola := false;
          acc := Zeros(d);
        }
        acc := Add(acc, points[p]);
        t := t + 1.0;
      }
    }
    next := DivideBy(acc, if t != 0.0 then t else 1.0);
    if t == 0.0 {
      assert next == current;
    }
  }

  /** The loop over the centres: update each in turn and clear `fin` as soon
      as one of them comes out unchanged. */
  method UpdateAllCenters(points: seq<seq<real>>, labels: seq<nat>, centers: seq<seq<real>>, d: nat)
    returns (next: seq<seq<real>>, fin: bool)
    requires Rectangular(centers, d) && Rectangular(points, d) && |points| == |labels|
    ensures next == UpdatedCenters(points, labels, centers, d)
    ensures fin <==> AllMoved(centers, next)
  {
    ghost var after := UpdatedCenters(points, labels, centers, d);
    next := centers;
    fin := true;
    for c := 0 to |centers|
      invariant |next| == |centers|
      invariant forall j :: 0 <= j < c ==> next[j] == after[j]
      invariant forall j :: c <= j < |centers| ==> next[j] == centers[j]
      invariant fin <==> forall j :: 0 <= j < c ==> centers[j] != after[j]
    {
      var viejo := next[c];
      var updated := UpdateCenter(points, labels, c, viejo, d);
      next := next[c := updated];
      if fin && viejo == updated {
        fin := false;
      }
    }
  }

  /** One unfolding of Run. */
  lemma RunStep(points: seq<seq<real>>, centers: seq<seq<real>>, d: nat, iters: int)
    requires |centers| >= 1 && Rectangular(centers, d) && Rectangular(points, d) && iters >= 1
    ensures var next := Pass(points, centers, d);
      Run(points, centers, d, iters).0 ==
        if AllMoved(centers, next) then next else Run(points, next, d, iters - 1).0
  {
  }

  /** With no passes left the centres are returned unchanged. */
  lemma RunExhausted(points: seq<seq<real>>, centers: seq<seq<real>>, d: nat, iters: int)
    requires |centers| >= 1 && Rectangular(centers, d) && Rectangular(points, d) && iters <= 0
    ensures Run(points, centers, d, iters).0 == centers
  {
  }

  /** One pass of the Kmedias loop: label every point, move every centre,
      and report in `fin` whether all of them moved. `left` counts the
      passes still allowed, `rest` those allowed after this one. */
  method KmediasPass(matrix: seq<seq<real>>, centers: seq<seq<real>>, d: nat, ghost left: int,
                     labels: array<nat>, ghost target: seq<seq<real>>, ghost lo: seq<real>, ghost hi: seq<real>)
    returns (next: seq<seq<real>>, fin: bool, ghost rest: int)
    requires Rectangular(matrix, d) && |centers| >= 1 && Rectangular(centers, d)
    requires labels.Length == |matrix| && left >= 1
    requires target == Run(matrix, centers, d, left).0
    requires |lo| == d && InBox(matrix, lo, hi) && InBox(centers, lo, hi)
    modifies labels
    ensures |next| == |centers| && Rectangular(next, d)
    ensures InBox(next, lo, hi)
    ensures rest == left - 1
    ensures fin ==> next == target
    ensures !fin ==> target == Run(matrix, next, d, rest).0
  {
    rest := left - 1;
    RunStep(matrix, centers, d, left);
    PassKeepsBox(matrix, centers, lo, hi);
    AssignPoints(matrix, centers, d, labels);
    next, fin := UpdateAllCenters(matrix, labels[..], centers, d);
  }

  /** The pass loop of Kmedias: at most `iters` passes, stopping early once
      every centre moved; the result is the model's Run. */
  method KmediasLoop(matrix: seq<seq<real>>, start: seq<seq<real>>, d: nat, iters: int,
                     labels: array<nat>, ghost lo: seq<real>, ghost hi: seq<real>)
    returns (centers: seq<seq<real>>)
    requires Rectangular(matrix, d) && |start| >= 1 && Rectangular(start, d)
    requires labels.Length == |matrix|
    requires |lo| == d && InBox(matrix, lo, hi) && InBox(start, lo, hi)
    modifies labels
    ensures centers == Run(matrix, start, d, iters).0
    ensures InBox(centers, lo, hi)
  {
    centers := start;
    ghost var target := Run(matrix, start, d, iters).0;
    ghost var left := iters;
    var i := 0;
    var fin := false;
    while i < iters && !fin
      invariant left == iters - i
      invariant |centers| == |start| && Rectangular(centers, d)
      invariant InBox(centers, lo, hi)
      invariant fin ==> centers == target
      invariant !fin ==> target == Run(matrix, centers, d, left).0
      decreases iters - i
    {
      i := i + 1;
      centers, fin, left := KmediasPass(matrix, centers, d, left, labels, target, lo, hi);
    }
    if !fin {
      RunExhausted(matrix, centers, d, left);
    }
  }

  /** The centres Kmedias returns: None where the source raises, otherwise
      the pass loop started from the injected samples scaled into the box. */
  function Centers(matrix: seq<seq<real>>, d: nat, clusters: nat, iteraciones: int,
                   samples: seq<seq<real>>): Option<seq<seq<real>>>
    requires Rectangular(matrix, d) && |samples| == clusters && Rectangular(samples, d)
  {
    if |matrix| == 0 then None
    else
      var start := InitialCenters(samples, ColMin(matrix, d), ColMax(matrix, d));
      if clusters == 0 then (if iteraciones >= 1 then None else Some(start))
      else Some(Run(matrix, start, d, iteraciones).0)
  }

  /** Kmedias returns one centre per cluster, each of d coordinates. */
  lemma CentersShape(matrix: seq<seq<real>>, d: nat, clusters: nat, iteraciones: int, samples: seq<seq<real>>)
    requires Rectangular(matrix, d) && |samples| == clusters && Rectangular(samples, d)
    ensures var r := Centers(matrix, d, clusters, iteraciones, samples);
      r.Some? ==> |r.value| == clusters && Rectangular(r.value, d)
  {
  }

  /** Kmedias fails exactly when there is no point, or when a pass must
      pick the nearest of zero centres. */
  lemma CentersFail(matrix: seq<seq<real>>, d: nat, clusters: nat, iteraciones: int, samples: seq<seq<real>>)
    requires Rectangular(matrix, d) && |samples| == clusters && Rectangular(samples, d)
    ensures Centers(matrix, d, clusters, iteraciones, samples).None? <==>
      |matrix| == 0 || (clusters == 0 && iteraciones >= 1)
  {
  }

  /** Kmedias: None where the source raises (no points to bound the random
      start, or a pass with no centre to choose). */
  method Kmedias(matrix: seq<seq<real>>, d: nat, clusters: nat, iteraciones: int, samples: seq<seq<real>>)
    returns (centros: Option<seq<seq<real>>>)
    requires Rectangular(matrix, d)
    requires |samples| == clusters && Rectangular(samples, d) && UnitSamples(samples)
    ensures centros.None? <==> |matrix| == 0 || (clusters == 0 && iteraciones >= 1)
    ensures centros == Centers(matrix, d, clusters, iteraciones, samples)
    ensures centros.Some? ==>
      |centros.value| == clusters && InBox(centros.value, ColMin(matrix, d), ColMax(matrix, d))
  {
    if |matrix| == 0 {
      return None;
    }
    var dMax := ColMax(matrix, d);
    var dMin := ColMin(matrix, d);
    var centers := InitialCenters(samples, dMin, dMax);
    PointsInOwnBox(matrix, d);
    InitialCentersInBox(samples, dMin, dMax) by {
      forall i | 0 <= i < d
        ensures dMin[i] <= dMax[i]
      {
        assert PointInBox(matrix[0], dMin, dMax);
      }
    }
    if clusters == 0 {
      if iteraciones >= 1 {
        return None;
      }
      return Some(centers);
    }
    var labels := new nat[|matrix|];
    centers := KmediasLoop(matrix, centers, d, iteraciones, labels, dMin, dMax);
    centros := Some(centers);
  }
}
