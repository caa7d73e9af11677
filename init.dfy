/** Initialisation of a fresh network, inicializaDMNN: one group of
    `clusters` hyperboxes per class, each box centred on a k-means centre
    of that class's patterns, with a half-width per dimension taken from
    the range of ALL patterns (not of the class). */
module Initializer {
  import opened Numeric
  import opened Compaction
  import opened KMeans
  import opened Dmnn

  /** One row of `patrones`: the features, then the class label. */
  datatype Pattern = Pattern(features: seq<real>, cls: nat)

  /** Every pattern has d features. */
  predicate Uniform(ps: seq<Pattern>, d: nat)
  {
    forall p :: 0 <= p < |ps| ==> |ps[p].features| == d
  }

  /** patrones[:, :-1] */
  function Features(ps: seq<Pattern>): (rows: seq<seq<real>>)
    ensures |rows| == |ps|
    ensures forall p :: 0 <= p < |ps| ==> rows[p] == ps[p].features
  {
    seq(|ps|, p requires 0 <= p < |ps| => ps[p].features)
  }

  /** patrones[patrones[:, -1] == m, :-1]: the features of class m, in order.
      It is empty exactly when no pattern carries label m. */
  function ClassFeatures(ps: seq<Pattern>, m: nat): (rows: seq<seq<real>>)
    ensures |rows| <= |ps|
    ensures rows == [] <==> forall p :: 0 <= p < |ps| ==> ps[p].cls != m
    ensures forall d: nat :: Uniform(ps, d) ==> Rectangular(rows, d)
  {
    if ps == [] then []
    else
      var last := ps[|ps| - 1];
      var front := ClassFeatures(ps[..|ps| - 1], m);
      assert forall d: nat :: Uniform(ps, d) ==> Uniform(ps[..|ps| - 1], d);
      assert forall p :: 0 <= p < |ps| - 1 ==> ps[p] == ps[..|ps| - 1][p];
      front + (if last.cls == m then [last.features] else [])
  }

  /** Every row of class m is the feature row of some pattern. */
  lemma {:induction false} ClassFeaturesFromPatterns(ps: seq<Pattern>, m: nat)
    ensures forall r :: 0 <= r < |ClassFeatures(ps, m)| ==> ClassFeatures(ps, m)[r] in Features(ps)
  {
    if ps != [] {
      var front := ps[..|ps| - 1];
      ClassFeaturesFromPatterns(front, m);
      forall r | 0 <= r < |ClassFeatures(front, m)|
        ensures ClassFeatures(front, m)[r] in Features(ps)
      {
        var p :| 0 <= p < |front| && Features(front)[p] == ClassFeatures(front, m)[r];
        assert Features(ps)[p] == front[p].features;
      }
      assert Features(ps)[|ps| - 1] == ps[|ps| - 1].features;
    }
  }

  /** int(patrones[:, -1].max()): the largest label present. */
  function MaxLabel(ps: seq<Pattern>): (top: nat)
    requires |ps| > 0
    ensures forall p :: 0 <= p < |ps| ==> ps[p].cls <= top
    ensures exists p :: 0 <= p < |ps| && ps[p].cls == top
  {
    if |ps| == 1 then ps[0].cls
    else
      var front := MaxLabel(ps[..|ps| - 1]);
      assert forall p :: 0 <= p < |ps| - 1 ==> ps[p] == ps[..|ps| - 1][p];
      if ps[|ps| - 1].cls > front then ps[|ps| - 1].cls else front
  }

  /** dim = (dMax - dMin) * 0.5 * (dimCajas / 100): the box half-widths. */
  function HalfWidth(lo: seq<real>, hi: seq<real>, dimCajas: real): (dim: seq<real>)
    requires |lo| == |hi|
    ensures |dim| == |lo|
  {
    seq(|lo|, i requires 0 <= i < |lo| => (hi[i] - lo[i]) * 0.5 * (dimCajas / 100.0))
  }

  /** cen + dim (up) or cen - dim, broadcast over the rows of cen. */
  function Shifted(cen: seq<seq<real>>, dim: seq<real>, up: bool): (rows: seq<seq<real>>)
    requires Rectangular(cen, |dim|)
    ensures |rows| == |cen| && Rectangular(rows, |dim|)
  {
    seq(|cen|, k requires 0 <= k < |cen| =>
      seq(|dim|, i requires 0 <= i < |dim| => if up then cen[k][i] + dim[i] else cen[k][i] - dim[i]))
  }

  /** The parts laid end to end: .ravel() of a matrix, or the centres of
      all classes stacked class after class. */
  function Flatten<T>(parts: seq<seq<T>>, n: nat): (flat: seq<T>)
    requires forall r :: 0 <= r < |parts| ==> |parts[r]| == n
    ensures |flat| == |parts| * n
  {
    if parts == [] then [] else Flatten(parts[..|parts| - 1], n) + parts[|parts| - 1]
  }

  /** Entry i of part k sits at k * n + i of the flattened sequence. */
  lemma {:induction false} FlattenAt<T>(parts: seq<seq<T>>, n: nat, k: nat, i: nat)
    requires forall r :: 0 <= r < |parts| ==> |parts[r]| == n
    requires k < |parts| && i < n
    ensures k * n + i < |Flatten(parts, n)| && Flatten(parts, n)[k * n + i] == parts[k][i]
  {
    var front := parts[..|parts| - 1];
    if k < |parts| - 1 {
      FlattenAt(front, n, k, i);
    } else {
      assert |Flatten(front, n)| == k * n;
    }
  }

  lemma {:induction false} FlattenAppend<T>(a: seq<seq<T>>, b: seq<seq<T>>, n: nat)
    requires forall r :: 0 <= r < |a| ==> |a[r]| == n
    requires forall r :: 0 <= r < |b| ==> |b[r]| == n
    ensures Flatten(a + b, n) == Flatten(a, n) + Flatten(b, n)
  {
    if b == [] {
      assert a + b == a;
    } else {
      var front := b[..|b| - 1];
      assert (a + b)[..|a + b| - 1] == a + front;
      FlattenAppend(a, front, n);
    }
  }

  /** np.dstack((vH, vL)).ravel(): the two vectors interleaved entry by entry. */
  function Interleave(vH: seq<real>, vL: seq<real>): (w: seq<real>)
    requires |vH| == |vL|
    ensures |w| == 2 * |vH|
    ensures forall j :: 0 <= j < |vH| ==> w[2 * j] == vH[j] && w[2 * j + 1] == vL[j]
  {
    if vH == [] then []
    else Interleave(vH[..|vH| - 1], vL[..|vL| - 1]) + [vH[|vH| - 1], vL[|vL| - 1]]
  }

  lemma {:induction false} InterleaveAppend(h1: seq<real>, l1: seq<real>, h2: seq<real>, l2: seq<real>)
    requires |h1| == |l1| && |h2| == |l2|
    ensures Interleave(h1 + h2, l1 + l2) == Interleave(h1, l1) + Interleave(h2, l2)
  {
    if h2 == [] {
      assert h1 + h2 == h1 && l1 + l2 == l1;
    } else {
      var hf := h2[..|h2| - 1];
      var lf := l2[..|l2| - 1];
      assert (h1 + h2)[..|h1 + h2| - 1] == h1 + hf;
      assert (l1 + l2)[..|l1 + l2| - 1] == l1 + lf;
      InterleaveAppend(h1, l1, hf, lf);
    }
  }

  /** The weights of boxes centred at the rows of cen:
      (cen + dim, cen - dim) per centre and dimension, in that order. */
  function BoxWeights(cen: seq<seq<real>>, dim: seq<real>): (w: seq<real>)
    requires Rectangular(cen, |dim|)
    ensures |w| == 2 * (|cen| * |dim|)
  {
    Interleave(Flatten(Shifted(cen, dim, true), |dim|), Flatten(Shifted(cen, dim, false), |dim|))
  }

  /** Pair (k, i) of the weights is (cen[k][i] + dim[i], cen[k][i] - dim[i]). */
  lemma BoxWeightsAt(cen: seq<seq<real>>, dim: seq<real>, d: nat, k: nat, i: nat)
    requires d == |dim| && Rectangular(cen, d) && k < |cen| && i < d
    ensures 2 * (k * d + i) + 1 < |BoxWeights(cen, dim)|
    ensures BoxWeights(cen, dim)[2 * (k * d + i)] == cen[k][i] + dim[i]
    ensures BoxWeights(cen, dim)[2 * (k * d + i) + 1] == cen[k][i] - dim[i]
  {
    FlattenAt(Shifted(cen, dim, true), d, k, i);
    FlattenAt(Shifted(cen, dim, false), d, k, i);
  }


  /** Appending a class's boxes to the weights of the classes before it
      (the np.concatenate of the source) is the weights of all their
      centres together. */
  lemma BoxWeightsAppend(a: seq<seq<real>>, b: seq<seq<real>>, dim: seq<real>)
    requires Rectangular(a, |dim|) && Rectangular(b, |dim|)
    ensures Rectangular(a + b, |dim|)
    ensures BoxWeights(a + b, dim) == BoxWeights(a, dim) + BoxWeights(b, dim)
  {
    var d := |dim|;
    assert Shifted(a + b, dim, true) == Shifted(a, dim, true) + Shifted(b, dim, true);
    assert Shifted(a + b, dim, false) == Shifted(a, dim, false) + Shifted(b, dim, false);
    FlattenAppend(Shifted(a, dim, true), Shifted(b, dim, true), d);
    FlattenAppend(Shifted(a, dim, false), Shifted(b, dim, false), d);
    InterleaveAppend(Flatten(Shifted(a, dim, true), d), Flatten(Shifted(a, dim, false), d),
                     Flatten(Shifted(b, dim, true), d), Flatten(Shifted(b, dim, false), d));
  }

  /** Every class has `clusters` centres of d coordinates. */
  predicate CentreShape(cens: seq<seq<seq<real>>>, clusters: nat, d: nat)
  {
    forall m :: 0 <= m < |cens| ==> |cens[m]| == clusters && Rectangular(cens[m], d)
  }

  /** Centre k of class m is dendrite m * clusters + k of the stacked
      centres, which is how ExecuteDMNN numbers the dendrites. */
  lemma StackedRectangular(cens: seq<seq<seq<real>>>, clusters: nat, d: nat)
    requires CentreShape(cens, clusters, d)
    ensures Rectangular(Flatten(cens, clusters), d)
  {
    forall q | 0 <= q < |Flatten(cens, clusters)|
      ensures |Flatten(cens, clusters)[q]| == d
    {
      StackedRow(cens, clusters, d, q);
    }
  }

  lemma StackedCentre(cens: seq<seq<seq<real>>>, clusters: nat, d: nat, m: nat, k: nat)
    requires CentreShape(cens, clusters, d) && m < |cens| && k < clusters
    ensures Rectangular(Flatten(cens, clusters), d)
    ensures m * clusters + k < |Flatten(cens, clusters)|
    ensures Flatten(cens, clusters)[m * clusters + k] == cens[m][k]
  {
    FlattenAt(cens, clusters, m, k);
    StackedRectangular(cens, clusters, d);
  }

  lemma {:induction false} StackedRow(cens: seq<seq<seq<real>>>, clusters: nat, d: nat, q: nat)
    requires CentreShape(cens, clusters, d) && q < |Flatten(cens, clusters)|
    ensures |Flatten(cens, clusters)[q]| == d
  {
    var last := |cens| - 1;
    var front := cens[..last];
    assert CentreShape(front, clusters, d) by {
      forall r | 0 <= r < last ensures front[r] == cens[r] { }
    }
    if q < |Flatten(front, clusters)| {
      StackedRow(front, clusters, d, q);
    }
  }

  /** One more class: its centres stacked after the others, its boxes
      appended after theirs. */
  lemma AppendClass(cens: seq<seq<seq<real>>>, cen: seq<seq<real>>, clusters: nat, dim: seq<real>)
    requires CentreShape(cens, clusters, |dim|) && Rectangular(Flatten(cens, clusters), |dim|)
    requires |cen| == clusters && Rectangular(cen, |dim|)
    ensures CentreShape(cens + [cen], clusters, |dim|)
    ensures Rectangular(Flatten(cens + [cen], clusters), |dim|)
    ensures BoxWeights(Flatten(cens + [cen], clusters), dim) ==
      BoxWeights(Flatten(cens, clusters), dim) + BoxWeights(cen, dim)
  {
    var next := cens + [cen];
    assert forall q :: 0 <= q < |next| ==> next[q] == if q < |cens| then cens[q] else cen;
    FlattenAppend(cens, [cen], clusters);
    assert Flatten([cen], clusters) == cen;
    BoxWeightsAppend(Flatten(cens, clusters), cen, dim);
  }

  /** The centres of the first |cens| classes are those Kmedias returns for
      them, and lie in the box of that class's patterns. */
  ghost predicate Clustered(ps: seq<Pattern>, d: nat, clusters: nat, iters: int,
                            draw: nat -> seq<seq<real>>, cens: seq<seq<seq<real>>>)
    requires Uniform(ps, d)
    requires forall m: nat :: |draw(m)| == clusters && Rectangular(draw(m), d)
  {
    && (forall q :: 0 <= q < |cens| ==>
          Centers(ClassFeatures(ps, q), d, clusters, iters, draw(q)) == Some(cens[q]))
    && InClassBoxes(ps, d, cens)
  }

  /** Every class in cens has patterns, and its centres lie in the box of
      that class's patterns. */
  ghost predicate InClassBoxes(ps: seq<Pattern>, d: nat, cens: seq<seq<seq<real>>>)
    requires Uniform(ps, d)
  {
    forall q :: 0 <= q < |cens| ==>
      && ClassFeatures(ps, q) != []
      && InBox(cens[q], ColMin(ClassFeatures(ps, q), d), ColMax(ClassFeatures(ps, q), d))
  }

  lemma ClusteredStep(ps: seq<Pattern>, d: nat, clusters: nat, iters: int,
                      draw: nat -> seq<seq<real>>, cens: seq<seq<seq<real>>>, cen: seq<seq<real>>)
    requires Uniform(ps, d)
    requires forall m: nat :: |draw(m)| == clusters && Rectangular(draw(m), d)
    requires Clustered(ps, d, clusters, iters, draw, cens)
    requires ClassFeatures(ps, |cens|) != []
    requires Centers(ClassFeatures(ps, |cens|), d, clusters, iters, draw(|cens|)) == Some(cen)
    requires InBox(cen, ColMin(ClassFeatures(ps, |cens|), d), ColMax(ClassFeatures(ps, |cens|), d))
    ensures Clustered(ps, d, clusters, iters, draw, cens + [cen])
  {
    var next := cens + [cen];
    assert forall q :: 0 <= q < |cens| ==> next[q] == cens[q];
    assert next[|cens|] == cen;
    assert InClassBoxes(ps, d, next);
  }

  /** One turn of the class loop: Kmedias on class m, the class after
      those in cens, then its boxes appended to the weights. */
  method AddClass(ps: seq<Pattern>, d: nat, clusters: nat, iters: int, draw: nat -> seq<seq<real>>,
                  dim: seq<real>, pesW: seq<real>, m: nat, ghost cens: seq<seq<seq<real>>>)
    returns (cen: Option<seq<seq<real>>>, next: seq<real>)
    requires Uniform(ps, d) && |dim| == d
    requires forall m: nat :: |draw(m)| == clusters && Rectangular(draw(m), d) && UnitSamples(draw(m))
    requires m == |cens| && Clustered(ps, d, clusters, iters, draw, cens)
    requires CentreShape(cens, clusters, d) && Rectangular(Flatten(cens, clusters), d)
    requires pesW == BoxWeights(Flatten(cens, clusters), dim)
    ensures cen.None? <==> ClassFeatures(ps, m) == [] || (clusters == 0 && iters >= 1)
    ensures cen.Some? ==>
      && CentreShape(cens + [cen.value], clusters, d)
      && Clustered(ps, d, clusters, iters, draw, cens + [cen.value])
      && Rectangular(Flatten(cens + [cen.value], clusters), d)
      && next == BoxWeights(Flatten(cens + [cen.value], clusters), dim)
  {
    cen := Kmedias(ClassFeatures(ps, m), d, clusters, iters, draw(m));
    next := pesW;
    if cen.Some? {
      ClusteredStep(ps, d, clusters, iters, draw, cens, cen.value);
      AppendClass(cens, cen.value, clusters, dim);
      next := pesW + BoxWeights(cen.value, dim);
    }
  }

  /** inicializaDMNN. `draw(m)` stands for the uniform samples
      np.random.random_sample draws for class m's call of Kmedias. The
      result is None where the source raises: no pattern at all, a class
      below the largest label with no pattern, or zero clusters with at
      least one k-means pass. The ghost `cens` are the centres of every
      class, as Kmedias returns them. */
  method InicializaDMNN(ps: seq<Pattern>, d: nat, clusters: nat, iteraciones: int, dimCajas: real,
                        draw: nat -> seq<seq<real>>)
    returns (net: Option<(seq<real>, seq<nat>)>, ghost cens: seq<seq<seq<real>>>)
    requires Uniform(ps, d)
    requires forall m: nat :: |draw(m)| == clusters && Rectangular(draw(m), d) && UnitSamples(draw(m))
    ensures net.None? <==>
      || |ps| == 0
      || (clusters == 0 && iteraciones >= 1)
      || exists m :: 0 <= m <= MaxLabel(ps) && ClassFeatures(ps, m) == []
    ensures net.Some? ==>
      && |ps| > 0
      && |net.value.1| == MaxLabel(ps) + 1
      && (forall m :: 0 <= m < |net.value.1| ==> net.value.1[m] == clusters)
      && |cens| == |net.value.1|
      && CentreShape(cens, clusters, d)
      && Clustered(ps, d, clusters, iteraciones, draw, cens)
      && Rectangular(Flatten(cens, clusters), d)
      && net.value.0 == BoxWeights(Flatten(cens, clusters),
                                   HalfWidth(ColMin(Features(ps), d), ColMax(Features(ps), d), dimCajas))
  {
    if |ps| == 0 {
      return None, [];
    }
    var all := Features(ps);
    var dMax := ColMax(all, d);
    var dMin := ColMin(all, d);
    var dim := HalfWidth(dMin, dMax, dimCajas);
    var count := MaxLabel(ps) + 1;
    var numK: seq<nat> := seq(count, _ => clusters);
    assert |numK| == count && forall m :: 0 <= m < count ==> numK[m] == clusters;
    var pesW: seq<real> := [];
    cens := [];
    var m := 0;
    while m < count
      invariant m <= count && |cens| == m
      invariant CentreShape(cens, clusters, d)
      invariant m >= 1 ==> !(clusters == 0 && iteraciones >= 1)
      invariant Clustered(ps, d, clusters, iteraciones, draw, cens)
      invariant Rectangular(Flatten(cens, clusters), d)
      invariant pesW == BoxWeights(Flatten(cens, clusters), dim)
    {
      var cen, next := AddClass(ps, d, clusters, iteraciones, draw, dim, pesW, m, cens);
      if cen.None? {
        assert m <= MaxLabel(ps);
        return None, cens;
      }
      pesW := next;
      cens := cens + [cen.value];
      m := m + 1;
    }
    assert forall q :: 0 <= q <= MaxLabel(ps) ==> ClassFeatures(ps, q) != [];
    return Some((pesW, numK)), cens;
  }

  /** The box of one class's patterns lies inside the box of all patterns. */
  lemma ClassBoxInside(ps: seq<Pattern>, d: nat, m: nat, i: nat)
    requires Uniform(ps, d) && ClassFeatures(ps, m) != [] && i < d
    ensures ColMin(Features(ps), d)[i] <= ColMin(ClassFeatures(ps, m), d)[i]
    ensures ColMax(ClassFeatures(ps, m), d)[i] <= ColMax(Features(ps), d)[i]
  {
    var all := Features(ps);
    var rows := ClassFeatures(ps, m);
    ClassFeaturesFromPatterns(ps, m);
    var low := MinOf(Column(rows, d, i));
    var r :| 0 <= r < |rows| && Column(rows, d, i)[r] == low;
    var p :| 0 <= p < |all| && all[p] == rows[r];
    assert Column(all, d, i)[p] == low;
    var high := MaxOf(Column(rows, d, i));
    var r' :| 0 <= r' < |rows| && Column(rows, d, i)[r'] == high;
    var p' :| 0 <= p' < |all| && all[p'] == rows[r'];
    assert Column(all, d, i)[p'] == high;
  }

  /** Centres inside their class boxes are inside the box of all patterns. */
  lemma CentresInGlobalBox(ps: seq<Pattern>, d: nat, clusters: nat, cens: seq<seq<seq<real>>>)
    requires Uniform(ps, d) && |ps| > 0
    requires CentreShape(cens, clusters, d) && InClassBoxes(ps, d, cens)
    ensures forall m :: 0 <= m < |cens| ==> InBox(cens[m], ColMin(Features(ps), d), ColMax(Features(ps), d))
  {
    var lo := ColMin(Features(ps), d);
    var hi := ColMax(Features(ps), d);
    forall m | 0 <= m < |cens|
      ensures InBox(cens[m], lo, hi)
    {
      var rows := ClassFeatures(ps, m);
      forall i | 0 <= i < d
        ensures lo[i] <= ColMin(rows, d)[i] && ColMax(rows, d)[i] <= hi[i]
      {
        ClassBoxInside(ps, d, m, i);
      }
      BoxWithin(cens[m], ColMin(rows, d), ColMax(rows, d), lo, hi);
    }
  }

  /** Rows inside a box are inside every box that contains it. */
  lemma BoxWithin(rows: seq<seq<real>>, lo: seq<real>, hi: seq<real>, lo': seq<real>, hi': seq<real>)
    requires InBox(rows, lo, hi) && |lo'| == |hi'| == |lo|
    requires forall i :: 0 <= i < |lo| ==> lo'[i] <= lo[i] && hi[i] <= hi'[i]
    ensures InBox(rows, lo', hi')
  {
    forall r | 0 <= r < |rows|
      ensures PointInBox(rows[r], lo', hi')
    {
      assert PointInBox(rows[r], lo, hi);
    }
  }

  /** Stacking classes whose centres all lie in a box keeps them in it. */
  lemma {:induction false} StackedInBox(cens: seq<seq<seq<real>>>, clusters: nat, lo: seq<real>, hi: seq<real>)
    requires |lo| == |hi| && CentreShape(cens, clusters, |lo|)
    requires forall m :: 0 <= m < |cens| ==> InBox(cens[m], lo, hi)
    ensures InBox(Flatten(cens, clusters), lo, hi)
  {
    if cens != [] {
      var last := |cens| - 1;
      var front := cens[..last];
      assert forall q :: 0 <= q < last ==> front[q] == cens[q];
      StackedInBox(front, clusters, lo, hi);
      var flat := Flatten(cens, clusters);
      var before := Flatten(front, clusters);
      assert flat == before + cens[last];
      forall r | 0 <= r < |flat|
        ensures PointInBox(flat[r], lo, hi)
      {
        if r < |before| {
          assert flat[r] == before[r];
        } else {
          assert flat[r] == cens[last][r - |before|];
        }
      }
    }
  }

  /** Box q of weights built from centres `flat` is centred on flat[q] and
      has width (hi[i] - lo[i]) * dimCajas / 100 in dimension i, so high >=
      low when the range and dimCajas are non-negative. */
  lemma BoxPair(flat: seq<seq<real>>, lo: seq<real>, hi: seq<real>, dimCajas: real, d: nat, q: nat, i: nat)
    requires d == |lo| == |hi| && Rectangular(flat, d) && q < |flat| && i < d
    ensures var w := BoxWeights(flat, HalfWidth(lo, hi, dimCajas));
      var j: int := q * d + i;
      && 2 * j + 1 < |w|
      && (w[2 * j] + w[2 * j + 1]) / 2.0 == flat[q][i]
      && w[2 * j] - w[2 * j + 1] == (hi[i] - lo[i]) * (dimCajas / 100.0)
      && (lo[i] <= hi[i] && dimCajas >= 0.0 ==> w[2 * j + 1] <= w[2 * j])
  {
    var dim := HalfWidth(lo, hi, dimCajas);
    BoxWeightsAt(flat, dim, d, q, i);
    FullWidth(lo, hi, dimCajas, i);
  }

  /** The q-th stacked centre, the centre of box q of the initial net,
      lies within the range [dMin, dMax] of all patterns (StackedCentre:
      centre k of class m is box m * clusters + k). */
  lemma StackedCentreInRange(ps: seq<Pattern>, d: nat, clusters: nat, cens: seq<seq<seq<real>>>, q: nat, i: nat)
    requires Uniform(ps, d) && |ps| > 0
    requires CentreShape(cens, clusters, d) && InClassBoxes(ps, d, cens)
    requires Rectangular(Flatten(cens, clusters), d)
    requires q < |Flatten(cens, clusters)| && i < d
    ensures ColMin(Features(ps), d)[i] <= Flatten(cens, clusters)[q][i] <= ColMax(Features(ps), d)[i]
  {
    var lo := ColMin(Features(ps), d);
    var hi := ColMax(Features(ps), d);
    CentresInGlobalBox(ps, d, clusters, cens);
    StackedInBox(cens, clusters, lo, hi);
    assert PointInBox(Flatten(cens, clusters)[q], lo, hi);
  }

  /** Twice the half-width is (hi[i] - lo[i]) * dimCajas / 100, which is
      non-negative when the range and dimCajas are. */
  lemma FullWidth(lo: seq<real>, hi: seq<real>, dimCajas: real, i: nat)
    requires |lo| == |hi| && i < |lo|
    ensures 2.0 * HalfWidth(lo, hi, dimCajas)[i] == (hi[i] - lo[i]) * (dimCajas / 100.0)
    ensures lo[i] <= hi[i] && dimCajas >= 0.0 ==> HalfWidth(lo, hi, dimCajas)[i] >= 0.0
  {
    if lo[i] <= hi[i] && dimCajas >= 0.0 {
      MulNonNegative(hi[i] - lo[i], dimCajas / 100.0);
    }
  }

  lemma MulDivExact(x: nat, d: nat)
    requires d >= 1
    ensures (x * d) % d == 0 && (x * d) / d == x
  {
    var q := (x * d) / d;
    var r := (x * d) % d;
    assert x * d == q * d + r;
    if q < x {
      MulLe(q + 1, x, d);
    } else if q > x {
      MulLe(x + 1, q, d);
    }
  }

  /** The initial net fits ExecuteDMNN for inputs of d features: every
      class owns `clusters` consecutive dendrites, class m starting at
      dendrite m * clusters. */
  lemma InitialNetShape(d: nat, clusters: nat, numK: seq<nat>, wlen: nat)
    requires d >= 1 && clusters >= 1 && |numK| >= 1
    requires forall m :: 0 <= m < |numK| ==> numK[m] == clusters
    requires wlen == 2 * ((|numK| * clusters) * d)
    ensures WellShaped(d, wlen, numK)
    ensures Dendrites(d, wlen) == |numK| * clusters
    ensures forall m :: 0 <= m <= |numK| ==> Offset(numK, m) == m * clusters
  {
    MulDivExact(|numK| * clusters, d);
    forall m | 0 <= m <= |numK|
      ensures Offset(numK, m) == m * clusters
    {
      UniformOffset(numK, clusters, m);
    }
    UniformOffset(numK, clusters, |numK| - 1);
  }

  lemma {:induction false} UniformOffset(numK: seq<nat>, clusters: nat, m: nat)
    requires m <= |numK|
    requires forall q :: 0 <= q < |numK| ==> numK[q] == clusters
    ensures Offset(numK, m) == m * clusters
  {
    if m > 0 {
      UniformOffset(numK, clusters, m - 1);
    }
  }
}
