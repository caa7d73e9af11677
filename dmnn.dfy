/** The forward pass of the dendritic (hyperbox) classifier, ExecuteDMNN.

    The weight vector `pesW` holds (high, low) pairs ordered by
    (class, dendrite, dimension): pair j sits at pesW[2*j], pesW[2*j + 1],
    and dendrite d owns pairs d*E .. d*E + E - 1 for an input of length E.
    `numK[m]` is the number of dendrites of class m, taken in order. */
module Dmnn {
  import opened Numeric

  /** Signed distance of x to the nearer edge of [low, high]:
      positive inside the box, negative outside. */
  function Margin(high: real, low: real, x: real): (r: real)
    ensures r <= high - x && r <= x - low
    ensures r == high - x || r == x - low
  {
    if high - x <= x - low then high - x else x - low
  }

  /** x is inside [low, high] exactly when its margin is non-negative. */
  lemma MarginInsideBox(high: real, low: real, x: real)
    ensures Margin(high, low, x) >= 0.0 <==> low <= x <= high
  {
  }

  /** Dendrite d of an input of length e fits in a weight half-length n. */
  predicate InBlock(d: nat, e: nat, n: nat)
  {
    (d + 1) * e <= n
  }

  lemma MulLe(a: nat, b: nat, c: nat)
    requires a <= b
    ensures a * c <= b * c
  {
  }

  /** Every dendrite index below dn fits in dn blocks of e. */
  lemma BlocksFit(dn: nat, e: nat)
    ensures forall d :: 0 <= d < dn ==> InBlock(d, e, dn * e)
  {
    forall d | 0 <= d < dn
      ensures InBlock(d, e, dn * e)
    {
      MulLe(d + 1, dn, e);
    }
  }

  /** `c` copies of `entrada` laid end to end (np.hstack in a loop). */
  function Repeat(entrada: seq<real>, c: nat): (r: seq<real>)
    ensures |r| == c * |entrada|
  {
    if c == 0 then [] else Repeat(entrada, c - 1) + entrada
  }

  /** Position i of copy d of the tiled input holds input coordinate i. */
  lemma {:induction false} RepeatAt(entrada: seq<real>, c: nat, d: nat, i: nat)
    requires d < c && i < |entrada|
    ensures d * |entrada| + i < |Repeat(entrada, c)|
    ensures Repeat(entrada, c)[d * |entrada| + i] == entrada[i]
  {
    MulLe(d + 1, c, |entrada|);
    if d < c - 1 {
      RepeatAt(entrada, c - 1, d, i);
      MulLe(d + 1, c - 1, |entrada|);
    }
  }

  /** A weight vector, an input length and a dendrite-count vector fit together
      so that the reshape, broadcast and slicing of ExecuteDMNN succeed:
      the tiled input has exactly |pesW| / 2 entries, every class owns at
      least one dendrite and every class's block starts at an existing
      dendrite (the last block may be cut short by the end of the weights). */
  predicate WellShaped(e: nat, wlen: nat, numK: seq<nat>)
  {
    && e >= 1
    && wlen % 2 == 0
    && (wlen / 2) % e == 0
    && |numK| >= 1
    && (forall m :: 0 <= m < |numK| ==> numK[m] >= 1)
    && Offset(numK, |numK| - 1) < wlen / 2 / e
  }

  /** Index of the first dendrite of class m. */
  function Offset(numK: seq<nat>, m: nat): nat
    requires m <= |numK|
  {
    if m == 0 then 0 else Offset(numK, m - 1) + numK[m - 1]
  }

  lemma {:induction false} OffsetMono(numK: seq<nat>, a: nat, b: nat)
    requires a <= b <= |numK|
    ensures Offset(numK, a) <= Offset(numK, b)
  {
    if a < b {
      OffsetMono(numK, a, b - 1);
    }
  }

  /** Number of dendrites the weight vector holds for inputs of length e. */
  function Dendrites(e: nat, wlen: nat): nat
    requires e >= 1
  {
    wlen / 2 / e
  }

  /** Per-dimension margins of input `entrada` against dendrite d. */
  function DendriteMargins(entrada: seq<real>, pesW: seq<real>, d: nat): (r: seq<real>)
    requires |entrada| >= 1 && InBlock(d, |entrada|, |pesW| / 2)
    ensures |r| == |entrada|
  {
    var e := |entrada|;
    seq(e, i requires 0 <= i < e =>
      Margin(pesW[2 * (d * e + i)], pesW[2 * (d * e + i) + 1], entrada[i]))
  }

  /** Activation of dendrite d: its smallest margin (intersection of the box
      constraints over all dimensions). */
  function DendriteScore(entrada: seq<real>, pesW: seq<real>, d: nat): real
    requires |entrada| >= 1 && InBlock(d, |entrada|, |pesW| / 2)
  {
    MinOf(DendriteMargins(entrada, pesW, d))
  }

  /** First and one-past-last dendrite of class m. */
  function BlockEnd(numK: seq<nat>, m: nat, dendrites: nat): nat
    requires m < |numK|
  {
    var hi := Offset(numK, m) + numK[m];
    if hi <= dendrites then hi else dendrites
  }

  lemma BlockOfClass(e: nat, wlen: nat, numK: seq<nat>, m: nat)
    requires WellShaped(e, wlen, numK) && m < |numK|
    ensures Offset(numK, m) < BlockEnd(numK, m, Dendrites(e, wlen)) <= Dendrites(e, wlen)
  {
    OffsetMono(numK, m, |numK| - 1);
  }

  /** The activations of class m's dendrites, in order. */
  function ClassActivations(entrada: seq<real>, pesW: seq<real>, numK: seq<nat>, m: nat): (r: seq<real>)
    requires WellShaped(|entrada|, |pesW|, numK) && m < |numK|
    ensures |r| > 0
  {
    var e := |entrada|;
    var lo := Offset(numK, m);
    BlockOfClass(e, |pesW|, numK, m);
    BlocksFit(Dendrites(e, |pesW|), e);
    assert Dendrites(e, |pesW|) * e == |pesW| / 2;
    var hi := BlockEnd(numK, m, Dendrites(e, |pesW|));
    seq(hi - lo, k requires 0 <= k < hi - lo => DendriteScore(entrada, pesW, lo + k))
  }

  /** Score of class m: the best activation among its dendrites (union of
      its boxes). */
  function ClassScore(entrada: seq<real>, pesW: seq<real>, numK: seq<nat>, m: nat): real
    requires WellShaped(|entrada|, |pesW|, numK) && m < |numK|
  {
    MaxOf(ClassActivations(entrada, pesW, numK, m))
  }

  /** The vector of class scores. */
  function Scores(entrada: seq<real>, pesW: seq<real>, numK: seq<nat>): (z: seq<real>)
    requires WellShaped(|entrada|, |pesW|, numK)
    ensures |z| == |numK|
  {
    seq(|numK|, m requires 0 <= m < |numK| => ClassScore(entrada, pesW, numK, m))
  }

  /** Decision mode: the predicted class. */
  function Decision(entrada: seq<real>, pesW: seq<real>, numK: seq<nat>): (y: nat)
    requires WellShaped(|entrada|, |pesW|, numK)
    ensures y < |numK|
  {
    FirstArgMax(Scores(entrada, pesW, numK))
  }

  /** The decision is the lowest-indexed class of maximal score. */
  lemma DecisionIsFirstBest(entrada: seq<real>, pesW: seq<real>, numK: seq<nat>)
    requires WellShaped(|entrada|, |pesW|, numK)
    ensures Decision(entrada, pesW, numK) < |numK|
    ensures forall m :: 0 <= m < |numK| ==>
      ClassScore(entrada, pesW, numK, m) <= ClassScore(entrada, pesW, numK, Decision(entrada, pesW, numK))
    ensures forall m :: 0 <= m < Decision(entrada, pesW, numK) ==>
      ClassScore(entrada, pesW, numK, m) < ClassScore(entrada, pesW, numK, Decision(entrada, pesW, numK))
  {
    var z := Scores(entrada, pesW, numK);
    assert forall m :: 0 <= m < |numK| ==> z[m] == ClassScore(entrada, pesW, numK, m);
  }

  /** The source's tiling loop: append copies of the input until the tiled
      vector is at least half as long as the weight vector. */
  method TileInput(entrada: seq<real>, wlen: nat) returns (x: seq<real>, ghost copies: nat)
    requires |entrada| >= 1
    ensures copies >= 1 && x == Repeat(entrada, copies)
    ensures wlen <= 2 * |x|
    ensures copies == 1 || 2 * (|x| - |entrada|) < wlen
  {
    x, copies := entrada, 1;
    assert Repeat(entrada, 1) == [] + entrada;
    while 2 * |x| < wlen
      invariant copies >= 1 && x == Repeat(entrada, copies)
      invariant copies == 1 || 2 * (|x| - |entrada|) < wlen
      decreases wlen - 2 * |x|
    {
      x, copies := x + entrada, copies + 1;
    }
  }

  /** On a well-shaped call the tiled input is exactly |pesW| / 2 long: one
      copy of the input per dendrite. */
  lemma TiledLength(e: nat, wlen: nat, numK: seq<nat>, copies: nat)
    requires WellShaped(e, wlen, numK) && copies >= 1
    requires wlen <= 2 * (copies * e)
    requires copies == 1 || 2 * (copies * e - e) < wlen
    ensures copies == Dendrites(e, wlen) && copies * e == wlen / 2
  {
    var dn := Dendrites(e, wlen);
    assert wlen / 2 == dn * e;
    if copies < dn {
      MulLe(copies + 1, dn, e);
    } else if copies > dn {
      MulLe(dn + 1, copies, e);
    }
  }

  /** Margins of dendrite d against the tiled input x (the broadcast
      W[:, 0] - X and X - W[:, 1] followed by the reshape to rows of e). */
  function TiledMargins(x: seq<real>, pesW: seq<real>, e: nat, d: nat): (r: seq<real>)
    requires |pesW| == 2 * |x| && InBlock(d, e, |x|)
    ensures |r| == e
  {
    seq(e, i requires 0 <= i < e =>
      Margin(pesW[2 * (d * e + i)], pesW[2 * (d * e + i) + 1], x[d * e + i]))
  }

  /** Smk: the row minima of the margin matrix, one per dendrite. */
  function Activations(x: seq<real>, pesW: seq<real>, e: nat, dn: nat): (smk: seq<real>)
    requires e >= 1 && |pesW| == 2 * |x| && |x| == dn * e
    ensures |smk| == dn
  {
    BlocksFit(dn, e);
    seq(dn, d requires 0 <= d < dn => MinOf(TiledMargins(x, pesW, e, d)))
  }

  /** On the tiled input every dendrite's activation is its score against
      the original input. */
  lemma ActivationsOfTiled(entrada: seq<real>, pesW: seq<real>, c: nat)
    requires |entrada| >= 1 && |pesW| == 2 * (c * |entrada|)
    ensures forall d :: 0 <= d < c ==>
      InBlock(d, |entrada|, |pesW| / 2) &&
      Activations(Repeat(entrada, c), pesW, |entrada|, c)[d] == DendriteScore(entrada, pesW, d)
  {
    var e := |entrada|;
    var x := Repeat(entrada, c);
    BlocksFit(c, e);
    forall d | 0 <= d < c
      ensures InBlock(d, e, |pesW| / 2)
      ensures Activations(x, pesW, e, c)[d] == DendriteScore(entrada, pesW, d)
    {
      forall i | 0 <= i < e
        ensures x[d * e + i] == entrada[i]
      {
        RepeatAt(entrada, c, d, i);
      }
      assert TiledMargins(x, pesW, e, d) == DendriteMargins(entrada, pesW, d);
    }
  }

  /** smk lists every dendrite's activation against entrada. */
  ghost predicate IsActivations(entrada: seq<real>, pesW: seq<real>, smk: seq<real>)
    requires |entrada| >= 1
  {
    && |smk| == Dendrites(|entrada|, |pesW|)
    && forall d :: 0 <= d < |smk| ==>
         InBlock(d, |entrada|, |pesW| / 2) && smk[d] == DendriteScore(entrada, pesW, d)
  }

  /** Slicing the activations at class m's block gives its activations. */
  lemma ClassBlock(entrada: seq<real>, pesW: seq<real>, numK: seq<nat>, smk: seq<real>, m: nat)
    requires WellShaped(|entrada|, |pesW|, numK) && m < |numK|
    requires IsActivations(entrada, pesW, smk)
    ensures Offset(numK, m) < BlockEnd(numK, m, |smk|) <= |smk|
    ensures smk[Offset(numK, m)..BlockEnd(numK, m, |smk|)] == ClassActivations(entrada, pesW, numK, m)
  {
    BlockOfClass(|entrada|, |pesW|, numK, m);
  }

  /** The first half of ExecuteDMNN: tile the input and compute the
      activation of every dendrite (Smk). */
  method DendriteActivations(entrada: seq<real>, pesW: seq<real>, numK: seq<nat>) returns (smk: seq<real>)
    requires WellShaped(|entrada|, |pesW|, numK)
    ensures IsActivations(entrada, pesW, smk)
  {
    var e := |entrada|;
    var x, copies := TileInput(entrada, |pesW|);
    TiledLength(e, |pesW|, numK, copies);
    smk := Activations(x, pesW, e, |pesW| / 2 / e);
    ActivationsOfTiled(entrada, pesW, copies);
  }

  /** The largest activation in class m's block of dendrites (0 for an
      empty block, which a well-shaped network never has). */
  function BlockMax(numK: seq<nat>, smk: seq<real>, m: nat): real
    requires m < |numK|
  {
    var lo := Offset(numK, m);
    var hi := BlockEnd(numK, m, |smk|);
    if lo < hi then MaxOf(smk[lo..hi]) else 0.0
  }

  /** The block maxima of the first m classes, in class order. */
  function BlockMaxima(numK: seq<nat>, smk: seq<real>, m: nat): (r: seq<real>)
    requires m <= |numK|
    ensures |r| == m
  {
    if m == 0 then [] else BlockMaxima(numK, smk, m - 1) + [BlockMax(numK, smk, m - 1)]
  }

  lemma {:induction false} BlockMaximaAt(numK: seq<nat>, smk: seq<real>, m: nat, q: nat)
    requires q < m <= |numK|
    ensures BlockMaxima(numK, smk, m)[q] == BlockMax(numK, smk, q)
  {
    if q < m - 1 {
      BlockMaximaAt(numK, smk, m - 1, q);
    }
  }

  /** The maximum over class m's block of the activations is its score. */
  lemma BlockMaxIsScore(entrada: seq<real>, pesW: seq<real>, numK: seq<nat>, smk: seq<real>, m: nat)
    requires WellShaped(|entrada|, |pesW|, numK) && m < |numK|
    requires IsActivations(entrada, pesW, smk)
    ensures BlockMax(numK, smk, m) == ClassScore(entrada, pesW, numK, m)
  {
    ClassBlock(entrada, pesW, numK, smk, m);
  }

  /** The block maxima of the activations are the class scores. */
  lemma ScoresFromBlocks(entrada: seq<real>, pesW: seq<real>, numK: seq<nat>, smk: seq<real>)
    requires WellShaped(|entrada|, |pesW|, numK)
    requires IsActivations(entrada, pesW, smk)
    ensures BlockMaxima(numK, smk, |numK|) == Scores(entrada, pesW, numK)
  {
    forall q | 0 <= q < |numK|
      ensures BlockMaxima(numK, smk, |numK|)[q] == Scores(entrada, pesW, numK)[q]
    {
      BlockMaximaAt(numK, smk, |numK|, q);
      BlockMaxIsScore(entrada, pesW, numK, smk, q);
    }
  }

  /** Every class owns at least one of the activations. */
  predicate BlocksNonEmpty(numK: seq<nat>, smk: seq<real>)
  {
    forall m :: 0 <= m < |numK| ==> Offset(numK, m) < BlockEnd(numK, m, |smk|)
  }

  lemma ActivationBlocksNonEmpty(entrada: seq<real>, pesW: seq<real>, numK: seq<nat>, smk: seq<real>)
    requires WellShaped(|entrada|, |pesW|, numK)
    requires IsActivations(entrada, pesW, smk)
    ensures BlocksNonEmpty(numK, smk)
  {
    forall m | 0 <= m < |numK|
      ensures Offset(numK, m) < BlockEnd(numK, m, |smk|)
    {
      ClassBlock(entrada, pesW, numK, smk, m);
    }
  }

  /** The second half of ExecuteDMNN: the array Zm of class scores, filled
      block by block while the block start n advances. */
  method ScoreClasses(numK: seq<nat>, smk: seq<real>) returns (zm: array<real>)
    requires BlocksNonEmpty(numK, smk)
    ensures fresh(zm) && zm[..] == BlockMaxima(numK, smk, |numK|)
  {
    zm := new real[|numK|];
    var n := 0;
    for m := 0 to |numK|
      invariant n == Offset(numK, m)
      invariant zm[..m] == BlockMaxima(numK, smk, m)
    {
      var hi := if n + numK[m] <= |smk| then n + numK[m] else |smk|;
      assert hi == BlockEnd(numK, m, |smk|);
      zm[m] := MaxOf(smk[n..hi]);
      assert zm[..m + 1] == zm[..m] + [zm[m]];
      n := n + numK[m];
    }
    assert zm[..] == zm[..|numK|];
  }

  /** ExecuteDMNN in decision mode: tile the input, compute every dendrite's
      activation, fold each class's block of dendrites into its score and
      return the first best class. */
  method ExecuteDMNN(entrada: seq<real>, pesW: seq<real>, numK: seq<nat>) returns (y: nat)
    requires WellShaped(|entrada|, |pesW|, numK)
    ensures y < |numK| && y == Decision(entrada, pesW, numK)
  {
    var smk := DendriteActivations(entrada, pesW, numK);
    ActivationBlocksNonEmpty(entrada, pesW, numK, smk);
    var zm := ScoreClasses(numK, smk);
    ScoresFromBlocks(entrada, pesW, numK, smk);
    y := FirstArgMax(zm[..]);
  }

  /** Every entry positive. Probability mode feeds exp(scores), which is
      positive; exp itself is not modelled. */
  predicate AllPositive(z: seq<real>)
  {
    forall i :: 0 <= i < |z| ==> z[i] > 0.0
  }

  lemma {:induction false} SumPositive(z: seq<real>)
    requires AllPositive(z) && |z| > 0
    ensures Sum(z) > 0.0
  {
    SumNonNegative(z[..|z| - 1]);
  }

  /** Every entry of z divided by c. */
  function Divide(z: seq<real>, c: real): (r: seq<real>)
    requires c != 0.0
    ensures |r| == |z|
  {
    seq(|z|, i requires 0 <= i < |z| => z[i] / c)
  }

  lemma {:induction false} SumDivide(z: seq<real>, c: real)
    requires c != 0.0
    ensures Sum(Divide(z, c)) == Sum(z) / c
  {
    if z != [] {
      assert Divide(z, c)[..|z| - 1] == Divide(z[..|z| - 1], c);
      SumDivide(z[..|z| - 1], c);
    }
  }

  /** Probability mode as the source writes it: Z / min(sum Z, 1e6). */
  function ProbabilityAsWritten(z: seq<real>): (y: seq<real>)
    requires AllPositive(z)
    ensures |y| == |z| && AllPositive(y)
  {
    if z == [] then []
    else
      SumPositive(z);
      var cap := if Sum(z) <= 1000000.0 then Sum(z) else 1000000.0;
      Divide(z, cap)
  }

  /** The cap breaks the promise that probability mode yields entries in
      [0, 1]: one class with exp(score) = 2e6 gets "probability" 2. */
  lemma ProbabilityAsWrittenExceedsOne()
    ensures AllPositive([2000000.0])
    ensures ProbabilityAsWritten([2000000.0]) == [2.0]
  {
    assert Sum([2000000.0]) == 2000000.0 by {
      assert [2000000.0][..0] == [];
    }
  }

  /** Probability mode normalised by the full sum. */
  function Probability(z: seq<real>): (y: seq<real>)
    requires AllPositive(z)
    ensures |y| == |z|
  {
    if z == [] then [] else SumPositive(z); Divide(z, Sum(z))
  }

  lemma DivAtMostOne(a: real, b: real)
    requires 0.0 < b && a <= b
    ensures a / b <= 1.0
  {
    assert a / b * b == a;
  }

  /** The corrected normalisation is a probability vector. */
  lemma ProbabilityIsDistribution(z: seq<real>)
    requires AllPositive(z) && |z| > 0
    ensures forall i :: 0 <= i < |z| ==> 0.0 < Probability(z)[i] <= 1.0
    ensures Sum(Probability(z)) == 1.0
  {
    SumPositive(z);
    var total := Sum(z);
    assert Probability(z) == Divide(z, total);
    SumDivide(z, total);
    assert total / total == 1.0;
    forall i | 0 <= i < |z|
      ensures Probability(z)[i] <= 1.0
    {
      SumBoundsTerm(z, i);
      assert Probability(z)[i] == z[i] / total;
      DivAtMostOne(z[i], total);
    }
  }

  /** Below the cap the source's normalisation is the corrected one. */
  lemma ProbabilityAsWrittenBelowCap(z: seq<real>)
    requires AllPositive(z) && Sum(z) <= 1000000.0
    ensures ProbabilityAsWritten(z) == Probability(z)
  {
  }

  /** The weights of two classes with one square box each, [-1, 1]^2 for
      class 0 and [3, 5]^2 for class 1. */
  function TwoBoxWeights(): seq<real>
  {
    [1.0, -1.0, 1.0, -1.0, 5.0, 3.0, 5.0, 3.0]
  }

  lemma TwoBoxScores(x: real)
    ensures WellShaped(2, 8, [1, 1])
    ensures ClassScore([x, x], TwoBoxWeights(), [1, 1], 0) == Margin(1.0, -1.0, x)
    ensures ClassScore([x, x], TwoBoxWeights(), [1, 1], 1) == Margin(5.0, 3.0, x)
  {
    var w := TwoBoxWeights();
    var numK: seq<nat> := [1, 1];
    assert Offset(numK, 1) == 1;
    assert InBlock(0, 2, 4) && InBlock(1, 2, 4);
    assert DendriteMargins([x, x], w, 0) == [Margin(1.0, -1.0, x), Margin(1.0, -1.0, x)];
    assert DendriteMargins([x, x], w, 1) == [Margin(5.0, 3.0, x), Margin(5.0, 3.0, x)];
    assert ClassActivations([x, x], w, numK, 0) == [DendriteScore([x, x], w, 0)];
    assert ClassActivations([x, x], w, numK, 1) == [DendriteScore([x, x], w, 1)];
  }

  /** With those boxes the origin falls to class 0 and (4, 4) to class 1. */
  lemma TwoBoxExample()
    ensures WellShaped(2, 8, [1, 1])
    ensures Decision([0.0, 0.0], TwoBoxWeights(), [1, 1]) == 0
    ensures Decision([4.0, 4.0], TwoBoxWeights(), [1, 1]) == 1
  {
    TwoBoxScores(0.0);
    TwoBoxScores(4.0);
    DecisionIsFirstBest([0.0, 0.0], TwoBoxWeights(), [1, 1]);
    DecisionIsFirstBest([4.0, 4.0], TwoBoxWeights(), [1, 1]);
  }
}
