// Evaluation of a trained DMNN: the confusion matrix HiloAccuracyNet.run
// fills in place, and the per-class precision, sensitivity and overall
// accuracy finHiloAccuracyNet derives from it.

module Evaluator {
  import opened Dmnn
  import opened Initializer
  import opened Trainer

  /** Sum of a row of counts. */
  function Total(s: seq<nat>): nat
  {
    if |s| == 0 then 0 else Total(s[..|s| - 1]) + s[|s| - 1]
  }

  lemma {:induction false} TotalAppend(a: seq<nat>, b: seq<nat>)
    ensures Total(a + b) == Total(a) + Total(b)
  {
    if |b| > 0 {
      TotalAppend(a, b[..|b| - 1]);
      assert (a + b)[..|a + b| - 1] == a + b[..|b| - 1];
    } else {
      assert a + b == a;
    }
  }

  /** One count never exceeds the sum it belongs to. */
  lemma {:induction false} EntryBelowTotal(s: seq<nat>, k: nat)
    requires k < |s|
    ensures s[k] <= Total(s)
  {
    if k < |s| - 1 {
      EntryBelowTotal(s[..|s| - 1], k);
    }
  }

  /** Raising one count by one raises the sum by one. */
  lemma {:induction false} TotalBump(s: seq<nat>, k: nat)
    requires k < |s|
    ensures Total(s[k := s[k] + 1]) == Total(s) + 1
  {
    var t := s[k := s[k] + 1];
    assert s == s[..k] + [s[k]] + s[k + 1..];
    assert t == s[..k] + [s[k] + 1] + s[k + 1..];
    TotalAppend(s[..k] + [s[k]], s[k + 1..]);
    TotalAppend(s[..k], [s[k]]);
    TotalAppend(s[..k] + [s[k] + 1], s[k + 1..]);
    TotalAppend(s[..k], [s[k] + 1]);
    assert Total([s[k]]) == s[k] by { assert [s[k]][..0] == []; }
    assert Total([s[k] + 1]) == s[k] + 1 by { assert [s[k] + 1][..0] == []; }
  }

  /** A k by k matrix of counts, row = true class, column = prediction. */
  predicate Square(mat: seq<seq<nat>>, k: nat)
  {
    |mat| == k && forall i :: 0 <= i < k ==> |mat[i]| == k
  }

  /** np.zeros((k, k), dtype=int). */
  function Zeros(k: nat): (mat: seq<seq<nat>>)
    ensures Square(mat, k)
    ensures forall i, j :: 0 <= i < k && 0 <= j < k ==> mat[i][j] == 0
  {
    seq(k, _ => seq(k, _ => 0))
  }

  /** matrix[a, b] += 1 on a value. */
  function Bump(mat: seq<seq<nat>>, a: nat, b: nat): (r: seq<seq<nat>>)
    requires Square(mat, |mat|) && a < |mat| && b < |mat|
    ensures Square(r, |mat|)
  {
    mat[a := mat[a][b := mat[a][b] + 1]]
  }

  /** An increment touches cell [a][b] only, and raises it by one. */
  lemma BumpAt(mat: seq<seq<nat>>, a: nat, b: nat)
    requires Square(mat, |mat|) && a < |mat| && b < |mat|
    ensures forall i, j :: 0 <= i < |mat| && 0 <= j < |mat| ==>
      Bump(mat, a, b)[i][j] == mat[i][j] + (if i == a && j == b then 1 else 0)
  {
  }

  /** The confusion matrix of the first n patterns against the predictions
      ys: zeros, then one increment per pattern at [label, prediction]. */
  function Confusion(ps: seq<Pattern>, ys: seq<nat>, k: nat, n: nat): (mat: seq<seq<nat>>)
    requires n <= |ps| && n <= |ys|
    requires forall p :: 0 <= p < n ==> ps[p].cls < k && ys[p] < k
    ensures Square(mat, k)
  {
    if n == 0 then Zeros(k)
    else Bump(Confusion(ps, ys, k, n - 1), ps[n - 1].cls, ys[n - 1])
  }

  /** Number of patterns among the first n labelled i and predicted j. */
  function Pairs(ps: seq<Pattern>, ys: seq<nat>, n: nat, i: nat, j: nat): nat
    requires n <= |ps| && n <= |ys|
  {
    if n == 0 then 0
    else Pairs(ps, ys, n - 1, i, j) + (if ps[n - 1].cls == i && ys[n - 1] == j then 1 else 0)
  }

  /** Cell (i, j) counts exactly the patterns labelled i and predicted j:
      each pattern touches only its own cell. */
  lemma {:induction false} ConfusionCounts(ps: seq<Pattern>, ys: seq<nat>, k: nat, n: nat)
    requires n <= |ps| && n <= |ys|
    requires forall p :: 0 <= p < n ==> ps[p].cls < k && ys[p] < k
    ensures forall i, j :: 0 <= i < k && 0 <= j < k ==>
      Confusion(ps, ys, k, n)[i][j] == Pairs(ps, ys, n, i, j)
  {
    if n > 0 {
      ConfusionCounts(ps, ys, k, n - 1);
    }
  }

  /** Sum of all the counts of a matrix, row by row. */
  function GrandTotal(mat: seq<seq<nat>>): nat
  {
    if |mat| == 0 then 0 else GrandTotal(mat[..|mat| - 1]) + Total(mat[|mat| - 1])
  }

  /** Replacing row a changes the grand total by the change in its sum. */
  lemma {:induction false} GrandTotalRow(mat: seq<seq<nat>>, a: nat, row: seq<nat>)
    requires a < |mat|
    ensures GrandTotal(mat[a := row]) + Total(mat[a]) == GrandTotal(mat) + Total(row)
  {
    var last := |mat| - 1;
    if a < last {
      GrandTotalRow(mat[..last], a, row);
      assert mat[a := row][..last] == mat[..last][a := row];
    } else {
      assert mat[a := row][..last] == mat[..last];
    }
  }

  /** Sum of the diagonal of a square matrix (np.diagonal(matrix).sum()). */
  function Trace(mat: seq<seq<nat>>): nat
    requires Square(mat, |mat|)
    decreases |mat|
  {
    if |mat| == 0 then 0
    else
      var last := |mat| - 1;
      Trace(Shrink(mat)) + mat[last][last]
  }

  /** Drop the last row and column of a square matrix. */
  function Shrink(mat: seq<seq<nat>>): (r: seq<seq<nat>>)
    requires Square(mat, |mat|) && |mat| > 0
    ensures Square(r, |mat| - 1)
    ensures forall i, j :: 0 <= i < |r| && 0 <= j < |r| ==> r[i][j] == mat[i][j]
  {
    seq(|mat| - 1, i requires 0 <= i < |mat| - 1 => mat[i][..|mat| - 1])
  }

  /** Trace is determined entry by entry by the diagonal. */
  lemma {:induction false} TraceSameDiagonal(m1: seq<seq<nat>>, m2: seq<seq<nat>>)
    requires Square(m1, |m1|) && Square(m2, |m1|)
    requires forall i :: 0 <= i < |m1| ==> m1[i][i] == m2[i][i]
    ensures Trace(m1) == Trace(m2)
    decreases |m1|
  {
    if |m1| > 0 {
      TraceSameDiagonal(Shrink(m1), Shrink(m2));
    }
  }

  /** An increment on the diagonal raises the trace by one; any other
      increment leaves it. */
  lemma {:induction false} TraceBump(mat: seq<seq<nat>>, a: nat, b: nat)
    requires Square(mat, |mat|) && a < |mat| && b < |mat|
    ensures Trace(Bump(mat, a, b)) == Trace(mat) + (if a == b then 1 else 0)
    decreases |mat|
  {
    var r := Bump(mat, a, b);
    var last := |mat| - 1;
    if a == b && a == last {
      TraceSameDiagonal(Shrink(r), Shrink(mat));
    } else if a == b {
      assert Shrink(r) == Bump(Shrink(mat), a, b);
      TraceBump(Shrink(mat), a, b);
    } else {
      TraceSameDiagonal(r, mat);
    }
  }

  /** The diagonal sum never exceeds the grand total. */
  lemma {:induction false} TraceBelowTotal(mat: seq<seq<nat>>)
    requires Square(mat, |mat|)
    ensures Trace(mat) <= GrandTotal(mat)
    decreases |mat|
  {
    if |mat| > 0 {
      var last := |mat| - 1;
      var s := Shrink(mat);
      TraceBelowTotal(s);
      RowsBelow(mat[..last], s);
      EntryBelowTotal(mat[last], last);
    }
  }

  /** Cutting every row short does not raise the grand total. */
  lemma {:induction false} RowsBelow(big: seq<seq<nat>>, small: seq<seq<nat>>)
    requires |big| == |small|
    requires forall i :: 0 <= i < |big| ==> small[i] <= big[i]
    ensures GrandTotal(small) <= GrandTotal(big)
  {
    if |big| > 0 {
      var last := |big| - 1;
      RowsBelow(big[..last], small[..last]);
      TotalAppend(small[last], big[last][|small[last]|..]);
      assert small[last] + big[last][|small[last]|..] == big[last];
    }
  }

  /** The confusion matrix holds one count per pattern. */
  lemma {:induction false} ConfusionTotal(ps: seq<Pattern>, ys: seq<nat>, k: nat, n: nat)
    requires n <= |ps| && n <= |ys|
    requires forall p :: 0 <= p < n ==> ps[p].cls < k && ys[p] < k
    ensures GrandTotal(Confusion(ps, ys, k, n)) == n
  {
    if n == 0 {
      ZerosTotal(Zeros(k));
    } else {
      ConfusionTotal(ps, ys, k, n - 1);
      GrandTotalBump(Confusion(ps, ys, k, n - 1), ps[n - 1].cls, ys[n - 1]);
    }
  }

  /** An increment adds one to the grand total. */
  lemma {:induction false} GrandTotalBump(mat: seq<seq<nat>>, a: nat, b: nat)
    requires Square(mat, |mat|) && a < |mat| && b < |mat|
    ensures GrandTotal(Bump(mat, a, b)) == GrandTotal(mat) + 1
  {
    var row := mat[a][b := mat[a][b] + 1];
    TotalBump(mat[a], b);
    GrandTotalRow(mat, a, row);
    assert Bump(mat, a, b) == mat[a := row];
  }

  /** The diagonal of the confusion matrix counts the correctly classified
      patterns. */
  lemma {:induction false} ConfusionTrace(ps: seq<Pattern>, ys: seq<nat>, k: nat, n: nat)
    requires n <= |ps| && n <= |ys|
    requires forall p :: 0 <= p < n ==> ps[p].cls < k && ys[p] < k
    ensures Trace(Confusion(ps, ys, k, n)) == Matches(ps, ys, n)
  {
    if n == 0 {
      ZerosTrace(Zeros(k));
    } else {
      var prev := Confusion(ps, ys, k, n - 1);
      ConfusionTrace(ps, ys, k, n - 1);
      TraceBump(prev, ps[n - 1].cls, ys[n - 1]);
    }
  }

  /** A matrix of zeros has no counts, on or off the diagonal. */
  lemma {:induction false} ZerosTotal(mat: seq<seq<nat>>)
    requires forall i, j :: 0 <= i < |mat| && 0 <= j < |mat[i]| ==> mat[i][j] == 0
    ensures GrandTotal(mat) == 0
  {
    if |mat| > 0 {
      ZerosTotal(mat[..|mat| - 1]);
      RowOfZeros(mat[|mat| - 1]);
    }
  }

  lemma {:induction false} RowOfZeros(s: seq<nat>)
    requires forall j :: 0 <= j < |s| ==> s[j] == 0
    ensures Total(s) == 0
  {
    if |s| > 0 {
      RowOfZeros(s[..|s| - 1]);
    }
  }

  lemma {:induction false} ZerosTrace(mat: seq<seq<nat>>)
    requires Square(mat, |mat|)
    requires forall i :: 0 <= i < |mat| ==> mat[i][i] == 0
    ensures Trace(mat) == 0
    decreases |mat|
  {
    if |mat| > 0 {
      ZerosTrace(Shrink(mat));
    }
  }

  /** Column j of a square matrix. */
  function Column(mat: seq<seq<nat>>, j: nat): (c: seq<nat>)
    requires Square(mat, |mat|) && j < |mat|
    ensures |c| == |mat|
  {
    seq(|mat|, r requires 0 <= r < |mat| => mat[r][j])
  }

  /** max(1, t): the denominators of the metrics. */
  function AtLeastOne(t: nat): (r: nat)
    ensures r >= 1 && r >= t
    ensures t >= 1 ==> r == t
  {
    if t >= 1 then t else 1
  }

  /** c / max(1, t) lies in [0, 1] when c <= t. */
  lemma RatioBounds(c: nat, t: nat)
    requires c <= t
    ensures 0.0 <= (c as real) / (AtLeastOne(t) as real) <= 1.0
    ensures (c as real) / (AtLeastOne(t) as real) == 1.0 <==> c == t && t > 0
  {
    var d := AtLeastOne(t) as real;
    var q := (c as real) / d;
    assert q * d == c as real;
  }

  /** Precision of class i: the share of the patterns predicted i that
      are labelled i. */
  function Precision(mat: seq<seq<nat>>, i: nat): (r: real)
    requires Square(mat, |mat|) && i < |mat|
  {
    (mat[i][i] as real) / (AtLeastOne(Total(Column(mat, i))) as real)
  }

  /** Sensitivity of class i: the share of the patterns labelled i that
      are predicted i. */
  function Sensitivity(mat: seq<seq<nat>>, i: nat): (r: real)
    requires Square(mat, |mat|) && i < |mat|
  {
    (mat[i][i] as real) / (AtLeastOne(Total(mat[i])) as real)
  }

  /** Overall accuracy: the share of all counted patterns on the diagonal. */
  function Accuracy(mat: seq<seq<nat>>): (r: real)
    requires Square(mat, |mat|)
  {
    (Trace(mat) as real) / (AtLeastOne(GrandTotal(mat)) as real)
  }

  /** Every metric is a proportion, and is 1 exactly when the class's (or
      the whole matrix's) counts all lie on the diagonal and are not all 0. */
  lemma MetricsBounds(mat: seq<seq<nat>>, i: nat)
    requires Square(mat, |mat|) && i < |mat|
    ensures 0.0 <= Precision(mat, i) <= 1.0
    ensures Precision(mat, i) == 1.0 <==> mat[i][i] == Total(Column(mat, i)) && mat[i][i] > 0
    ensures 0.0 <= Sensitivity(mat, i) <= 1.0
    ensures Sensitivity(mat, i) == 1.0 <==> mat[i][i] == Total(mat[i]) && mat[i][i] > 0
    ensures 0.0 <= Accuracy(mat) <= 1.0
    ensures Accuracy(mat) == 1.0 <==> Trace(mat) == GrandTotal(mat) && Trace(mat) > 0
  {
    EntryBelowTotal(Column(mat, i), i);
    RatioBounds(mat[i][i], Total(Column(mat, i)));
    EntryBelowTotal(mat[i], i);
    RatioBounds(mat[i][i], Total(mat[i]));
    TraceBelowTotal(mat);
    RatioBounds(Trace(mat), GrandTotal(mat));
  }

  /** Length of the leading run of patterns whose label is a class of the
      net: the first label outside [0, k) raises IndexError, which the
      bare except swallows, so counting stops there. */
  function Counted(ps: seq<Pattern>, k: nat): (n: nat)
    ensures n <= |ps|
    ensures forall p :: 0 <= p < n ==> ps[p].cls < k
    ensures n < |ps| ==> ps[n].cls >= k
  {
    if |ps| == 0 || ps[0].cls >= k then 0
    else
      var rest := Counted(ps[1..], k);
      assert forall p :: 1 <= p < |ps| ==> ps[p] == ps[1..][p - 1];
      1 + rest
  }

  /** Over all patterns, the accuracy is the share of patterns whose
      prediction is their label. */
  lemma AccuracyIsMatchRate(ps: seq<Pattern>, ys: seq<nat>, k: nat)
    requires |ps| > 0 && |ys| == |ps|
    requires forall p :: 0 <= p < |ps| ==> ps[p].cls < k && ys[p] < k
    ensures Accuracy(Confusion(ps, ys, k, |ps|)) == (Matches(ps, ys, |ps|) as real) / (|ps| as real)
  {
    ConfusionTotal(ps, ys, k, |ps|);
    ConfusionTrace(ps, ys, k, |ps|);
  }

  /** When every pattern is counted, the accuracy is one minus the error
      rate the trainer minimises. */
  lemma AccuracyIsComplementOfError(ps: seq<Pattern>, pesW: seq<real>, numK: seq<nat>)
    requires |ps| > 0 && Fits(ps, |pesW|, numK)
    requires Counted(ps, |numK|) == |ps|
    ensures Accuracy(Confusion(ps, Predictions(ps, pesW, numK), |numK|, |ps|))
      == 1.0 - ErrorRate(ps, pesW, numK)
  {
    var ys := Predictions(ps, pesW, numK);
    AccuracyIsMatchRate(ps, ys, |numK|);
  }

  /** The array holds the counts of the matrix value. */
  ghost predicate Holds(matrix: array2<nat>, mat: seq<seq<nat>>)
    reads matrix
  {
    && Square(mat, |mat|)
    && matrix.Length0 == |mat| && matrix.Length1 == |mat|
    && forall i, j :: 0 <= i < |mat| && 0 <= j < |mat| ==> matrix[i, j] == mat[i][j]
  }

  /** self.matrix[a, b] += 1 */
  method Count(matrix: array2<nat>, ghost mat: seq<seq<nat>>, a: nat, b: nat)
    requires Holds(matrix, mat) && a < |mat| && b < |mat|
    modifies matrix
    ensures Holds(matrix, Bump(mat, a, b))
  {
    BumpAt(mat, a, b);
    matrix[a, b] := matrix[a, b] + 1;
  }

  /** The evaluation thread: the patterns, the net and the confusion matrix
      it fills. */
  class HiloAccuracyNet {
    var patrones: seq<Pattern>
    var pesW: seq<real>
    var numK: seq<nat>
    var matrix: array2<nat>

    constructor()
      ensures patrones == [] && pesW == [0.0] && numK == [0]
      ensures matrix.Length0 == 0 && matrix.Length1 == 0
    {
      patrones := [];
      pesW := [0.0];
      numK := [0];
      matrix := new nat[0, 0];
    }

    /** Classify every pattern and count it at [label, prediction] in a
        fresh |numK| x |numK| matrix, up to the first pattern whose label
        is not a class of the net. */
    method Run()
      requires Fits(patrones, |pesW|, numK)
      modifies this
      ensures patrones == old(patrones) && pesW == old(pesW) && numK == old(numK)
      ensures fresh(matrix)
      ensures Holds(matrix, Confusion(patrones, Predictions(patrones, pesW, numK),
                                      |numK|, Counted(patrones, |numK|)))
    {
      var ps, w, nk := patrones, pesW, numK;
      var k := |nk|;
      var counts := new nat[k, k]((i, j) => 0);
      ghost var ys := Predictions(ps, w, nk);
      var p := 0;
      while p < |ps|
        modifies counts
        invariant p <= |ps|
        invariant p <= Counted(ps, k)
        invariant Holds(counts, Confusion(ps, ys, k, p))
      {
        var res := ExecuteDMNN(ps[p].features, w, nk);
        var cls := ps[p].cls;
        if cls >= k {
          break;
        }
        ghost var mat := Confusion(ps, ys, k, p);
        assert Confusion(ps, ys, k, p + 1) == Bump(mat, cls, res);
        Count(counts, mat, cls, res);
        p := p + 1;
      }
      assert p == Counted(ps, k);
      matrix := counts;
    }
  }
}
