/** Exact counterparts of the numpy reductions the classifier relies on:
    min, max, sum, mean and the first-index argmax / argmin. Floating point
    rounding is abstracted away: every value is a Dafny `real`. */
module Numeric {

  datatype Option<T> = None | Some(value: T)

  /** np.min over a non-empty vector. */
  function MinOf(s: seq<real>): (r: real)
    requires |s| > 0
    ensures r in s
    ensures forall i :: 0 <= i < |s| ==> r <= s[i]
  {
    if |s| == 1 then s[0]
    else
      var rest := MinOf(s[1..]);
      assert forall i :: 1 <= i < |s| ==> s[i] == s[1..][i - 1];
      if s[0] <= rest then s[0] else rest
  }

  /** np.max over a non-empty vector. */
  function MaxOf(s: seq<real>): (r: real)
    requires |s| > 0
    ensures r in s
    ensures forall i :: 0 <= i < |s| ==> s[i] <= r
  {
    if |s| == 1 then s[0]
    else
      var rest := MaxOf(s[1..]);
      assert forall i :: 1 <= i < |s| ==> s[i] == s[1..][i - 1];
      if s[0] >= rest then s[0] else rest
  }

  /** np.sum, accumulated from the left as the source's loops do. */
  function Sum(s: seq<real>): real
  {
    if s == [] then 0.0 else Sum(s[..|s| - 1]) + s[|s| - 1]
  }

  /** np.argmax: the lowest index holding the maximum. */
  function FirstArgMax(s: seq<real>): (r: nat)
    requires |s| > 0
    ensures r < |s|
    ensures forall i :: 0 <= i < |s| ==> s[i] <= s[r]
    ensures forall i :: 0 <= i < r ==> s[i] < s[r]
  {
    if |s| == 1 then 0
    else
      var k := FirstArgMax(s[..|s| - 1]);
      if s[|s| - 1] > s[k] then |s| - 1 else k
  }

  /** np.argmin: the lowest index holding the minimum. */
  function FirstArgMin(s: seq<real>): (r: nat)
    requires |s| > 0
    ensures r < |s|
    ensures forall i :: 0 <= i < |s| ==> s[r] <= s[i]
    ensures forall i :: 0 <= i < r ==> s[r] < s[i]
  {
    if |s| == 1 then 0
    else
      var k := FirstArgMin(s[..|s| - 1]);
      if s[|s| - 1] < s[k] then |s| - 1 else k
  }

  /** A sum of terms that all lie in [lo, hi] lies in [|s| * lo, |s| * hi]. */
  lemma {:induction false} SumBounds(s: seq<real>, lo: real, hi: real)
    requires forall i :: 0 <= i < |s| ==> lo <= s[i] <= hi
    ensures |s| as real * lo <= Sum(s) <= |s| as real * hi
  {
    if s != [] {
      SumBounds(s[..|s| - 1], lo, hi);
    }
  }

  /** Sum is additive over concatenation. */
  lemma {:induction false} SumAppend(a: seq<real>, b: seq<real>)
    ensures Sum(a + b) == Sum(a) + Sum(b)
  {
    if b != [] {
      assert (a + b)[..|a + b| - 1] == a + b[..|b| - 1];
      SumAppend(a, b[..|b| - 1]);
    } else {
      assert a + b == a;
    }
  }

  /** A sum of non-negative terms bounds each of them. */
  lemma {:induction false} SumBoundsTerm(s: seq<real>, k: nat)
    requires forall i :: 0 <= i < |s| ==> 0.0 <= s[i]
    requires k < |s|
    ensures s[k] <= Sum(s)
  {
    if k < |s| - 1 {
      SumBoundsTerm(s[..|s| - 1], k);
    } else {
      SumNonNegative(s[..|s| - 1]);
    }
  }

  /** A sum of non-negative terms is non-negative. */
  lemma {:induction false} SumNonNegative(s: seq<real>)
    requires forall i :: 0 <= i < |s| ==> 0.0 <= s[i]
    ensures 0.0 <= Sum(s)
  {
    if s != [] {
      SumNonNegative(s[..|s| - 1]);
    }
  }

  /** The mean of terms that all lie in [lo, hi] lies in [lo, hi]. */
  lemma MeanBounds(s: seq<real>, lo: real, hi: real)
    requires |s| > 0
    requires forall i :: 0 <= i < |s| ==> lo <= s[i] <= hi
    ensures lo <= Sum(s) / (|s| as real) <= hi
  {
    SumBounds(s, lo, hi);
    var n := |s| as real;
    DivideBounds(Sum(s), n, lo, hi);
  }

  lemma DivideBounds(total: real, n: real, lo: real, hi: real)
    requires n > 0.0 && n * lo <= total <= n * hi
    ensures lo <= total / n <= hi
  {
    assert total == total / n * n;
  }

  lemma DivideMonotone(a: real, b: real, t: real)
    requires t > 0.0 && a <= b
    ensures a / t <= b / t
  {
    assert b / t - a / t == (b - a) / t;
  }
}
