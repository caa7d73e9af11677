/** Time compaction of a feature matrix, meanTrozos: every `grupo`
    consecutive rows (frames) are replaced by their column-wise mean. */
module Compaction {
  import opened Numeric

  /** Every row has `cols` entries. */
  predicate Rectangular(matrix: seq<seq<real>>, cols: nat)
  {
    forall r :: 0 <= r < |matrix| ==> |matrix[r]| == cols
  }

  /** Column c of a rectangular block of rows. */
  function Column(rows: seq<seq<real>>, cols: nat, c: nat): (col: seq<real>)
    requires Rectangular(rows, cols) && c < cols
    ensures |col| == |rows|
  {
    seq(|rows|, r requires 0 <= r < |rows| => rows[r][c])
  }

  /** np.mean(rows, axis=0) over a non-empty block. */
  function BlockMean(rows: seq<seq<real>>, cols: nat): (mean: seq<real>)
    requires Rectangular(rows, cols) && |rows| > 0
    ensures |mean| == cols
  {
    seq(cols, c requires 0 <= c < cols => Sum(Column(rows, cols, c)) / (|rows| as real))
  }

  /** Each coordinate of a block mean lies between that column's smallest
      and largest value in the block. */
  lemma BlockMeanWithinColumn(rows: seq<seq<real>>, cols: nat, c: nat)
    requires Rectangular(rows, cols) && |rows| > 0 && c < cols
    ensures MinOf(Column(rows, cols, c)) <= BlockMean(rows, cols)[c] <= MaxOf(Column(rows, cols, c))
  {
    var col := Column(rows, cols, c);
    MeanBounds(col, MinOf(col), MaxOf(col));
  }

  /** The mean of a single row is that row. */
  lemma BlockMeanOfOne(rows: seq<seq<real>>, cols: nat)
    requires Rectangular(rows, cols) && |rows| == 1
    ensures BlockMean(rows, cols) == rows[0]
  {
    forall c | 0 <= c < cols
      ensures BlockMean(rows, cols)[c] == rows[0][c]
    {
      assert Column(rows, cols, c) == [rows[0][c]];
      assert Sum([rows[0][c]]) == Sum([]) + rows[0][c];
    }
  }

  /** The rows of the compacted matrix, block by block from the front. */
  function Compacted(matrix: seq<seq<real>>, cols: nat, grupo: nat): (out: seq<seq<real>>)
    requires Rectangular(matrix, cols) && grupo >= 1
    ensures Rectangular(out, cols)
    decreases |matrix|
  {
    if matrix == [] then []
    else
      var k := if grupo <= |matrix| then grupo else |matrix|;
      [BlockMean(matrix[..k], cols)] + Compacted(matrix[k..], cols, grupo)
  }

  /** The compacted matrix has ceil(L / grupo) rows: the smallest count
      whose blocks of grupo cover all L input rows. */
  lemma {:induction false} CompactedLength(matrix: seq<seq<real>>, cols: nat, grupo: nat)
    requires Rectangular(matrix, cols) && grupo >= 1
    ensures |matrix| == 0 ==> |Compacted(matrix, cols, grupo)| == 0
    ensures |matrix| > 0 ==>
      var n := |Compacted(matrix, cols, grupo)|;
      (n - 1) * grupo < |matrix| <= n * grupo
    decreases |matrix|
  {
    if |matrix| > grupo {
      CompactedLength(matrix[grupo..], cols, grupo);
    }
  }

  /** First input row of block j: j * grupo, by repeated addition. */
  function Start(j: nat, grupo: nat): nat
  {
    if j == 0 then 0 else Start(j - 1, grupo) + grupo
  }

  lemma {:induction false} StartIsProduct(j: nat, grupo: nat)
    ensures Start(j, grupo) == j * grupo
  {
    if j > 0 {
      StartIsProduct(j - 1, grupo);
      assert (j - 1) * grupo + grupo == j * grupo;
    }
  }

  lemma {:induction false} CompactedRowAt(matrix: seq<seq<real>>, cols: nat, grupo: nat, j: nat)
    requires Rectangular(matrix, cols) && grupo >= 1
    requires j < |Compacted(matrix, cols, grupo)|
    ensures Start(j, grupo) < |matrix|
    ensures Compacted(matrix, cols, grupo)[j] ==
      BlockMean(matrix[Start(j, grupo) .. if Start(j + 1, grupo) <= |matrix| then Start(j + 1, grupo) else |matrix|], cols)
    decreases |matrix|
  {
    if j > 0 {
      var rest := matrix[grupo..];
      CompactedTail(matrix, cols, grupo, j);
      CompactedRowAt(rest, cols, grupo, j - 1);
      var lo := Start(j - 1, grupo);
      var hi := if Start(j, grupo) <= |rest| then Start(j, grupo) else |rest|;
      SliceShift(matrix, grupo, lo, hi);
    }
  }

  /** Rows after the first come from the rows after the first block. */
  lemma CompactedTail(matrix: seq<seq<real>>, cols: nat, grupo: nat, j: nat)
    requires Rectangular(matrix, cols) && grupo >= 1
    requires 0 < j < |Compacted(matrix, cols, grupo)|
    ensures grupo < |matrix| && j - 1 < |Compacted(matrix[grupo..], cols, grupo)|
    ensures Compacted(matrix, cols, grupo)[j] == Compacted(matrix[grupo..], cols, grupo)[j - 1]
  {
  }

  lemma SliceShift<T>(s: seq<T>, g: nat, lo: nat, hi: nat)
    requires g <= |s| && lo <= hi <= |s| - g
    ensures s[g..][lo..hi] == s[lo + g .. hi + g]
  {
  }

  /** Row j of the compacted matrix is the mean of input rows
      [j * grupo, min(L, (j + 1) * grupo)). */
  lemma CompactedRow(matrix: seq<seq<real>>, cols: nat, grupo: nat, j: nat)
    requires Rectangular(matrix, cols) && grupo >= 1
    requires j < |Compacted(matrix, cols, grupo)|
    ensures j * grupo < |matrix|
    ensures Compacted(matrix, cols, grupo)[j] ==
      BlockMean(matrix[j * grupo .. if (j + 1) * grupo <= |matrix| then (j + 1) * grupo else |matrix|], cols)
  {
    CompactedRowAt(matrix, cols, grupo, j);
    StartIsProduct(j, grupo);
    StartIsProduct(j + 1, grupo);
  }

  /** Compaction by one is the identity. */
  lemma {:induction false} CompactedByOne(matrix: seq<seq<real>>, cols: nat)
    requires Rectangular(matrix, cols)
    ensures Compacted(matrix, cols, 1) == matrix
    decreases |matrix|
  {
    if matrix != [] {
      BlockMeanOfOne(matrix[..1], cols);
      CompactedByOne(matrix[1..], cols);
      assert matrix == [matrix[0]] + matrix[1..];
    }
  }

  /** One step of the compaction loop: the rows from n on compact to the
      mean of the next block followed by the compaction of the rest. */
  lemma CompactedStep(matrix: seq<seq<real>>, cols: nat, grupo: nat, n: nat, hi: nat)
    requires Rectangular(matrix, cols) && grupo >= 1 && n < |matrix|
    requires hi == if n + grupo <= |matrix| then n + grupo else |matrix|
    ensures Rectangular(matrix[n..hi], cols)
    ensures Compacted(matrix[n..], cols, grupo) ==
      [BlockMean(matrix[n..hi], cols)] + Compacted(matrix[hi..], cols, grupo)
  {
    var rest := matrix[n..];
    assert rest[..hi - n] == matrix[n..hi] && rest[hi - n..] == matrix[hi..];
  }

  /** The loop invariant of meanTrozos survives appending the next block mean. */
  lemma AppendBlock(matrix: seq<seq<real>>, cols: nat, grupo: nat, n: nat, hi: nat, done: seq<seq<real>>)
    requires Rectangular(matrix, cols) && grupo >= 1 && n < |matrix|
    requires hi == if n + grupo <= |matrix| then n + grupo else |matrix|
    ensures Rectangular(matrix[n..hi], cols)
    ensures done + Compacted(matrix[n..], cols, grupo) ==
      (done + [BlockMean(matrix[n..hi], cols)]) + Compacted(matrix[hi..], cols, grupo)
  {
    CompactedStep(matrix, cols, grupo, n, hi);
  }

  /** meanTrozos: append one block mean per `grupo` rows while n advances.
      With grupo <= 0 the source's loop never ends on a non-empty matrix,
      so such a call is excluded; on an empty matrix it returns at once. */
  method MeanTrozos(matrix: seq<seq<real>>, cols: nat, grupo: int) returns (output: seq<seq<real>>)
    requires Rectangular(matrix, cols)
    requires grupo >= 1 || |matrix| == 0
    ensures Rectangular(output, cols)
    ensures grupo >= 1 ==> output == Compacted(matrix, cols, grupo)
    ensures |matrix| == 0 ==> output == []
  {
    var total := |matrix|;
    output := [];
    var n := 0;
    while n < total
      invariant 0 <= n
      invariant Rectangular(output, cols)
      invariant n < total ==> grupo >= 1
      invariant total == 0 ==> output == []
      invariant grupo >= 1 ==>
        output + Compacted(matrix[if n <= total then n else total..], cols, grupo) == Compacted(matrix, cols, grupo)
      decreases total - n
    {
      var hi := if n + grupo <= total then n + grupo else total;
      AppendBlock(matrix, cols, grupo, n, hi, output);
      var aux := BlockMean(matrix[n..hi], cols);
      output := output + [aux];
      n := n + grupo;
    }
    assert matrix[total..] == [];
  }
}
