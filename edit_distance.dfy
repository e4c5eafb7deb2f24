/** `getEditDistance` of `src/utils/validation.ts`: the matrix recurrence it
  * fills, the textbook Levenshtein distance it is meant to compute, and the
  * nested loops themselves over a two-dimensional array. */
module EditDistance {

  function Min3(x: int, y: int, z: int): (m: int)
    ensures m <= x && m <= y && m <= z
    ensures m == x || m == y || m == z
  {
    if x <= y && x <= z then x else if y <= z then y else z
  }

  /** The entry `matrix[|b|][|a|]` the code computes: matching last
    * characters take the diagonal entry as it is, otherwise one more than
    * the least of substitution, insertion and deletion. */
  function Distance(a: string, b: string): (d: nat)
    ensures |a| == 0 ==> d == |b|
    ensures |b| == 0 ==> d == |a|
    decreases |a| + |b|
  {
    if |a| == 0 then |b|
    else if |b| == 0 then |a|
    else
      var a', b' := a[..|a| - 1], b[..|b| - 1];
      if a[|a| - 1] == b[|b| - 1] then Distance(a', b')
      else 1 + Min3(Distance(a', b'), Distance(a', b), Distance(a, b'))
  }

  /** The textbook Levenshtein distance: the cheapest of substitution (free
    * on equal characters), insertion and deletion. */
  function Levenshtein(a: string, b: string): (d: nat)
    ensures |a| == 0 ==> d == |b|
    ensures |b| == 0 ==> d == |a|
    decreases |a| + |b|
  {
    if |a| == 0 then |b|
    else if |b| == 0 then |a|
    else
      var a', b' := a[..|a| - 1], b[..|b| - 1];
      var cost := if a[|a| - 1] == b[|b| - 1] then 0 else 1;
      Min3(Levenshtein(a', b') + cost, Levenshtein(a', b) + 1, Levenshtein(a, b') + 1)
  }

  /** Dropping the last character of `a` moves the distance by at most one. */
  lemma {:induction false} DropFirstArgument(a: string, b: string)
    requires |a| > 0
    ensures Levenshtein(a[..|a| - 1], b) <= Levenshtein(a, b) + 1
    decreases |b|
  {
    if |b| > 0 {
      var a', b' := a[..|a| - 1], b[..|b| - 1];
      DropFirstArgument(a, b');
      assert Levenshtein(a', b) <= Levenshtein(a', b') + 1;
    }
  }

  /** Dropping the last character of `b` moves the distance by at most one. */
  lemma {:induction false} DropSecondArgument(a: string, b: string)
    requires |b| > 0
    ensures Levenshtein(a, b[..|b| - 1]) <= Levenshtein(a, b) + 1
    decreases |a|
  {
    if |a| > 0 {
      var a', b' := a[..|a| - 1], b[..|b| - 1];
      DropSecondArgument(a', b);
      assert Levenshtein(a, b') <= Levenshtein(a', b') + 1;
    }
  }

  /** Taking the diagonal unchanged on equal characters is always the
    * cheapest choice, so the code's matrix holds the Levenshtein distance. */
  lemma {:induction false} DistanceIsLevenshtein(a: string, b: string)
    ensures Distance(a, b) == Levenshtein(a, b)
    decreases |a| + |b|
  {
    if |a| > 0 && |b| > 0 {
      var a', b' := a[..|a| - 1], b[..|b| - 1];
      DistanceIsLevenshtein(a', b');
      DistanceIsLevenshtein(a', b);
      DistanceIsLevenshtein(a, b');
      if a[|a| - 1] == b[|b| - 1] {
        DropFirstArgument(a, b);
        DropSecondArgument(a, b);
        // both one-sided edits cost at least the diagonal
        assert Levenshtein(a', b') <= Levenshtein(a', b) + 1 by {
          DropSecondArgument(a', b);
        }
        assert Levenshtein(a', b') <= Levenshtein(a, b') + 1 by {
          DropFirstArgument(a, b');
        }
      }
    }
  }

  /** A string is at distance zero from itself. */
  lemma {:induction false} DistanceToItself(a: string)
    ensures Distance(a, a) == 0
    decreases |a|
  {
    if |a| > 0 {
      DistanceToItself(a[..|a| - 1]);
    }
  }

  /** The distance is symmetric. */
  lemma {:induction false} DistanceSymmetric(a: string, b: string)
    ensures Distance(a, b) == Distance(b, a)
    decreases |a| + |b|
  {
    if |a| > 0 && |b| > 0 {
      var a', b' := a[..|a| - 1], b[..|b| - 1];
      DistanceSymmetric(a', b');
      DistanceSymmetric(a', b);
      DistanceSymmetric(a, b');
    }
  }

  /** No more edits than the longer string has characters. */
  lemma {:induction false} DistanceAtMostLonger(a: string, b: string)
    ensures Distance(a, b) <= if |a| < |b| then |b| else |a|
    decreases |a| + |b|
  {
    if |a| > 0 && |b| > 0 {
      DistanceAtMostLonger(a[..|a| - 1], b[..|b| - 1]);
    }
  }

  /** One entry of the matrix in terms of its three neighbours. */
  lemma EntryStep(a: string, b: string, i: nat, j: nat)
    requires 1 <= i <= |b| && 1 <= j <= |a|
    ensures Distance(a[..j], b[..i]) ==
      if b[i - 1] == a[j - 1] then Distance(a[..j - 1], b[..i - 1])
      else 1 + Min3(Distance(a[..j - 1], b[..i - 1]), Distance(a[..j - 1], b[..i]), Distance(a[..j], b[..i - 1]))
  {
    assert a[..j][..j - 1] == a[..j - 1];
    assert b[..i][..i - 1] == b[..i - 1];
  }

  /** The entry at row `i`, column `j` of the matrix the loops fill, by the
    * same rule over the neighbours the code reads. */
  ghost function Cell(a: string, b: string, j: nat, i: nat): nat
    requires j <= |a| && i <= |b|
    decreases j + i
  {
    if j == 0 then i
    else if i == 0 then j
    else Entry(b[i - 1] == a[j - 1], Cell(a, b, j - 1, i - 1), Cell(a, b, j - 1, i), Cell(a, b, j, i - 1))
  }

  /** Each entry is the distance between the prefixes `a[..j]` and `b[..i]`. */
  lemma {:induction false} CellIsDistance(a: string, b: string, j: nat, i: nat)
    requires j <= |a| && i <= |b|
    ensures Cell(a, b, j, i) == Distance(a[..j], b[..i])
    decreases j + i
  {
    if j > 0 && i > 0 {
      CellIsDistance(a, b, j - 1, i - 1);
      CellIsDistance(a, b, j - 1, i);
      CellIsDistance(a, b, j, i - 1);
      EntryStep(a, b, i, j);
    }
  }

  /** Rows `0 .. rows - 1` of the matrix hold their entries. */
  ghost predicate RowsFilled(matrix: array2<nat>, a: string, b: string, rows: nat)
    requires matrix.Length0 == |b| + 1 && matrix.Length1 == |a| + 1 && rows <= |b| + 1
    reads matrix
  {
    forall r, c :: 0 <= r < rows && 0 <= c <= |a| ==> matrix[r, c] == Cell(a, b, c, r)
  }

  /** The first column of rows `from ..` holds the row number. */
  ghost predicate FirstColumn(matrix: array2<nat>, b: string, from: nat)
    requires matrix.Length0 == |b| + 1 && matrix.Length1 >= 1
    reads matrix
  {
    forall k :: from <= k <= |b| ==> matrix[k, 0] == k
  }

  /** The value the loop body stores from the three neighbours. */
  function Entry(same: bool, diagonal: nat, left: nat, up: nat): nat
  {
    if same then diagonal else Min3(diagonal + 1, left + 1, up + 1)
  }

  /** The first row and the first column: `matrix[i] = [i]` and
    * `matrix[0][j] = j`. */
  method InitMatrix(a: string, b: string) returns (matrix: array2<nat>)
    ensures fresh(matrix) && matrix.Length0 == |b| + 1 && matrix.Length1 == |a| + 1
    ensures RowsFilled(matrix, a, b, 1) && FirstColumn(matrix, b, 1)
  {
    matrix := new nat[|b| + 1, |a| + 1];
    for i := 0 to |b| + 1
      invariant forall k :: 0 <= k < i ==> matrix[k, 0] == k
    {
      matrix[i, 0] := i;
    }
    for j := 0 to |a| + 1
      invariant forall k :: 0 < k <= |b| ==> matrix[k, 0] == k
      invariant forall k :: 0 <= k < j ==> matrix[0, k] == k
    {
      matrix[0, j] := j;
    }
  }

  /** The inner loop: row `i`, left to right. */
  method FillRow(matrix: array2<nat>, a: string, b: string, i: nat)
    requires matrix.Length0 == |b| + 1 && matrix.Length1 == |a| + 1 && 1 <= i <= |b|
    requires RowsFilled(matrix, a, b, i) && FirstColumn(matrix, b, i)
    modifies matrix
    ensures RowsFilled(matrix, a, b, i + 1) && FirstColumn(matrix, b, i + 1)
  {
    for j := 1 to |a| + 1
      invariant RowsFilled(matrix, a, b, i) && FirstColumn(matrix, b, i + 1)
      invariant RowPrefix(matrix, a, b, i, j)
    {
      var diagonal, left, up := matrix[i - 1, j - 1], matrix[i, j - 1], matrix[i - 1, j];
      matrix[i, j] := Entry(b[i - 1] == a[j - 1], diagonal, left, up);
    }
  }

  /** The first `cols` entries of row `i` are filled. */
  ghost predicate RowPrefix(matrix: array2<nat>, a: string, b: string, i: nat, cols: nat)
    requires matrix.Length0 == |b| + 1 && matrix.Length1 == |a| + 1 && i <= |b| && cols <= |a| + 1
    reads matrix
  {
    forall c :: 0 <= c < cols ==> matrix[i, c] == Cell(a, b, c, i)
  }

  /** `getEditDistance`: row `i` of the matrix is the prefix `b[..i]`,
    * column `j` the prefix `a[..j]`; an empty argument returns the other's
    * length at once. */
  method GetEditDistance(a: string, b: string) returns (d: nat)
    ensures d == Distance(a, b)
  {
    if |a| == 0 {
      return |b|;
    }
    if |b| == 0 {
      return |a|;
    }
    var matrix := InitMatrix(a, b);
    for i := 1 to |b| + 1
      invariant RowsFilled(matrix, a, b, i) && FirstColumn(matrix, b, i)
    {
      FillRow(matrix, a, b, i);
    }
    CellIsDistance(a, b, |a|, |b|);
    assert a[..|a|] == a && b[..|b|] == b;
    d := matrix[|b|, |a|];
  }
}
