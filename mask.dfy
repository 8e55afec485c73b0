/**
 * `mask_image`: zero every cell of raster B, in every band, where band 0 of
 * raster A is 0. A two-dimensional array is taken as a one-band image.
 */
module Mask {
  import opened Grid

  /** `a` has a band 0 in every cell that `b` has. */
  predicate Covers(a: Image, b: Image)
  {
    && |a| == |b|
    && forall r :: 0 <= r < |b| ==> |a[r]| == |b[r]| && forall c :: 0 <= c < |b[r]| ==> |a[r][c]| > 0
  }

  /** The masked copy of `b`: its shape, with the cells where band 0 of `a` is 0 cleared. */
  function Masked(a: Image, b: Image): (m: Image)
    requires Covers(a, b)
    ensures |m| == |b|
    ensures forall r :: 0 <= r < |b| ==> |m[r]| == |b[r]| && forall c :: 0 <= c < |b[r]| ==> |m[r][c]| == |b[r][c]|
  {
    seq(|b|, r requires 0 <= r < |b| =>
      seq(|b[r]|, c requires 0 <= c < |b[r]| =>
        seq(|b[r][c]|, i requires 0 <= i < |b[r][c]| => if a[r][c][0] != 0 then b[r][c][i] else 0)))
  }

  /**
   * Builds the masked copy of `b` as `np.zeros(b.shape)` filled band by band,
   * each band assignment `ma[:, :, i] = mask * b[:, :, i]` written as a loop
   * over the rows and columns.
   */
  method MaskImage(a: Image, b: Image, rows: nat, cols: nat, bands: nat) returns (ma: array3<int>)
    requires Rect(a, rows, cols) && Rect(b, rows, cols) && Bands(b, bands)
    requires forall r, c :: 0 <= r < rows && 0 <= c < cols ==> |a[r][c]| > 0
    ensures fresh(ma)
    ensures ma.Length0 == rows && ma.Length1 == cols && ma.Length2 == bands
    ensures forall r, c, i :: 0 <= r < rows && 0 <= c < cols && 0 <= i < bands ==>
      ma[r, c, i] == if a[r][c][0] != 0 then b[r][c][i] else 0
    ensures Covers(a, b) && forall r, c, i :: 0 <= r < rows && 0 <= c < cols && 0 <= i < bands ==>
      ma[r, c, i] == Masked(a, b)[r][c][i]
  {
    ma := new int[rows, cols, bands]((_, _, _) => 0);
    for i := 0 to bands
      invariant forall r, c, k :: 0 <= r < rows && 0 <= c < cols && 0 <= k < i ==>
        ma[r, c, k] == if a[r][c][0] != 0 then b[r][c][k] else 0
    {
      for r := 0 to rows
        invariant forall r', c, k :: 0 <= r' < rows && 0 <= c < cols && 0 <= k < i ==>
          ma[r', c, k] == if a[r'][c][0] != 0 then b[r'][c][k] else 0
        invariant forall r', c :: 0 <= r' < r && 0 <= c < cols ==>
          ma[r', c, i] == if a[r'][c][0] != 0 then b[r'][c][i] else 0
      {
        for c := 0 to cols
          invariant forall r', c', k :: 0 <= r' < rows && 0 <= c' < cols && 0 <= k < i ==>
            ma[r', c', k] == if a[r'][c'][0] != 0 then b[r'][c'][k] else 0
          invariant forall r', c' :: 0 <= r' < r && 0 <= c' < cols ==>
            ma[r', c', i] == if a[r'][c'][0] != 0 then b[r'][c'][i] else 0
          invariant forall c' :: 0 <= c' < c ==>
            ma[r, c', i] == if a[r][c'][0] != 0 then b[r][c'][i] else 0
        {
          ma[r, c, i] := if a[r][c][0] != 0 then b[r][c][i] else 0;
        }
      }
    }
  }

  // ---- the docstring example ----

  /** The docstring's `x1`. */
  const DocA: Image := [[[0, 2], [4, 6]], [[0, 3], [9, 8]]]

  /** The docstring's `x2`, each value times 10 so that it is an integer. */
  const DocB: Image := [[[15, 12], [16, 12]], [[110, 11], [259, 1]]]

  /** The result the docstring prints, times 10. */
  const DocShown: Image := [[[0, 0], [16, 12]], [[110, 11], [259, 1]]]

  /** The docstring's printed result is not what the code computes: cell `[1][0]` is cleared, not kept. */
  lemma DocShownDiffers()
    ensures Covers(DocA, DocB)
    ensures Masked(DocA, DocB)[1][0] == [0, 0] && DocShown[1][0] == [110, 11]
    ensures Masked(DocA, DocB) != DocShown
  {
    assert Masked(DocA, DocB)[1][0][0] == 0;
  }

  /** What the code computes for the docstring example: the cells where `x1`'s band 0 is 0 are cleared. */
  lemma DocResult()
    ensures Covers(DocA, DocB)
    ensures Masked(DocA, DocB) == [[[0, 0], [16, 12]], [[0, 0], [259, 1]]]
  {
    var m := Masked(DocA, DocB);
    assert m[0][0] == [0, 0] && m[0][1] == [16, 12];
    assert m[1][0] == [0, 0] && m[1][1] == [259, 1];
    assert m[0] == [[0, 0], [16, 12]] && m[1] == [[0, 0], [259, 1]];
  }
}
