/**
 * Window geometry: rasters and windows as rows of cells, the clamped slice
 * `arr[top:top+S, left:left+S]` and the zero padding of `pad_diff`.
 * A cell is an `int` for a label raster and a band vector `seq<int>` for an
 * image raster, so one definition serves the 2-D and the 3-D case.
 */
module Grid {

  type Grid<T> = seq<seq<T>>

  /** A multi-band image: rows x columns x bands. */
  type Image = Grid<seq<int>>

  /** A label raster: rows x columns of class ids. */
  type Label = Grid<int>

  function Min(a: int, b: int): int { if a <= b then a else b }

  /** `g` is a `rows` x `cols` rectangle. */
  predicate Rect<T>(g: Grid<T>, rows: nat, cols: nat)
  {
    |g| == rows && forall i :: 0 <= i < |g| ==> |g[i]| == cols
  }

  /** Every cell of an image has exactly `bands` band values. */
  predicate Bands(img: Image, bands: nat)
  {
    forall i, j :: 0 <= i < |img| && 0 <= j < |img[i]| ==> |img[i][j]| == bands
  }

  /** `n` copies of `z`. */
  function Fill<T>(n: nat, z: T): (r: seq<T>)
    ensures |r| == n
    ensures forall i :: 0 <= i < n ==> r[i] == z
  {
    if n == 0 then [] else Fill(n - 1, z) + [z]
  }

  /**
   * The slice `g[top:top+size, left:left+size]` of a `|g|` x `cols` grid:
   * Python clamps both ends to the grid, so a window at the trailing edge is
   * smaller than `size`.
   */
  function Crop<T>(g: Grid<T>, cols: nat, top: nat, left: nat, size: nat): (r: Grid<T>)
    requires Rect(g, |g|, cols) && top <= |g| && left <= cols
    ensures Rect(r, Min(top + size, |g|) - top, Min(left + size, cols) - left)
    ensures forall i, j :: 0 <= i < |r| && 0 <= j < |r[i]| ==> r[i][j] == g[top + i][left + j]
  {
    var bottom := Min(top + size, |g|);
    var right := Min(left + size, cols);
    seq(bottom - top, i requires 0 <= i < bottom - top => g[top + i][left..right])
  }

  /**
   * `pad_diff(arr, rows, cols, size)`: append `size - cols` zero cells to the
   * right of every row and then `size - rows` zero rows below, as
   * `np.pad(arr, ((0, size - rows), (0, size - cols)))` does. The result is
   * `size` x `size`, the original cells keep their place at the top left and
   * every added cell is `z`.
   */
  function PadDiff<T>(g: Grid<T>, rows: nat, cols: nat, size: nat, z: T): (r: Grid<T>)
    requires Rect(g, rows, cols) && rows <= size && cols <= size
    ensures Rect(r, size, size)
    ensures forall i, j :: 0 <= i < rows && 0 <= j < cols ==> r[i][j] == g[i][j]
    ensures forall i, j :: 0 <= i < size && 0 <= j < size && (rows <= i || cols <= j) ==> r[i][j] == z
  {
    var widened := seq(rows, i requires 0 <= i < rows => g[i] + Fill(size - cols, z));
    var r := widened + Fill(size - rows, Fill(size, z));
    assert forall i :: 0 <= i < rows ==> r[i] == g[i] + Fill(size - cols, z);
    assert forall i :: rows <= i < size ==> r[i] == Fill(size, z);
    r
  }

  /** A grid that is already `size` x `size` is left as it is by the padding. */
  lemma PadDiffFull<T>(g: Grid<T>, size: nat, z: T)
    requires Rect(g, size, size)
    ensures PadDiff(g, size, size, size, z) == g
  {
    var r := PadDiff(g, size, size, size, z);
    forall i | 0 <= i < size
      ensures r[i] == g[i]
    {
      assert |r[i]| == |g[i]|;
    }
  }

  /**
   * The padded window whose top-left corner is `(top, left)`: the clamped
   * slice, zero-padded up to `size` x `size`.
   */
  function Tile<T>(g: Grid<T>, cols: nat, top: nat, left: nat, size: nat, z: T): (r: Grid<T>)
    requires Rect(g, |g|, cols) && top <= |g| && left <= cols
    ensures Rect(r, size, size)
    ensures forall i, j :: 0 <= i < size && 0 <= j < size ==>
      r[i][j] == if top + i < |g| && left + j < cols then g[top + i][left + j] else z
  {
    var c := Crop(g, cols, top, left, size);
    PadDiff(c, Min(top + size, |g|) - top, Min(left + size, cols) - left, size, z)
  }

  /** A window that lies inside the grid needs no padding. */
  lemma TileInside<T>(g: Grid<T>, cols: nat, top: nat, left: nat, size: nat, z: T)
    requires Rect(g, |g|, cols) && top + size <= |g| && left + size <= cols
    ensures Tile(g, cols, top, left, size, z) == Crop(g, cols, top, left, size)
  {
    var c := Crop(g, cols, top, left, size);
    PadDiffFull(c, size, z);
  }

  /** The padded image window keeps the image's band count in every cell. */
  lemma TileBands(img: Image, cols: nat, bands: nat, top: nat, left: nat, size: nat)
    requires Rect(img, |img|, cols) && Bands(img, bands) && top <= |img| && left <= cols
    ensures Bands(Tile(img, cols, top, left, size, Fill(bands, 0)), bands)
  {
  }

  /** The ceiling of `n / d`. */
  function CeilDiv(n: nat, d: nat): (r: nat)
    requires d >= 1
    ensures r * d >= n && (r == 0 || (r - 1) * d < n)
  {
    if n == 0 then 0 else 1 + CeilDiv(if n <= d then 0 else n - d, d)
  }

  /** Python's `range(lo, hi, d)` for a step `d >= 1`: its elements all lie in `[lo, hi)`. */
  function Range(lo: nat, hi: nat, d: nat): (r: seq<nat>)
    requires d >= 1
    ensures forall x :: x in r ==> lo <= x < hi
    decreases hi - lo
  {
    if lo >= hi then [] else [lo] + Range(lo + d, hi, d)
  }

  /**
   * `range(lo, hi, d)` starts at `lo`, each element is the previous one plus
   * `d`, it is empty exactly when `lo >= hi`, and one more step would leave
   * the interval.
   */
  lemma {:induction false} RangeSteps(lo: nat, hi: nat, d: nat)
    requires d >= 1
    ensures var r := Range(lo, hi, d);
      && (|r| == 0 <==> lo >= hi)
      && (|r| > 0 ==> r[0] == lo && r[|r| - 1] + d >= hi)
      && forall i :: 0 <= i < |r| - 1 ==> r[i + 1] == r[i] + d
    decreases hi - lo
  {
    if lo < hi {
      RangeSteps(lo + d, hi, d);
      var r, rest := Range(lo, hi, d), Range(lo + d, hi, d);
      assert r == [lo] + rest;
      forall i | 0 <= i < |r| - 1
        ensures r[i + 1] == r[i] + d
      {
        if i > 0 {
          assert r[i] == rest[i - 1] && r[i + 1] == rest[i];
        }
      }
    }
  }

  /** `range(lo, hi, d)` has `ceil((hi - lo) / d)` elements. */
  lemma {:induction false} RangeLength(lo: nat, hi: nat, d: nat)
    requires d >= 1 && lo <= hi
    ensures |Range(lo, hi, d)| == CeilDiv(hi - lo, d)
    decreases hi - lo
  {
    if lo < hi {
      if lo + d <= hi {
        RangeLength(lo + d, hi, d);
      }
    }
  }
}
