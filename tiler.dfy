/**
 * `samples_preparation`: tile one raster pair into `size` x `size` windows on
 * a grid of stride `d`, pad the trailing windows, decide each window with the
 * sampling policy, write the accepted ones and keep the running counts.
 *
 * The specification enumerates the windows by their row-major ordinal `n`:
 * window `n` has its top-left corner at `WindowPositions(job)[n]`.
 */
module Tiler {
  import opened Wrappers
  import opened Grid
  import opened Sampling
  import opened Policy
  import opened Store
  import opened Accumulate

  /** `samples_count`: the number of samples written so far to each partition. */
  datatype Counts = Counts(trn: nat, val: nat, tst: nat)

  /** The image and label arrays of one input row; both are `|image|` x `width`. */
  datatype Raster = Raster(image: Image, labels: Label, width: nat, bands: nat)
  {
    predicate Valid()
    {
      Rect(image, |image|, width) && Bands(image, bands) && Rect(labels, |image|, width)
    }
  }

  /** The entries of the global `params` that the tiling reads. */
  datatype Params = Params(samplesSize: nat, numClasses: nat, sampling: SamplingDict)

  /** Why `samples_preparation` raises. */
  datatype PrepError = BadDataset(dataset: string)

  /**
   * Everything one call of `samples_preparation` depends on besides the
   * stores: the raster pair, the parameters, the stride, the partition of the
   * input row, the validation percent, and one draw of the random number
   * generator for each window.
   */
  datatype Job = Job(ras: Raster, params: Params, stride: nat, dataset: string, valPercent: int, draws: seq<int>)
  {
    predicate Valid()
    {
      && ras.Valid() && stride >= 1
      && Ready(params.sampling, params.numClasses, params.samplesSize)
      && (forall i, j :: 0 <= i < |ras.labels| && 0 <= j < |ras.labels[i]| ==> ras.labels[i][j] >= 0)
      && |draws| == |WindowPositions(this)|
      && forall i :: 0 <= i < |draws| ==> 1 <= draws[i] <= 99
    }
  }

  // ---- window enumeration ----

  /** The row offsets `range(0, h, d)`. */
  function RowStarts(job: Job): seq<nat>
    requires job.stride >= 1
  {
    Range(0, |job.ras.image|, job.stride)
  }

  /** The column offsets `range(0, w, d)`. */
  function ColStarts(job: Job): seq<nat>
    requires job.stride >= 1
  {
    Range(0, job.ras.width, job.stride)
  }

  /**
   * The top-left corners visited by the nested loops, in row-major order:
   * every row offset paired with every column offset.
   */
  function Positions(rows: seq<nat>, cols: seq<nat>): seq<(nat, nat)>
  {
    if rows == [] then []
    else seq(|cols|, j requires 0 <= j < |cols| => (rows[0], cols[j])) + Positions(rows[1..], cols)
  }

  /** Every corner pairs a row offset with a column offset. */
  lemma {:induction false} PositionsIn(rows: seq<nat>, cols: seq<nat>)
    ensures forall i :: 0 <= i < |Positions(rows, cols)| ==>
      Positions(rows, cols)[i].0 in rows && Positions(rows, cols)[i].1 in cols
  {
    if rows != [] {
      PositionsIn(rows[1..], cols);
      var head := seq(|cols|, j requires 0 <= j < |cols| => (rows[0], cols[j]));
      forall i | 0 <= i < |Positions(rows, cols)|
        ensures Positions(rows, cols)[i].0 in rows && Positions(rows, cols)[i].1 in cols
      {
        if i >= |head| {
          assert Positions(rows, cols)[i] == Positions(rows[1..], cols)[i - |head|];
        }
      }
    }
  }

  /** There are `|rows| * |cols|` corners. */
  lemma {:induction false} PositionsLength(rows: seq<nat>, cols: seq<nat>)
    ensures |Positions(rows, cols)| == |rows| * |cols|
  {
    if rows != [] {
      PositionsLength(rows[1..], cols);
      assert |rows| * |cols| == |cols| + (|rows| - 1) * |cols|;
    }
  }

  /**
   * The corners of rows `k` and later follow those of the rows before, and
   * row `k` contributes `(rows[k], cols[j])` for every column `j`.
   */
  lemma {:induction false} PositionsRow(rows: seq<nat>, cols: seq<nat>, k: nat)
    requires k < |rows|
    ensures Positions(rows[..k + 1], cols) == Positions(rows[..k], cols)
                                             + seq(|cols|, j requires 0 <= j < |cols| => (rows[k], cols[j]))
    ensures |Positions(rows[..k + 1], cols)| == |Positions(rows[..k], cols)| + |cols|
  {
    if k > 0 {
      PositionsRow(rows[1..], cols, k - 1);
      assert rows[1..][..k] == rows[1..k + 1];
      assert rows[1..][..k - 1] == rows[1..k];
      assert rows[..k + 1][1..] == rows[1..k + 1];
      assert rows[..k][1..] == rows[1..k];
    } else {
      assert rows[..1][1..] == [];
    }
  }

  /** The windows of a prefix of the rows are a prefix of all the windows. */
  lemma {:induction false} PositionsPrefix(rows: seq<nat>, cols: seq<nat>, k: nat)
    requires k <= |rows|
    ensures Positions(rows[..k], cols) <= Positions(rows, cols)
  {
    if k > 0 {
      PositionsPrefix(rows[1..], cols, k - 1);
      assert rows[1..][..k - 1] == rows[..k][1..];
    }
  }

  /** Column `j` of row `k` is corner number `|Positions(rows[..k], cols)| + j`. */
  lemma PositionAt(rows: seq<nat>, cols: seq<nat>, k: nat, j: nat)
    requires k < |rows| && j < |cols|
    ensures |Positions(rows[..k], cols)| + j < |Positions(rows, cols)|
    ensures Positions(rows, cols)[|Positions(rows[..k], cols)| + j] == (rows[k], cols[j])
  {
    PositionsRow(rows, cols, k);
    PositionsPrefix(rows, cols, k + 1);
  }

  /** The corners of all the windows of a job. */
  function WindowPositions(job: Job): seq<(nat, nat)>
    requires job.stride >= 1
  {
    Positions(RowStarts(job), ColStarts(job))
  }

  /** Column `j` of row `k` is the window whose ordinal follows the windows of the rows before. */
  lemma CornerOf(job: Job, rows: seq<nat>, cols: seq<nat>, k: nat, j: nat, n: nat)
    requires job.stride >= 1 && rows == RowStarts(job) && cols == ColStarts(job)
    requires k < |rows| && j < |cols| && n == |Positions(rows[..k], cols)| + j
    ensures n < WindowCount(job) && WindowPositions(job)[n] == (rows[k], cols[j])
  {
    PositionAt(rows, cols, k, j);
  }

  /** Every window's corner lies inside the raster. */
  lemma CornersInside(job: Job)
    requires job.stride >= 1
    ensures forall i :: 0 <= i < |WindowPositions(job)| ==>
      WindowPositions(job)[i].0 < |job.ras.image| && WindowPositions(job)[i].1 < job.ras.width
  {
    PositionsIn(RowStarts(job), ColStarts(job));
  }

  /** The number of windows visited: `ceil(h / d) * ceil(w / d)`. */
  lemma WindowCountIsCeilProduct(job: Job)
    requires job.stride >= 1
    ensures |WindowPositions(job)| == CeilDiv(|job.ras.image|, job.stride) * CeilDiv(job.ras.width, job.stride)
  {
    PositionsLength(RowStarts(job), ColStarts(job));
    RangeLength(0, |job.ras.image|, job.stride);
    RangeLength(0, job.ras.width, job.stride);
  }

  function WindowCount(job: Job): nat
    requires job.stride >= 1
  {
    |WindowPositions(job)|
  }

  /** The padded image window with ordinal `n`. */
  function DataAt(job: Job, n: nat): Image
    requires job.Valid() && n < WindowCount(job)
  {
    CornersInside(job);
    var p := WindowPositions(job)[n];
    Tile(job.ras.image, job.ras.width, p.0, p.1, job.params.samplesSize, Fill(job.ras.bands, 0))
  }

  /** The padded label window with ordinal `n`. */
  function TargetAt(job: Job, n: nat): Label
    requires job.Valid() && n < WindowCount(job)
  {
    CornersInside(job);
    var p := WindowPositions(job)[n];
    Tile(job.ras.labels, job.ras.width, p.0, p.1, job.params.samplesSize, 0)
  }

  /** Every label window is `size` x `size`, so it has `size * size` pixels, all non-negative. */
  lemma TargetPixels(job: Job, n: nat)
    requires job.Valid() && n < WindowCount(job)
    ensures |Flatten(TargetAt(job, n))| == job.params.samplesSize * job.params.samplesSize
    ensures forall x :: x in Flatten(TargetAt(job, n)) ==> x >= 0
  {
    var t := TargetAt(job, n);
    FlattenLength(t, job.params.samplesSize, job.params.samplesSize);
  }

  // ---- what happens to each window ----

  /** An accepted window `n` goes to the validation file. */
  predicate ToVal(job: Job, n: nat)
    requires job.Valid() && n < WindowCount(job)
  {
    job.dataset == "trn" && job.draws[n] <= job.valPercent
  }

  /**
   * What the loop body computes for one window: the padded image and label
   * windows, whether the sampling policy accepts it, whether the partition
   * draw sends it to the validation file, and `np.max(u)`, its largest label.
   */
  datatype Outcome = Outcome(data: Image, target: Label, accepted: bool, toVal: bool, top: int)

  /** The outcome of window `n`. */
  function OutcomeAt(job: Job, n: nat): Outcome
    requires job.Valid() && n < WindowCount(job)
  {
    var t := TargetAt(job, n);
    TargetPixels(job, n);
    Outcome(DataAt(job, n), t,
            Dispatch(job.params.sampling, job.params.numClasses, job.params.samplesSize, t, BackgroundPercent(t)) == Accept,
            ToVal(job, n), MaxOf(Flatten(t)))
  }

  /**
   * `os` lists the outcome of every window of the job. The trigger keeps the
   * outcomes' definition out of every proof that does not name one.
   */
  ghost predicate Describes(job: Job, os: seq<Outcome>)
    requires job.Valid()
  {
    && |os| == WindowCount(job)
    && forall m {:trigger OutcomeAt(job, m)} :: 0 <= m < |os| ==> os[m] == OutcomeAt(job, m)
  }

  /** The outcomes of all the windows, by ordinal. */
  lemma AllOutcomes(job: Job) returns (os: seq<Outcome>)
    requires job.Valid()
    ensures Describes(job, os)
  {
    os := seq(WindowCount(job), m requires 0 <= m < WindowCount(job) => OutcomeAt(job, m));
  }

  /** Every label window has `size * size` pixels, all non-negative. */
  lemma OutcomesShape(job: Job, os: seq<Outcome>)
    requires job.Valid() && Describes(job, os)
    ensures forall n :: 0 <= n < |os| ==> |Flatten(os[n].target)| == job.params.samplesSize * job.params.samplesSize
    ensures forall n, x :: 0 <= n < |os| && x in Flatten(os[n].target) ==> x >= 0
  {
    forall n | 0 <= n < |os|
      ensures |Flatten(os[n].target)| == job.params.samplesSize * job.params.samplesSize
      ensures forall x :: x in Flatten(os[n].target) ==> x >= 0
    {
      assert os[n] == OutcomeAt(job, n);
      TargetPixels(job, n);
    }
  }

  /** Every label in a window is a class of the histogram when every label of the raster is. */
  lemma OutcomeLabels(job: Job, os: seq<Outcome>, keys: set<int>)
    requires job.Valid() && Describes(job, os) && LabelsIn(job.ras.labels, keys)
    ensures forall n, x :: 0 <= n < |os| && x in Flatten(os[n].target) ==> x in keys
  {
    forall n | 0 <= n < |os|
      ensures forall x :: x in Flatten(os[n].target) ==> x in keys
    {
      assert os[n] == OutcomeAt(job, n);
      CornersInside(job);
      var p := WindowPositions(job)[n];
      TileLabelsIn(job.ras.labels, job.ras.width, p.0, p.1, job.params.samplesSize, keys);
    }
  }

  /** A `tst` row never routes a window to the validation file. */
  lemma TestOutcomes(job: Job, os: seq<Outcome>)
    requires job.Valid() && Describes(job, os) && job.dataset == "tst"
    ensures forall n :: 0 <= n < |os| ==> !os[n].toVal
  {
    forall n | 0 <= n < |os|
      ensures !os[n].toVal
    {
      assert os[n] == OutcomeAt(job, n);
    }
  }

  // ---- the running totals over the first `n` outcomes ----

  /**
   * The ordinals, in order, of the windows among the first `n` that are
   * accepted and routed to the validation file (`toVal`) or to the row's own
   * file (`!toVal`).
   */
  function Routed(os: seq<Outcome>, n: nat, toVal: bool): seq<nat>
    requires n <= |os|
  {
    if n == 0 then []
    else Routed(os, n - 1, toVal) + (if os[n - 1].accepted && os[n - 1].toVal == toVal then [n - 1] else [])
  }

  /** A window is routed to a file exactly when it is accepted and its draw sends it there. */
  lemma {:induction false} RoutedMembers(os: seq<Outcome>, n: nat, toVal: bool)
    requires n <= |os|
    ensures forall m: nat :: m in Routed(os, n, toVal) <==> m < n && os[m].accepted && os[m].toVal == toVal
  {
    if n > 0 {
      RoutedMembers(os, n - 1, toVal);
    }
  }

  /** How many of the first `n` windows are accepted. */
  function AcceptedCount(os: seq<Outcome>, n: nat): nat
    requires n <= |os|
  {
    if n == 0 then 0 else AcceptedCount(os, n - 1) + (if os[n - 1].accepted then 1 else 0)
  }

  /** The image windows with the given ordinals (ordinals past the end give an empty window). */
  function Windows(os: seq<Outcome>, ords: seq<nat>): seq<Image>
  {
    seq(|ords|, i requires 0 <= i < |ords| => if ords[i] < |os| then os[ords[i]].data else [])
  }

  /** The label windows with the given ordinals (ordinals past the end give an empty window). */
  function Targets(os: seq<Outcome>, ords: seq<nat>): seq<Label>
  {
    seq(|ords|, i requires 0 <= i < |ords| => if ords[i] < |os| then os[ords[i]].target else [])
  }

  /** The pixels of class `c` in the accepted windows among the first `n`. */
  function ClassPixels(os: seq<Outcome>, n: nat, c: int): nat
    requires n <= |os|
  {
    if n == 0 then 0
    else ClassPixels(os, n - 1, c) + (if os[n - 1].accepted then CountOf(Flatten(os[n - 1].target), c) else 0)
  }

  /** The pixels of the accepted windows among the first `n`. */
  function AcceptedPixels(os: seq<Outcome>, n: nat): nat
    requires n <= |os|
  {
    if n == 0 then 0
    else AcceptedPixels(os, n - 1) + (if os[n - 1].accepted then |Flatten(os[n - 1].target)| else 0)
  }

  /** The running `num_classes` after the first `n` windows. */
  function MaxSeen(os: seq<Outcome>, n: nat, init: int): int
    requires n <= |os|
  {
    if n == 0 then init
    else
      var prev := MaxSeen(os, n - 1, init);
      if prev < os[n - 1].top then os[n - 1].top else prev
  }

  /**
   * The running `num_classes` is never below `init`, is at least the largest
   * label of every visited window, accepted or not, and is either `init` or
   * the largest label of one of them.
   */
  lemma {:induction false} MaxSeenIsMax(os: seq<Outcome>, n: nat, init: int)
    requires n <= |os|
    ensures MaxSeen(os, n, init) >= init
    ensures forall m :: 0 <= m < n ==> MaxSeen(os, n, init) >= os[m].top
    ensures MaxSeen(os, n, init) == init || exists m :: 0 <= m < n && MaxSeen(os, n, init) == os[m].top
  {
    if n > 0 {
      MaxSeenIsMax(os, n - 1, init);
    }
  }

  /** Every accepted window goes to exactly one file. */
  lemma {:induction false} RoutedSplit(os: seq<Outcome>, n: nat)
    requires n <= |os|
    ensures |Routed(os, n, false)| + |Routed(os, n, true)| == AcceptedCount(os, n)
  {
    if n > 0 {
      RoutedSplit(os, n - 1);
    }
  }

  /** When no window is drawn for validation, every accepted window stays in the row's own file. */
  lemma {:induction false} NoValidation(os: seq<Outcome>, n: nat)
    requires n <= |os| && forall i :: 0 <= i < |os| ==> !os[i].toVal
    ensures Routed(os, n, true) == []
    ensures |Routed(os, n, false)| == AcceptedCount(os, n)
  {
    if n > 0 {
      NoValidation(os, n - 1);
    }
  }

  /** When every window has `sq` pixels, the accepted ones hold `sq` times their number. */
  lemma {:induction false} AcceptedPixelsCount(os: seq<Outcome>, n: nat, sq: nat)
    requires n <= |os| && forall i :: 0 <= i < |os| ==> |Flatten(os[i].target)| == sq
    ensures AcceptedPixels(os, n) == sq * AcceptedCount(os, n)
  {
    if n > 0 {
      AcceptedPixelsCount(os, n - 1, sq);
      assert sq * (AcceptedCount(os, n - 1) + 1) == sq * AcceptedCount(os, n - 1) + sq;
    }
  }

  /** Selecting the windows of two lists of ordinals, one after the other. */
  lemma WindowsConcat(os: seq<Outcome>, a: seq<nat>, b: seq<nat>)
    ensures Windows(os, a + b) == Windows(os, a) + Windows(os, b)
    ensures Targets(os, a + b) == Targets(os, a) + Targets(os, b)
  {
  }

  lemma FillConcat<T>(a: nat, b: nat, z: T)
    ensures Fill(a, z) + Fill(b, z) == Fill(a + b, z)
  {
  }

  /** Every label of a padded window is a label of the raster or the padding value 0. */
  lemma TileLabelsIn(g: Label, cols: nat, top: nat, left: nat, size: nat, keys: set<int>)
    requires Rect(g, |g|, cols) && top <= |g| && left <= cols
    requires LabelsIn(g, keys)
    ensures forall x :: x in Flatten(Tile(g, cols, top, left, size, 0)) ==> x in keys
  {
    var t := Tile(g, cols, top, left, size, 0);
    forall x | x in Flatten(t)
      ensures x in keys
    {
      var i :| 0 <= i < |t| && x in t[i];
      var j :| 0 <= j < |t[i]| && t[i][j] == x;
    }
  }

  // ---- the tiling loop ----

  /**
   * One file after the first `n` windows: it holds, after what it held at the
   * start, the image windows, the label windows and one metadata index `mi`
   * for each window routed to it.
   */
  ghost predicate FileState(os: seq<Outcome>, n: nat, toVal: bool, sat0: seq<Image>, maps0: seq<Label>, meta0: seq<int>,
                            mi: int, sat: seq<Image>, maps: seq<Label>, meta: seq<int>)
  {
    && n <= |os|
    && sat == sat0 + Windows(os, Routed(os, n, toVal))
    && maps == maps0 + Targets(os, Routed(os, n, toVal))
    && meta == meta0 + Fill(|Routed(os, n, toVal)|, mi)
  }

  /** Writing window `n` to its file, if it is routed there, extends the file's state by one window. */
  lemma FileStep(os: seq<Outcome>, n: nat, toVal: bool, sat0: seq<Image>, maps0: seq<Label>, meta0: seq<int>,
                 mi: int, sat: seq<Image>, maps: seq<Label>, meta: seq<int>)
    requires n < |os| && FileState(os, n, toVal, sat0, maps0, meta0, mi, sat, maps, meta)
    ensures var w := os[n].accepted && os[n].toVal == toVal;
      FileState(os, n + 1, toVal, sat0, maps0, meta0, mi,
                if w then sat + [os[n].data] else sat,
                if w then maps + [os[n].target] else maps,
                if w then meta + [mi] else meta)
  {
    if os[n].accepted && os[n].toVal == toVal {
      WindowsConcat(os, Routed(os, n, toVal), [n]);
      FillConcat(|Routed(os, n, toVal)|, 1, mi);
      assert Windows(os, [n]) == [os[n].data] && Targets(os, [n]) == [os[n].target];
    } else {
      assert Routed(os, n + 1, toVal) == Routed(os, n, toVal) + [];
    }
  }

  /** The histogram after the first `n` windows: same classes, each grown by its pixels in the accepted windows. */
  ghost predicate ClassState(os: seq<Outcome>, n: nat, hist0: map<int, nat>, counts: map<int, nat>)
    requires n <= |os|
  {
    && counts.Keys == hist0.Keys
    && forall c :: c in counts ==> counts[c] == hist0[c] + ClassPixels(os, n, c)
  }

  /** The datasets of the two sample files, the histogram and the counters that the windows update. */
  datatype Ledger = Ledger(sat: seq<Image>, maps: seq<Label>, meta: seq<int>,
                           satV: seq<Image>, mapsV: seq<Label>, metaV: seq<int>,
                           counts: map<int, nat>, idx: nat, idxV: nat, numClasses: int)

  /**
   * What the loop body does for a window with outcome `o`, its metadata index
   * being `mi`: an accepted window goes to the file it is routed to, adds its
   * pixels to the histogram and counts for that file; `num_classes` rises to
   * the window's largest label either way.
   */
  function Step(l: Ledger, o: Outcome, mi: int): Ledger
  {
    var top := if l.numClasses < o.top then o.top else l.numClasses;
    if !o.accepted then l.(numClasses := top)
    else if o.toVal then
      l.(satV := l.satV + [o.data], mapsV := l.mapsV + [o.target], metaV := l.metaV + [mi],
         counts := AddCounts(l.counts, Flatten(o.target)), idxV := l.idxV + 1, numClasses := top)
    else
      l.(sat := l.sat + [o.data], maps := l.maps + [o.target], meta := l.meta + [mi],
         counts := AddCounts(l.counts, Flatten(o.target)), idx := l.idx + 1, numClasses := top)
  }

  /** The ledger after the first `n` windows, starting from `l0`. */
  function Replay(l0: Ledger, os: seq<Outcome>, n: nat, mi: int): Ledger
    requires n <= |os|
    decreases n, 1
  {
    if n == 0 then l0 else Recorded(l0, os, n, mi)
  }

  /** The ledger once window `n - 1` is recorded. */
  function Recorded(l0: Ledger, os: seq<Outcome>, n: nat, mi: int): Ledger
    requires 0 < n <= |os|
    decreases n, 0
  {
    Step(Replay(l0, os, n - 1, mi), os[n - 1], mi)
  }

  /** After the first `n` windows each file holds, after its old contents, the windows routed to it. */
  lemma {:induction false} ReplayFiles(l0: Ledger, os: seq<Outcome>, n: nat, mi: int)
    requires n <= |os|
    ensures var l := Replay(l0, os, n, mi);
      && FileState(os, n, false, l0.sat, l0.maps, l0.meta, mi, l.sat, l.maps, l.meta)
      && FileState(os, n, true, l0.satV, l0.mapsV, l0.metaV, mi, l.satV, l.mapsV, l.metaV)
  {
    if n > 0 {
      ReplayFiles(l0, os, n - 1, mi);
      var l := Replay(l0, os, n - 1, mi);
      FileStep(os, n - 1, false, l0.sat, l0.maps, l0.meta, mi, l.sat, l.maps, l.meta);
      FileStep(os, n - 1, true, l0.satV, l0.mapsV, l0.metaV, mi, l.satV, l.mapsV, l.metaV);
    }
  }

  /** After the first `n` windows each counter has grown by the number of windows routed to its file. */
  lemma {:induction false} ReplayCounters(l0: Ledger, os: seq<Outcome>, n: nat, mi: int)
    requires n <= |os|
    ensures Replay(l0, os, n, mi).idx == l0.idx + |Routed(os, n, false)|
    ensures Replay(l0, os, n, mi).idxV == l0.idxV + |Routed(os, n, true)|
  {
    if n > 0 {
      ReplayCounters(l0, os, n - 1, mi);
    }
  }

  /** After the first `n` windows every class has grown by its pixels in the accepted windows. */
  lemma {:induction false} ReplayClasses(l0: Ledger, os: seq<Outcome>, n: nat, mi: int)
    requires n <= |os|
    ensures ClassState(os, n, l0.counts, Replay(l0, os, n, mi).counts)
  {
    if n > 0 {
      ReplayClasses(l0, os, n - 1, mi);
      var l, l' := Replay(l0, os, n - 1, mi), Replay(l0, os, n, mi);
      forall c | c in l'.counts
        ensures l'.counts[c] == l0.counts[c] + ClassPixels(os, n, c)
      {
        assert l.counts[c] == l0.counts[c] + ClassPixels(os, n - 1, c);
      }
    }
  }

  /** Recording windows never adds or removes a class. */
  lemma {:induction false} ReplayKeys(l0: Ledger, os: seq<Outcome>, n: nat, mi: int)
    requires n <= |os|
    ensures Replay(l0, os, n, mi).counts.Keys == l0.counts.Keys
  {
    if n > 0 {
      ReplayKeys(l0, os, n - 1, mi);
    }
  }

  /**
   * After the first `n` windows the histogram's sum has grown by all the
   * pixels of the accepted windows, as long as every label is a class.
   */
  lemma {:induction false} ReplayTotal(l0: Ledger, os: seq<Outcome>, n: nat, mi: int)
    requires n <= |os|
    requires forall m, x :: 0 <= m < |os| && x in Flatten(os[m].target) ==> x in l0.counts
    ensures Total(Replay(l0, os, n, mi).counts) == Total(l0.counts) + AcceptedPixels(os, n)
  {
    if n > 0 {
      ReplayTotal(l0, os, n - 1, mi);
      ReplayKeys(l0, os, n - 1, mi);
      if os[n - 1].accepted {
        TotalGrows(Replay(l0, os, n - 1, mi).counts, Flatten(os[n - 1].target));
      }
    }
  }

  /** After the first `n` windows `num_classes` is the running maximum of the windows' largest labels. */
  lemma {:induction false} ReplayMax(l0: Ledger, os: seq<Outcome>, n: nat, mi: int)
    requires n <= |os|
    ensures Replay(l0, os, n, mi).numClasses == MaxSeen(os, n, l0.numClasses)
  {
    if n > 0 {
      ReplayMax(l0, os, n - 1, mi);
    }
  }

  /** What the first `n` windows do to the ledger, all its parts together. */
  lemma ReplayMeans(l0: Ledger, os: seq<Outcome>, n: nat, mi: int)
    requires n <= |os|
    ensures var l := Replay(l0, os, n, mi);
      && FileState(os, n, false, l0.sat, l0.maps, l0.meta, mi, l.sat, l.maps, l.meta)
      && FileState(os, n, true, l0.satV, l0.mapsV, l0.metaV, mi, l.satV, l.mapsV, l.metaV)
      && l.idx == l0.idx + |Routed(os, n, false)|
      && l.idxV == l0.idxV + |Routed(os, n, true)|
      && ClassState(os, n, l0.counts, l.counts)
      && l.numClasses == MaxSeen(os, n, l0.numClasses)
  {
    ReplayFiles(l0, os, n, mi);
    ReplayCounters(l0, os, n, mi);
    ReplayClasses(l0, os, n, mi);
    ReplayMax(l0, os, n, mi);
  }

  /** The ledger read from the two files, the histogram and the counters. */
  ghost function Snap(f: SampleFile, v: SampleFile, pc: PixelClasses, idx: nat, idxV: nat, numClasses: int): Ledger
    reads f.satImg, f.mapImg, f.metaIdx, v.satImg, v.mapImg, v.metaIdx, pc
  {
    Ledger(f.satImg.items, f.mapImg.items, f.metaIdx.items, v.satImg.items, v.mapImg.items, v.metaIdx.items,
           pc.counts, idx, idxV, numClasses)
  }

  /** Slice the window at `(row, column)` out of both arrays and pad it to `size` x `size` when short. */
  method SliceWindow(job: Job, n: nat, row: nat, column: nat) returns (data: Image, target: Label)
    requires job.Valid() && n < WindowCount(job) && WindowPositions(job)[n] == (row, column)
    ensures data == DataAt(job, n) && target == TargetAt(job, n)
  {
    CornersInside(job);
    var ras, size := job.ras, job.params.samplesSize;
    data := Crop(ras.image, ras.width, row, column, size);
    var dataRow, dataCol := |data|, |data[0]|;
    if dataRow < size || dataCol < size {
      data := PadDiff(data, dataRow, dataCol, size, Fill(ras.bands, 0));
    } else {
      PadDiffFull(data, size, Fill(ras.bands, 0));
    }

    target := Crop(ras.labels, ras.width, row, column, size);
    var targetRow, targetCol := |target|, |target[0]|;
    if targetRow < size || targetCol < size {
      target := PadDiff(target, targetRow, targetCol, size, 0);
    } else {
      PadDiffFull(target, size, 0);
    }
  }

  /** Every label of the raster, and the padding label 0, is a class of the histogram. */
  predicate LabelsIn(g: Label, keys: set<int>)
  {
    0 in keys && forall i, j :: 0 <= i < |g| && 0 <= j < |g[i]| ==> g[i][j] in keys
  }

  /** What the loop bodies assume of the job: its outcomes are `os` and the histogram has every class. */
  ghost predicate Setup(job: Job, os: seq<Outcome>, keys: set<int>)
  {
    job.Valid() && Describes(job, os) && LabelsIn(job.ras.labels, keys)
  }

  /**
   * The bookkeeping of the loop body for a window with outcome `o`: an
   * accepted window is written with `compute_classes` and counts towards the
   * file it went to, and the running `num_classes` rises to the window's
   * largest label.
   */
  method Record(o: Outcome, dataset: string, valPercent: int, draw: int,
                samplesFile: SampleFile, valSampleFile: SampleFile, pixelClasses: PixelClasses,
                metadataIdx: int, idxSamples: nat, idxSamplesV: nat, numClasses: int)
    returns (idxSamples': nat, idxSamplesV': nat, numClasses': int)
    requires 1 <= draw <= 99 && (o.toVal <==> dataset == "trn" && draw <= valPercent)
    requires samplesFile.Repr() !! valSampleFile.Repr()
    requires forall x :: x in Flatten(o.target) ==> x >= 0 && x in pixelClasses.counts
    modifies samplesFile.satImg, samplesFile.mapImg, samplesFile.metaIdx
    modifies valSampleFile.satImg, valSampleFile.mapImg, valSampleFile.metaIdx, pixelClasses
    ensures Snap(samplesFile, valSampleFile, pixelClasses, idxSamples', idxSamplesV', numClasses')
         == Step(old(Snap(samplesFile, valSampleFile, pixelClasses, idxSamples, idxSamplesV, numClasses)), o, metadataIdx)
    ensures pixelClasses.counts.Keys == old(pixelClasses.counts.Keys)
  {
    idxSamples', idxSamplesV' := idxSamples, idxSamplesV;
    if o.accepted {
      var val := ComputeClasses(dataset, samplesFile, valPercent, valSampleFile, o.data, o.target,
                                metadataIdx, pixelClasses, draw);
      if val {
        idxSamplesV' := idxSamplesV + 1;
      } else {
        idxSamples' := idxSamples + 1;
      }
    }

    numClasses' := numClasses;
    if numClasses < o.top {
      numClasses' := o.top;
    }
  }

  /**
   * The body of the two loops for the window at `(row, column)`, window `n`:
   * slice, pad when short, compute the background percent, dispatch, then
   * record the outcome.
   */
  method ProcessWindow(job: Job, ghost os: seq<Outcome>, n: nat, row: nat, column: nat,
                       samplesFile: SampleFile, valSampleFile: SampleFile, pixelClasses: PixelClasses,
                       metadataIdx: int, idxSamples: nat, idxSamplesV: nat, numClasses: int)
    returns (idxSamples': nat, idxSamplesV': nat, numClasses': int)
    requires Setup(job, os, pixelClasses.counts.Keys) && n < |os| && WindowPositions(job)[n] == (row, column)
    requires samplesFile.Repr() !! valSampleFile.Repr()
    modifies samplesFile.satImg, samplesFile.mapImg, samplesFile.metaIdx
    modifies valSampleFile.satImg, valSampleFile.mapImg, valSampleFile.metaIdx, pixelClasses
    ensures Snap(samplesFile, valSampleFile, pixelClasses, idxSamples', idxSamplesV', numClasses')
         == Step(old(Snap(samplesFile, valSampleFile, pixelClasses, idxSamples, idxSamplesV, numClasses)), os[n], metadataIdx)
    ensures pixelClasses.counts.Keys == old(pixelClasses.counts.Keys)
  {
    var data, target := SliceWindow(job, n, row, column);
    TargetPixels(job, n);
    CornersInside(job);
    TileLabelsIn(job.ras.labels, job.ras.width, row, column, job.params.samplesSize, pixelClasses.counts.Keys);

    var backgroundPercent := BackgroundPercent(target);
    var verdict := Dispatch(job.params.sampling, job.params.numClasses, job.params.samplesSize, target, backgroundPercent);
    var o := Outcome(data, target, verdict == Accept, job.dataset == "trn" && job.draws[n] <= job.valPercent,
                     MaxOf(Flatten(target)));
    assert os[n] == OutcomeAt(job, n) == o;
    idxSamples', idxSamplesV', numClasses' := Record(o, job.dataset, job.valPercent, job.draws[n], samplesFile,
                                                     valSampleFile, pixelClasses, metadataIdx,
                                                     idxSamples, idxSamplesV, numClasses);
  }

  /** Row `k` contributes `|cols|` windows and ends within the windows of the job. */
  lemma RowEnd(job: Job, rows: seq<nat>, cols: seq<nat>, k: nat)
    requires job.stride >= 1 && rows == RowStarts(job) && cols == ColStarts(job) && k < |rows|
    ensures |Positions(rows[..k + 1], cols)| == |Positions(rows[..k], cols)| + |cols|
    ensures |Positions(rows[..k], cols)| + |cols| <= WindowCount(job)
  {
    PositionsRow(rows, cols, k);
    PositionsPrefix(rows, cols, k + 1);
  }

  /** The inner loop: the windows of row `k`, left to right. */
  method VisitRow(job: Job, ghost os: seq<Outcome>, rows: seq<nat>, cols: seq<nat>, k: nat, n0: nat,
                  samplesFile: SampleFile, valSampleFile: SampleFile, pixelClasses: PixelClasses,
                  metadataIdx: int, ghost l0: Ledger, idxSamples: nat, idxSamplesV: nat, numClasses: int)
    returns (idxSamples': nat, idxSamplesV': nat, numClasses': int)
    requires Setup(job, os, pixelClasses.counts.Keys) && rows == RowStarts(job) && cols == ColStarts(job)
    requires k < |rows| && n0 == |Positions(rows[..k], cols)| && n0 + |cols| <= |os|
    requires samplesFile.Repr() !! valSampleFile.Repr()
    requires Snap(samplesFile, valSampleFile, pixelClasses, idxSamples, idxSamplesV, numClasses) == Replay(l0, os, n0, metadataIdx)
    modifies samplesFile.satImg, samplesFile.mapImg, samplesFile.metaIdx
    modifies valSampleFile.satImg, valSampleFile.mapImg, valSampleFile.metaIdx, pixelClasses
    ensures Snap(samplesFile, valSampleFile, pixelClasses, idxSamples', idxSamplesV', numClasses')
         == Replay(l0, os, n0 + |cols|, metadataIdx)
    ensures pixelClasses.counts.Keys == old(pixelClasses.counts.Keys)
  {
    idxSamples', idxSamplesV', numClasses' := idxSamples, idxSamplesV, numClasses;
    var row := rows[k];
    var n := n0;
    for j := 0 to |cols|
      invariant n == n0 + j
      invariant pixelClasses.counts.Keys == old(pixelClasses.counts.Keys)
      invariant Snap(samplesFile, valSampleFile, pixelClasses, idxSamples', idxSamplesV', numClasses') == Replay(l0, os, n, metadataIdx)
    {
      var column := cols[j];
      CornerOf(job, rows, cols, k, j, n);
      idxSamples', idxSamplesV', numClasses' := ProcessWindow(job, os, n, row, column, samplesFile, valSampleFile,
                                                              pixelClasses, metadataIdx, idxSamples', idxSamplesV', numClasses');
      n := n + 1;
    }
  }

  /** The outer loop: every row offset, top to bottom. */
  method VisitWindows(job: Job, ghost os: seq<Outcome>, samplesFile: SampleFile, valSampleFile: SampleFile,
                      pixelClasses: PixelClasses, metadataIdx: int, idxSamples: nat, idxSamplesV: nat, numClasses: int)
    returns (idxSamples': nat, idxSamplesV': nat, numClasses': int)
    requires Setup(job, os, pixelClasses.counts.Keys)
    requires samplesFile.Repr() !! valSampleFile.Repr()
    modifies samplesFile.satImg, samplesFile.mapImg, samplesFile.metaIdx
    modifies valSampleFile.satImg, valSampleFile.mapImg, valSampleFile.metaIdx, pixelClasses
    ensures Snap(samplesFile, valSampleFile, pixelClasses, idxSamples', idxSamplesV', numClasses')
         == Replay(old(Snap(samplesFile, valSampleFile, pixelClasses, idxSamples, idxSamplesV, numClasses)), os, |os|, metadataIdx)
  {
    ghost var l0 := Snap(samplesFile, valSampleFile, pixelClasses, idxSamples, idxSamplesV, numClasses);
    idxSamples', idxSamplesV', numClasses' := idxSamples, idxSamplesV, numClasses;
    var rows, cols := RowStarts(job), ColStarts(job);
    var n: nat := 0;
    assert rows[..0] == [];
    for k := 0 to |rows|
      invariant n == |Positions(rows[..k], cols)| <= |os|
      invariant pixelClasses.counts.Keys == old(pixelClasses.counts.Keys)
      invariant Snap(samplesFile, valSampleFile, pixelClasses, idxSamples', idxSamplesV', numClasses') == Replay(l0, os, n, metadataIdx)
    {
      RowEnd(job, rows, cols, k);
      idxSamples', idxSamplesV', numClasses' := VisitRow(job, os, rows, cols, k, n, samplesFile, valSampleFile,
                                                         pixelClasses, metadataIdx, l0, idxSamples', idxSamplesV', numClasses');
      n := n + |cols|;
    }
    assert rows[..|rows|] == rows;
  }

  /**
   * What visiting every window of a job does to the ledger: each file gains
   * its routed windows, each counter their number, each class its pixels in
   * the accepted windows, the histogram's sum `size * size` pixels per
   * accepted window, and `num_classes` becomes the largest label seen.
   */
  lemma Conclude(job: Job, os: seq<Outcome>, l0: Ledger, mi: int)
    requires Setup(job, os, l0.counts.Keys)
    ensures var l, sq := Replay(l0, os, |os|, mi), job.params.samplesSize * job.params.samplesSize;
      && FileState(os, |os|, false, l0.sat, l0.maps, l0.meta, mi, l.sat, l.maps, l.meta)
      && FileState(os, |os|, true, l0.satV, l0.mapsV, l0.metaV, mi, l.satV, l.mapsV, l.metaV)
      && l.idx == l0.idx + |Routed(os, |os|, false)|
      && l.idxV == l0.idxV + |Routed(os, |os|, true)|
      && ClassState(os, |os|, l0.counts, l.counts)
      && Total(l.counts) == Total(l0.counts) + sq * AcceptedCount(os, |os|)
      && l.numClasses == MaxSeen(os, |os|, l0.numClasses)
  {
    ReplayMeans(l0, os, |os|, mi);
    OutcomeLabels(job, os, l0.counts.Keys);
    ReplayTotal(l0, os, |os|, mi);
    OutcomesShape(job, os);
    AcceptedPixelsCount(os, |os|, job.params.samplesSize * job.params.samplesSize);
  }

  /**
   * Both loops over a raster whose rows go to `samplesFile` and whose
   * validation windows go to `valSampleFile`, with metadata index `metadataIdx`.
   */
  method TileRaster(job: Job, ghost os: seq<Outcome>, samplesFile: SampleFile, valSampleFile: SampleFile,
                    pixelClasses: PixelClasses, metadataIdx: int, idxSamples: nat, idxSamplesV: nat, numClasses: int)
    returns (idxSamples': nat, idxSamplesV': nat, numClasses': int)
    requires Setup(job, os, pixelClasses.counts.Keys)
    requires samplesFile.Repr() !! valSampleFile.Repr()
    modifies samplesFile.satImg, samplesFile.mapImg, samplesFile.metaIdx
    modifies valSampleFile.satImg, valSampleFile.mapImg, valSampleFile.metaIdx, pixelClasses
    ensures FileState(os, |os|, false, old(samplesFile.satImg.items), old(samplesFile.mapImg.items),
                      old(samplesFile.metaIdx.items), metadataIdx, samplesFile.satImg.items, samplesFile.mapImg.items,
                      samplesFile.metaIdx.items)
    ensures FileState(os, |os|, true, old(valSampleFile.satImg.items), old(valSampleFile.mapImg.items),
                      old(valSampleFile.metaIdx.items), metadataIdx, valSampleFile.satImg.items,
                      valSampleFile.mapImg.items, valSampleFile.metaIdx.items)
    ensures idxSamples' == idxSamples + |Routed(os, |os|, false)|
    ensures idxSamplesV' == idxSamplesV + |Routed(os, |os|, true)|
    ensures ClassState(os, |os|, old(pixelClasses.counts), pixelClasses.counts)
    ensures Total(pixelClasses.counts) == Total(old(pixelClasses.counts))
                                          + job.params.samplesSize * job.params.samplesSize * AcceptedCount(os, |os|)
    ensures numClasses' == MaxSeen(os, |os|, numClasses)
  {
    ghost var l0 := Snap(samplesFile, valSampleFile, pixelClasses, idxSamples, idxSamplesV, numClasses);
    idxSamples', idxSamplesV', numClasses' := VisitWindows(job, os, samplesFile, valSampleFile, pixelClasses,
                                                           metadataIdx, idxSamples, idxSamplesV, numClasses);
    Conclude(job, os, l0, metadataIdx);
  }

  /**
   * `samples_preparation`: reject a partition other than `trn` and `tst`,
   * write the raster's metadata once, then visit every window in row-major
   * order and return the updated sample counts and `num_classes`.
   * `imageMetadata` is the metadata list of the raster (empty when there is
   * none) and `metadataText` its printed form.
   */
  method SamplesPreparation(ras: Raster, params: Params, stride: nat, samplesCount: Counts, numClasses: int,
                            samplesFile: SampleFile, valPercent: int, valSampleFile: SampleFile,
                            dataset: string, pixelClasses: PixelClasses,
                            imageMetadata: seq<string>, metadataText: string, draws: seq<int>)
    returns (r: Result<(Counts, int), PrepError>, ghost os: seq<Outcome>)
    requires Job(ras, params, stride, dataset, valPercent, draws).Valid()
    requires samplesFile.Repr() !! valSampleFile.Repr()
    requires LabelsIn(ras.labels, pixelClasses.counts.Keys)
    modifies samplesFile.satImg, samplesFile.mapImg, samplesFile.metaIdx, samplesFile.metadata
    modifies valSampleFile.satImg, valSampleFile.mapImg, valSampleFile.metaIdx, pixelClasses
    ensures Describes(Job(ras, params, stride, dataset, valPercent, draws), os)
    ensures dataset != "trn" && dataset != "tst" ==>
      && r == Failure(BadDataset(dataset))
      && unchanged(samplesFile.satImg, samplesFile.mapImg, samplesFile.metaIdx, samplesFile.metadata)
      && unchanged(valSampleFile.satImg, valSampleFile.mapImg, valSampleFile.metaIdx, pixelClasses)
    ensures dataset == "trn" || dataset == "tst" ==>
      var mi := if imageMetadata != [] then |old(samplesFile.metadata.items)| else -1;
      var own, toV := Routed(os, |os|, false), Routed(os, |os|, true);
      && samplesFile.metadata.items == old(samplesFile.metadata.items) + (if imageMetadata != [] then [metadataText] else [])
      && FileState(os, |os|, false, old(samplesFile.satImg.items), old(samplesFile.mapImg.items),
                   old(samplesFile.metaIdx.items), mi, samplesFile.satImg.items, samplesFile.mapImg.items,
                   samplesFile.metaIdx.items)
      && FileState(os, |os|, true, old(valSampleFile.satImg.items), old(valSampleFile.mapImg.items),
                   old(valSampleFile.metaIdx.items), mi, valSampleFile.satImg.items, valSampleFile.mapImg.items,
                   valSampleFile.metaIdx.items)
      && ClassState(os, |os|, old(pixelClasses.counts), pixelClasses.counts)
      && Total(pixelClasses.counts) == Total(old(pixelClasses.counts))
                                       + params.samplesSize * params.samplesSize * AcceptedCount(os, |os|)
      && r == Success((if dataset == "tst"
                       then Counts(samplesCount.trn, samplesCount.val, samplesCount.tst + |own|)
                       else Counts(samplesCount.trn + |own|, samplesCount.val + |toV|, samplesCount.tst),
                       MaxSeen(os, |os|, numClasses)))
  {
    var job := Job(ras, params, stride, dataset, valPercent, draws);
    os := AllOutcomes(job);
    if dataset != "trn" && dataset != "tst" {
      r := Failure(BadDataset(dataset));
      return;
    }
    var idxSamples: nat := if dataset == "trn" then samplesCount.trn else samplesCount.tst;
    var idxSamplesV: nat := samplesCount.val;

    var metadataIdx: int := -1;
    if imageMetadata != [] {
      var i := samplesFile.metadata.Append(metadataText);
      metadataIdx := i;
    }

    var maxClass;
    idxSamples, idxSamplesV, maxClass := TileRaster(job, os, samplesFile, valSampleFile, pixelClasses, metadataIdx,
                                                    idxSamples, idxSamplesV, numClasses);

    var counts := if dataset == "tst" then Counts(samplesCount.trn, samplesCount.val, idxSamples)
                  else Counts(idxSamples, idxSamplesV, samplesCount.tst);
    r := Success((counts, maxClass));
  }
}
