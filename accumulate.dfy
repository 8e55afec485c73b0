/**
 * `compute_classes`: route an accepted window to the train, validation or
 * test store, append it there, and add its pixels to the run-wide histogram.
 */
module Accumulate {
  import opened Grid
  import opened Store
  import opened Policy

  /** The run-wide histogram `pixel_classes`: class id to pixel count, updated in place. */
  class PixelClasses {
    var counts: map<int, nat>

    constructor (counts0: map<int, nat>)
      ensures counts == counts0
    {
      counts := counts0;
    }

    /**
     * Lines 142-144: for each class present in `target`, add its pixel count.
     * Every class gains its count in the window (0 for an absent class), so
     * the total grows by the window's pixel count.
     */
    method AddPixels(target: Label)
      requires forall x :: x in Flatten(target) ==> x >= 0 && x in counts
      modifies this
      ensures counts == AddCounts(old(counts), Flatten(target))
      ensures Total(counts) == Total(old(counts)) + |Flatten(target)|
    {
      var flat := Flatten(target);
      var todo := set x | x in flat;
      ghost var done: set<int> := {};
      while todo != {}
        invariant todo !! done && todo + done == set x | x in flat
        invariant counts.Keys == old(counts).Keys
        invariant forall k :: k in counts ==>
          counts[k] == old(counts)[k] + (if k in done then CountOf(flat, k) else 0)
        decreases todo
      {
        EmptyOrHasElement(todo);
        var i :| i in todo;
        counts := counts[i := counts[i] + CountOf(flat, i)];
        todo := todo - {i};
        done := done + {i};
      }
      SameCounts(counts, AddCounts(old(counts), flat));
      TotalGrows(old(counts), flat);
    }
  }

  /** The histogram `counts` with every class grown by its number of cells in `flat`. */
  function AddCounts(counts: map<int, nat>, flat: seq<int>): (r: map<int, nat>)
    ensures r.Keys == counts.Keys
    ensures forall c :: c in r ==> r[c] == counts[c] + CountOf(flat, c)
  {
    map c | c in counts :: counts[c] + CountOf(flat, c)
  }

  // ---- proof helpers: generic facts about maps and sets used by the proofs below ----

  lemma EmptyOrHasKey(m: map<int, nat>)
    ensures m == map[] || exists k :: k in m
  {
    if forall k :: k !in m {
      assert m == map[];
    }
  }

  lemma EmptyOrHasElement(s: set<int>)
    ensures s == {} || exists x :: x in s
  {
    if forall x :: x !in s {
      assert s == {};
    }
  }

  /** Two histograms with the same classes and the same count for each are equal. */
  lemma SameCounts(a: map<int, nat>, b: map<int, nat>)
    requires a.Keys == b.Keys && forall k :: k in a ==> a[k] == b[k]
    ensures a == b
  {
    assert forall k :: k in a ==> a[k] == b[k];
  }

  // ---- the histogram's sum ----

  /** Some class of a non-empty histogram. */
  ghost function AnyKey(m: map<int, nat>): (k: int)
    requires m != map[]
    ensures k in m
  {
    EmptyOrHasKey(m);
    var k :| k in m; k
  }

  /** The sum of a histogram's counts. */
  ghost function Total(m: map<int, nat>): nat
    decreases |m|
  {
    if m == map[] then 0 else m[AnyKey(m)] + Total(m - {AnyKey(m)})
  }

  /** The sum does not depend on which key is taken out first. */
  lemma {:induction false} TotalRemove(m: map<int, nat>, k: int)
    requires k in m
    ensures Total(m) == m[k] + Total(m - {k})
    decreases |m|
  {
    var j := AnyKey(m);
    if j != k {
      TotalRemove(m - {j}, k);
      TotalRemove(m - {k}, j);
      assert m - {j} - {k} == m - {k} - {j};
    }
  }

  /** Growing every class by its cells in `flat` grows the sum by the cells of `flat` that are classes. */
  lemma {:induction false} TotalAddCounts(m: map<int, nat>, flat: seq<int>)
    ensures Total(AddCounts(m, flat)) == Total(m) + CountIn(flat, m.Keys)
    decreases |m|
  {
    var m' := AddCounts(m, flat);
    if m == map[] {
      assert m' == map[];
      CountInNone(flat);
      assert m.Keys == {};
    } else {
      var k := AnyKey(m);
      var rest := m - {k};
      TotalAddCounts(rest, flat);
      TotalRemove(m', k);
      TotalRemove(m, k);
      SameCounts(m' - {k}, AddCounts(rest, flat));
      CountInAdd(flat, rest.Keys, k);
      assert rest.Keys + {k} == m.Keys;
    }
  }

  /** When every cell of `flat` is a class, adding its cells grows the sum by `|flat|`. */
  lemma TotalGrows(m: map<int, nat>, flat: seq<int>)
    requires forall x :: x in flat ==> x in m
    ensures Total(AddCounts(m, flat)) == Total(m) + |flat|
  {
    TotalAddCounts(m, flat);
    forall i | 0 <= i < |flat|
      ensures flat[i] in m
    {
      var x := flat[i];
      assert x in flat;
    }
    CountInAll(flat, m.Keys);
  }

  /** How many entries of `s` hold one of `keys`. */
  function CountIn(s: seq<int>, keys: set<int>): nat
  {
    if |s| == 0 then 0 else (if s[0] in keys then 1 else 0) + CountIn(s[1..], keys)
  }

  lemma {:induction false} CountInAdd(s: seq<int>, keys: set<int>, k: int)
    requires k !in keys
    ensures CountIn(s, keys + {k}) == CountIn(s, keys) + CountOf(s, k)
  {
    if |s| > 0 {
      CountInAdd(s[1..], keys, k);
    }
  }

  lemma {:induction false} CountInNone(s: seq<int>)
    ensures CountIn(s, {}) == 0
  {
    if |s| > 0 {
      CountInNone(s[1..]);
    }
  }

  lemma {:induction false} CountInAll(s: seq<int>, keys: set<int>)
    requires forall i :: 0 <= i < |s| ==> s[i] in keys
    ensures CountIn(s, keys) == |s|
  {
    if |s| > 0 {
      assert s[0] in keys;
      CountInAll(s[1..], keys);
    }
  }


  /**
   * `compute_classes`. A `trn` window goes to the validation file when the
   * draw `np.random.randint(1, 100)`, a value in 1..99, is at most
   * `valPercent`; any other window stays in `samplesFile`. The chosen file
   * gains the window in `sat_img`, `map_img` and `meta_idx`; the other file
   * is unchanged. Every class gains the window's pixels of that class, so the
   * histogram's total grows by the window's pixel count.
   */
  method ComputeClasses(dataset: string, samplesFile: SampleFile, valPercent: int, valSampleFile: SampleFile,
                        data: Image, target: Label, metadataIdx: int, dictClasses: PixelClasses, draw: int)
    returns (val: bool)
    requires 1 <= draw <= 99
    requires samplesFile.Repr() !! valSampleFile.Repr()
    requires forall x :: x in Flatten(target) ==> x >= 0 && x in dictClasses.counts
    modifies samplesFile.satImg, samplesFile.mapImg, samplesFile.metaIdx
    modifies valSampleFile.satImg, valSampleFile.mapImg, valSampleFile.metaIdx
    modifies dictClasses
    ensures val <==> dataset == "trn" && draw <= valPercent
    ensures var f := if val then valSampleFile else samplesFile;
      && f.satImg.items == old(f.satImg.items) + [data]
      && f.mapImg.items == old(f.mapImg.items) + [target]
      && f.metaIdx.items == old(f.metaIdx.items) + [metadataIdx]
    ensures var other := if val then samplesFile else valSampleFile;
      unchanged(other.satImg, other.mapImg, other.metaIdx)
    ensures dictClasses.counts == AddCounts(old(dictClasses.counts), Flatten(target))
    ensures Total(dictClasses.counts) == Total(old(dictClasses.counts)) + |Flatten(target)|
  {
    var file := samplesFile;
    val := false;
    if dataset == "trn" {
      if draw > valPercent {
      } else {
        val := true;
        file := valSampleFile;
      }
    }
    var _ := file.satImg.Append(data);
    var _ := file.mapImg.Append(target);
    var _ := file.metaIdx.Append(metadataIdx);

    dictClasses.AddPixels(target);
  }
}
