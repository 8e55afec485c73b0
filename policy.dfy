/**
 * The per-window accept/reject policy: the background percent of a label
 * window, `minimum_annotated_percent`, `class_proportion` and the dispatch on
 * the configured method list.
 */
module Policy {
  import opened Grid
  import opened Sampling

  // ---- histogram of a window ----

  /** `target.flatten()`: the cells of a label window in row-major order. */
  function Flatten(g: Label): (r: seq<int>)
    ensures forall x :: x in r <==> exists i :: 0 <= i < |g| && x in g[i]
  {
    if |g| == 0 then [] else g[0] + Flatten(g[1..])
  }

  lemma {:induction false} FlattenLength(g: Label, rows: nat, cols: nat)
    requires Rect(g, rows, cols)
    ensures |Flatten(g)| == rows * cols
  {
    if rows > 0 {
      FlattenLength(g[1..], rows - 1, cols);
    }
  }

  /** `np.bincount(s)[v]`: how many cells hold `v`; it is 0 exactly when `v` is absent. */
  function CountOf(s: seq<int>, v: int): (n: nat)
    ensures n <= |s|
    ensures n == 0 <==> v !in s
  {
    if |s| == 0 then 0 else (if s[0] == v then 1 else 0) + CountOf(s[1..], v)
  }

  /** The smallest value present, the first entry of `np.unique(s)`. */
  function MinOf(s: seq<int>): (m: int)
    requires |s| > 0
    ensures m in s && forall x :: x in s ==> m <= x
  {
    if |s| == 1 then s[0]
    else
      var m := MinOf(s[1..]);
      assert forall x :: x in s ==> x == s[0] || x in s[1..];
      if s[0] <= m then s[0] else m
  }

  /** The largest value present, `np.max(np.unique(s))`. */
  function MaxOf(s: seq<int>): (m: int)
    requires |s| > 0
    ensures m in s && forall x :: x in s ==> x <= m
  {
    if |s| == 1 then s[0]
    else
      var m := MaxOf(s[1..]);
      assert forall x :: x in s ==> x == s[0] || x in s[1..];
      if s[0] >= m then s[0] else m
  }

  // ---- percentages ----

  /** `count / total * 100`, as an exact rational. */
  function Percent(count: nat, total: nat): real
    requires total > 0
  {
    (count as real) * 100.0 / (total as real)
  }

  /**
   * `round(x, 1)`: the nearest multiple of 0.1, a tie going to the even
   * multiple, taken on the exact value.
   */
  function Round1(x: real): (r: real)
    ensures -0.05 <= r - x <= 0.05
  {
    var y := x * 10.0;
    var f := y.Floor;
    var frac := y - f as real;
    var n := if frac < 0.5 then f else if frac > 0.5 then f + 1 else if f % 2 == 0 then f else f + 1;
    n as real / 10.0
  }

  /** Rounding never reverses the order of two values. */
  lemma Round1Monotone(x: real, y: real)
    requires x <= y
    ensures Round1(x) <= Round1(y)
  {
    var fx, fy := (x * 10.0).Floor, (y * 10.0).Floor;
    assert fx <= fy;
  }

  /** A multiple of 0.1 is its own rounding. */
  lemma Round1Tenths(n: int)
    ensures Round1(n as real / 10.0) == n as real / 10.0
  {
    assert (n as real / 10.0) * 10.0 == n as real;
  }

  /**
   * The background percent of a window (line 216-217): when class 0 occurs,
   * the share of the SMALLEST label value, rounded to one decimal; 0 otherwise.
   */
  function BackgroundPercent(target: Label): real
  {
    var flat := Flatten(target);
    if 0 in flat then Round1(Percent(CountOf(flat, MinOf(flat)), |flat|)) else 0.0
  }

  /** With no negative labels, the background percent is class 0's share of the window. */
  lemma BackgroundIsClassZero(target: Label)
    requires |Flatten(target)| > 0
    requires forall x :: x in Flatten(target) ==> x >= 0
    ensures BackgroundPercent(target) == Round1(Percent(CountOf(Flatten(target), 0), |Flatten(target)|))
  {
    var flat := Flatten(target);
    if 0 in flat {
      assert MinOf(flat) == 0;
    } else {
      assert Percent(CountOf(flat, 0), |flat|) == 0.0;
      Round1Tenths(0);
    }
  }

  // ---- minimum_annotated_percent ----

  /** `minimum_annotated_percent`: accept when the background share leaves at least `map` percent annotated. */
  predicate MinimumAnnotatedPercent(backgroundPercent: real, minAnnotated: int)
  {
    backgroundPercent <= (100 - minAnnotated) as real
  }

  /**
   * On the exact class-0 share `p` of a window with no negative labels:
   * `p <= 100 - map` is accepted (the bound itself included) and
   * `p > 100 - map + 0.05` is rejected; only the rounding band between may go either way.
   */
  lemma MinimumAnnotatedExact(target: Label, minAnnotated: int)
    requires |Flatten(target)| > 0
    requires forall x :: x in Flatten(target) ==> x >= 0
    ensures var p := Percent(CountOf(Flatten(target), 0), |Flatten(target)|);
      && (p <= (100 - minAnnotated) as real ==> MinimumAnnotatedPercent(BackgroundPercent(target), minAnnotated))
      && (p > (100 - minAnnotated) as real + 0.05 ==> !MinimumAnnotatedPercent(BackgroundPercent(target), minAnnotated))
  {
    var p := Percent(CountOf(Flatten(target), 0), |Flatten(target)|);
    BackgroundIsClassZero(target);
    var bound := (100 - minAnnotated) as real;
    if p <= bound {
      Round1Monotone(p, bound);
      Round1Tenths((100 - minAnnotated) * 10);
      assert ((100 - minAnnotated) * 10) as real / 10.0 == bound;
    }
  }

  // ---- class_proportion ----

  /** `str(c)` for a class id `c`: decimal digits without a leading zero. */
  predicate IsClassKey(key: string)
  {
    && |key| > 0
    && (forall i :: 0 <= i < |key| ==> IsDigit(key[i]))
    && (key[0] != '0' || |key| == 1)
  }

  /** The class id written by a class key. */
  function KeyValue(key: string): nat
    requires forall i :: 0 <= i < |key| ==> IsDigit(key[i])
  {
    if |key| == 0 then 0
    else
      assert IsDigit(key[|key| - 1]);
      KeyValue(key[..|key| - 1]) * 10 + (key[|key| - 1] as int - '0' as int)
  }

  /** A threshold compares with a float percentage: an int, a float, or a bool (as 0 or 1). */
  predicate IsThreshold(v: Value)
  {
    v.VInt? || v.VFloat? || v.VBool?
  }

  function ThresholdOf(v: Value): real
    requires IsThreshold(v)
  {
    if v.VInt? then v.i as real else if v.VFloat? then v.f else if v.b then 1.0 else 0.0
  }

  /**
   * The per-class entries of the rule set, those at position 2 and later:
   * after `method` and `map` they rebuild the whole rule set.
   */
  function Thresholds(d: SamplingDict): (r: SamplingDict)
    ensures |r| == if |d| <= 2 then 0 else |d| - 2
    ensures forall i :: 0 <= i < |r| ==> r[i] == d[i + 2]
    ensures |d| >= 2 ==> d[..2] + r == d
  {
    if |d| <= 2 then [] else d[2..]
  }

  /**
   * Every per-class entry names a class in `0..numClasses` and carries a
   * number; otherwise the lookup `prop_classes[key]` or the comparison raises.
   */
  predicate ClassKeysOk(entries: SamplingDict, numClasses: nat)
  {
    forall i :: 0 <= i < |entries| ==> EntryKeyOk(entries[i], numClasses)
  }

  predicate EntryKeyOk(entry: (string, Value), numClasses: nat)
  {
    IsClassKey(entry.0) && KeyValue(entry.0) <= numClasses && IsThreshold(entry.1)
  }

  /** `prop_classes[str(c)]`: the rounded share of class `c`, 0 when the class is absent. */
  function ClassPercent(flat: seq<int>, total: nat, c: nat): real
    requires total > 0
  {
    if c in flat then Round1(Percent(CountOf(flat, c), total)) else 0.0
  }

  predicate EntryMet(entry: (string, Value), flat: seq<int>, total: nat, numClasses: nat)
    requires total > 0 && EntryKeyOk(entry, numClasses)
  {
    ClassPercent(flat, total, KeyValue(entry.0)) >= ThresholdOf(entry.1)
  }

  /**
   * `sum(condition)`: how many per-class entries the window meets. It is at
   * most the number of entries, and equal to it exactly when every entry is met.
   */
  function MetCount(entries: SamplingDict, flat: seq<int>, total: nat, numClasses: nat): (n: nat)
    requires total > 0 && ClassKeysOk(entries, numClasses)
    ensures n <= |entries|
    ensures n == |entries| <==> forall i :: 0 <= i < |entries| ==> EntryMet(entries[i], flat, total, numClasses)
  {
    if |entries| == 0 then 0
    else
      assert forall i :: 1 <= i < |entries| ==> entries[i] == entries[1..][i - 1];
      (if EntryMet(entries[0], flat, total, numClasses) then 1 else 0) + MetCount(entries[1..], flat, total, numClasses)
  }

  /** `class_proportion`: accept when the number of met per-class entries is `num_classes + 1`. */
  predicate ClassProportion(target: Label, samplesSize: nat, numClasses: nat, d: SamplingDict)
    requires samplesSize > 0 && ClassKeysOk(Thresholds(d), numClasses)
  {
    MetCount(Thresholds(d), Flatten(target), samplesSize * samplesSize, numClasses) == numClasses + 1
  }

  /** A rule set listing fewer than `num_classes + 1` classes rejects every window. */
  lemma ClassProportionNeedsEveryClass(target: Label, samplesSize: nat, numClasses: nat, d: SamplingDict)
    requires samplesSize > 0 && ClassKeysOk(Thresholds(d), numClasses)
    requires |Thresholds(d)| < numClasses + 1
    ensures !ClassProportion(target, samplesSize, numClasses, d)
  {
  }

  /**
   * A rule set listing `num_classes + 1` classes accepts a window exactly when
   * every listed class reaches its threshold.
   */
  lemma ClassProportionAllMet(target: Label, samplesSize: nat, numClasses: nat, d: SamplingDict)
    requires samplesSize > 0 && ClassKeysOk(Thresholds(d), numClasses)
    requires |Thresholds(d)| == numClasses + 1
    ensures ClassProportion(target, samplesSize, numClasses, d) <==>
      forall i :: 2 <= i < |d| ==>
        ClassPercent(Flatten(target), samplesSize * samplesSize, KeyValue(d[i].0)) >= ThresholdOf(d[i].1)
  {
    var entries := Thresholds(d);
    assert forall i :: 2 <= i < |d| ==> d[i] == entries[i - 2];
  }

  /** A class absent from the window counts as 0 percent, so it fails any positive threshold. */
  lemma AbsentClassFails(target: Label, samplesSize: nat, numClasses: nat, entry: (string, Value))
    requires samplesSize > 0 && EntryKeyOk(entry, numClasses)
    requires KeyValue(entry.0) !in Flatten(target) && ThresholdOf(entry.1) > 0.0
    ensures !EntryMet(entry, Flatten(target), samplesSize * samplesSize, numClasses)
  {
  }

  // ---- dispatch on the method list ----

  /** What the dispatch does with a window; `Skip` neither writes it nor counts it as excluded. */
  datatype Verdict = Accept | Exclude | Skip

  /** `params['sample']['sampling']['method']`, as the sequence the dispatch indexes. */
  function Methods(d: SamplingDict): seq<Value>
    requires |d| > 0 && WellFormed(d)
  {
    assert EntryOk(0, d[0].0, d[0].1);
    Elements(d[0].1)
  }

  /** `params['sample']['sampling']['map']`. */
  function MapThreshold(d: SamplingDict): int
    requires |d| > 1 && WellFormed(d)
  {
    assert EntryOk(1, d[1].0, d[1].1);
    d[1].1.i
  }

  /**
   * The rule set has passed validation, and every lookup the dispatch can make
   * succeeds: `map` is present when `min_annotated_percent` is used, and the
   * per-class entries are readable when `class_proportion` is used.
   */
  predicate Ready(d: SamplingDict, numClasses: nat, samplesSize: nat)
  {
    && |d| > 0 && WellFormed(d) && samplesSize > 0
    && (VStr(MinAnnotatedName) in Methods(d) ==> |d| > 1)
    && (VStr(ClassProportionName) in Methods(d) ==> ClassKeysOk(Thresholds(d), numClasses))
  }

  /** Method `m` of the list accepts the window. */
  predicate MethodAccepts(m: Value, d: SamplingDict, numClasses: nat, samplesSize: nat, target: Label, bg: real)
    requires Ready(d, numClasses, samplesSize) && m in Methods(d)
  {
    if m == VStr(MinAnnotatedName) then MinimumAnnotatedPercent(bg, MapThreshold(d))
    else m == VStr(ClassProportionName) && ClassProportion(target, samplesSize, numClasses, d)
  }

  /**
   * The dispatch of lines 219-272. One method: the window is accepted when that
   * method accepts and excluded otherwise. Two different methods: they are tried
   * in the listed order and the window is accepted when both accept; it is
   * excluded only when the first accepts and the second rejects, and a rejection
   * by the first leaves it neither written nor counted. Any other method list
   * accepts nothing.
   */
  function Dispatch(d: SamplingDict, numClasses: nat, samplesSize: nat, target: Label, bg: real): (v: Verdict)
    requires Ready(d, numClasses, samplesSize)
    ensures var ms := Methods(d);
      v == Accept <==>
        || (|ms| == 1 && MethodAccepts(ms[0], d, numClasses, samplesSize, target, bg))
        || (|ms| == 2 && ms[0] != ms[1] && MethodAccepts(ms[0], d, numClasses, samplesSize, target, bg)
                                        && MethodAccepts(ms[1], d, numClasses, samplesSize, target, bg))
    ensures var ms := Methods(d);
      v == Exclude <==>
        || (|ms| == 1 && !MethodAccepts(ms[0], d, numClasses, samplesSize, target, bg))
        || (|ms| == 2 && ms[0] != ms[1] && MethodAccepts(ms[0], d, numClasses, samplesSize, target, bg)
                                        && !MethodAccepts(ms[1], d, numClasses, samplesSize, target, bg))
  {
    var ms := Methods(d);
    assert forall j :: 0 <= j < |ms| ==> IsMethodName(ms[j]) by {
      assert EntryOk(0, d[0].0, d[0].1);
    }
    if |ms| == 1 then
      if ms[0] == VStr(MinAnnotatedName) then
        if MinimumAnnotatedPercent(bg, MapThreshold(d)) then Accept else Exclude
      else if ms[0] == VStr(ClassProportionName) then
        if ClassProportion(target, samplesSize, numClasses, d) then Accept else Exclude
      else Skip
    else if |ms| == 2 then
      if ms[0] == VStr(MinAnnotatedName) then
        if MinimumAnnotatedPercent(bg, MapThreshold(d)) then
          if ms[1] == VStr(ClassProportionName) then
            if ClassProportion(target, samplesSize, numClasses, d) then Accept else Exclude
          else Skip
        else Skip
      else if ms[0] == VStr(ClassProportionName) then
        if ClassProportion(target, samplesSize, numClasses, d) then
          if ms[1] == VStr(MinAnnotatedName) then
            if MinimumAnnotatedPercent(bg, MapThreshold(d)) then Accept else Exclude
          else Skip
        else Skip
      else Skip
    else Skip
  }
}
