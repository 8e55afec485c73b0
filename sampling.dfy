/**
 * The `sampling` rule set of the parameter file and its validation,
 * `check_sampling_dict`. The rule set is an ordered mapping whose meaning is
 * positional: entry 0 is `method` (the list of sampling methods), entry 1 is
 * `map` (the minimum annotated percent) and every later entry maps a class id,
 * written as a string, to that class's minimum percent.
 */
module Sampling {
  import opened Wrappers

  /** A value read from the parameter file. */
  datatype Value =
    | VInt(i: int)
    | VFloat(f: real)
    | VBool(b: bool)
    | VStr(s: string)
    | VList(items: seq<Value>)
    | VNone

  /** The ordered `sampling` mapping, as its list of (key, value) entries. */
  type SamplingDict = seq<(string, Value)>

  const MinAnnotatedName: string := "min_annotated_percent"
  const ClassProportionName: string := "class_proportion"

  /** Why `check_sampling_dict` raises. */
  datatype SamplingError =
    | BadFirstKey(key: string)        // first key is not `method`
    | BadMethod(name: Value)          // an element of the method list is not a known method
    | MethodNotSized(value: Value)    // `len()` of the method value fails (a number, a bool, None)
    | BadSecondKey(key: string)       // second key is not `map`
    | MapNotInt(value: Value)         // the `map` value's type is not exactly `int`
    | KeyNotInt(key: string)          // a later key is not accepted by Python's `int()`

  predicate IsMethodName(v: Value)
  {
    v == VStr(MinAnnotatedName) || v == VStr(ClassProportionName)
  }

  /** The elements `value[j]` for `j` in `range(len(value))`: a list's items, a string's one-character strings. */
  function Elements(v: Value): (r: seq<Value>)
    requires v.VList? || v.VStr?
    ensures |r| == if v.VList? then |v.items| else |v.s|
  {
    if v.VList? then v.items else seq(|v.s|, j requires 0 <= j < |v.s| => VStr([v.s[j]]))
  }

  // ---- Python's int(str) syntax ----

  predicate IsDigit(c: char) { '0' <= c <= '9' }

  /**
   * The white space `int()` strips around the digits: the ASCII characters
   * 9-13 and 32, and the non-ASCII characters for which `str.isspace()` holds.
   * The ASCII separators 28-31 are `str.isspace()` characters too, but
   * `int()` does not strip them.
   */
  const Whitespace: set<char> := {
    ' ', '\t', '\n', '\U{000B}', '\U{000C}', '\r',
    '\U{0085}', '\U{00A0}', '\U{1680}',
    '\U{2000}', '\U{2001}', '\U{2002}', '\U{2003}', '\U{2004}', '\U{2005}', '\U{2006}',
    '\U{2007}', '\U{2008}', '\U{2009}', '\U{200A}',
    '\U{2028}', '\U{2029}', '\U{202F}', '\U{205F}', '\U{3000}'
  }

  predicate IsSpace(c: char)
  {
    c in Whitespace
  }

  function TrimStart(s: string): string
  {
    if |s| > 0 && IsSpace(s[0]) then TrimStart(s[1..]) else s
  }

  function TrimEnd(s: string): string
  {
    if |s| > 0 && IsSpace(s[|s| - 1]) then TrimEnd(s[..|s| - 1]) else s
  }

  /** Decimal digits, where a single `_` may separate two digits. */
  predicate DigitRun(s: string)
  {
    |s| > 0 && forall i :: 0 <= i < |s| ==> DigitRunAt(s, i)
  }

  /** Position `i` of a digit run holds a digit, or a `_` between two digits. */
  predicate DigitRunAt(s: string, i: nat)
    requires i < |s|
  {
    IsDigit(s[i]) || (s[i] == '_' && 0 < i < |s| - 1 && IsDigit(s[i - 1]) && IsDigit(s[i + 1]))
  }

  /** `int(s)` succeeds: surrounding white space, an optional sign, then a digit run. */
  predicate ParsesAsInt(s: string)
  {
    var t := TrimEnd(TrimStart(s));
    |t| > 0 && if t[0] == '+' || t[0] == '-' then DigitRun(t[1..]) else DigitRun(t)
  }

  // ---- check_sampling_dict ----

  /** The first element of the method list that is not a known method, if any. */
  function FirstBadMethod(methods: seq<Value>): (r: Option<Value>)
    ensures r.None? <==> forall j :: 0 <= j < |methods| ==> IsMethodName(methods[j])
    ensures r.Some? ==> exists j :: 0 <= j < |methods| && methods[j] == r.value && !IsMethodName(r.value)
                                    && forall k :: 0 <= k < j ==> IsMethodName(methods[k])
  {
    if |methods| == 0 then None
    else if IsMethodName(methods[0]) then
      var rest := FirstBadMethod(methods[1..]);
      assert forall j :: 1 <= j < |methods| ==> methods[j] == methods[1..][j - 1];
      rest
    else Some(methods[0])
  }

  /** The checks made on entry `i`, in the order the source makes them. */
  function CheckEntry(i: nat, key: string, value: Value): Option<SamplingError>
  {
    if i == 0 then
      if key != "method" then Some(BadFirstKey(key))
      else if !(value.VList? || value.VStr?) then Some(MethodNotSized(value))
      else match FirstBadMethod(Elements(value))
        case Some(m) => Some(BadMethod(m))
        case None => None
    else if i == 1 then
      if key != "map" then Some(BadSecondKey(key))
      else if !value.VInt? then Some(MapNotInt(value))
      else None
    else if ParsesAsInt(key) then None
    else Some(KeyNotInt(key))
  }

  /** What entry `i` must satisfy for the rule set to pass validation. */
  predicate EntryOk(i: nat, key: string, value: Value)
  {
    if i == 0 then
      key == "method" && (value.VList? || value.VStr?)
      && forall j :: 0 <= j < |Elements(value)| ==> IsMethodName(Elements(value)[j])
    else if i == 1 then key == "map" && value.VInt?
    else ParsesAsInt(key)
  }

  /** A rule set that `check_sampling_dict` lets through. */
  predicate WellFormed(d: SamplingDict)
  {
    forall i :: 0 <= i < |d| ==> EntryOk(i, d[i].0, d[i].1)
  }

  lemma CheckEntryOk(i: nat, key: string, value: Value)
    ensures CheckEntry(i, key, value).None? <==> EntryOk(i, key, value)
  {
  }

  /** Runs the checks from entry `i` on and stops at the first entry that fails. */
  function CheckFrom(d: SamplingDict, i: nat): (r: Result<(), SamplingError>)
    requires i <= |d|
    ensures r.Success? <==> forall j :: i <= j < |d| ==> EntryOk(j, d[j].0, d[j].1)
    ensures r.Failure? ==> exists j :: i <= j < |d| && CheckEntry(j, d[j].0, d[j].1) == Some(r.error)
                                       && forall k :: i <= k < j ==> EntryOk(k, d[k].0, d[k].1)
    decreases |d| - i
  {
    if i == |d| then Success(())
    else
      CheckEntryOk(i, d[i].0, d[i].1);
      match CheckEntry(i, d[i].0, d[i].1)
      case Some(e) => Failure(e)
      case None => CheckFrom(d, i + 1)
  }

  /**
   * `check_sampling_dict`: returns normally exactly when the rule set is well
   * formed, and otherwise reports the error of the first entry that fails.
   */
  function CheckSamplingDict(d: SamplingDict): (r: Result<(), SamplingError>)
    ensures r.Success? <==> WellFormed(d)
    ensures r.Failure? ==> exists j :: 0 <= j < |d| && CheckEntry(j, d[j].0, d[j].1) == Some(r.error)
                                       && forall k :: 0 <= k < j ==> EntryOk(k, d[k].0, d[k].1)
  {
    CheckFrom(d, 0)
  }

  /** The rule set is refused when its first key is not `method`. */
  lemma RejectsBadFirstKey(d: SamplingDict)
    requires |d| > 0 && d[0].0 != "method"
    ensures CheckSamplingDict(d) == Failure(BadFirstKey(d[0].0))
  {
  }

  /** A method string, unlike a list, is iterated character by character, so only the empty string passes. */
  lemma MethodStringPassesOnlyWhenEmpty(s: string)
    ensures EntryOk(0, "method", VStr(s)) <==> s == ""
  {
    if s != "" {
      assert Elements(VStr(s))[0] == VStr([s[0]]);
    }
  }

  /** A boolean `map` is refused: its type is `bool`, not `int`. */
  lemma RejectsBoolMap(m: Value, b: bool)
    requires IsMethodName(m)
    ensures CheckSamplingDict([("method", VList([m])), ("map", VBool(b))]) == Failure(MapNotInt(VBool(b)))
  {
    var d := [("method", VList([m])), ("map", VBool(b))];
    assert FirstBadMethod([m]) == None;
    assert CheckEntry(0, d[0].0, d[0].1) == None;
    assert CheckFrom(d, 1) == Failure(MapNotInt(VBool(b)));
  }
  /** A class key padded with a no-break space still parses, as `int("\\xa01")` does. */
  lemma AcceptsNoBreakSpaceKey()
    ensures ParsesAsInt(['\U{00A0}', '1', '\U{3000}'])
  {
    var t := TrimEnd(TrimStart(['\U{00A0}', '1', '\U{3000}']));
    assert TrimStart(['\U{00A0}', '1', '\U{3000}']) == ['1', '\U{3000}'];
    assert TrimEnd(['1', '\U{3000}']) == ['1'];
    assert DigitRun(t);
  }

  /** A key led by the ASCII file separator U+001C does not parse: `int()` does not strip it. */
  lemma RejectsSeparatorPaddedKey()
    ensures !ParsesAsInt(['\U{001C}', '1'])
  {
    assert TrimStart(['\U{001C}', '1']) == ['\U{001C}', '1'];
    assert TrimEnd(['\U{001C}', '1']) == ['\U{001C}', '1'];
    assert !DigitRunAt(['\U{001C}', '1'], 0);
  }

  /** An underscore must sit between two digits: `int("1_")` fails, `int("1_0")` succeeds. */
  lemma UnderscoreBetweenDigits()
    ensures !ParsesAsInt("1_") && ParsesAsInt("1_0")
  {
    assert TrimEnd(TrimStart("1_")) == "1_";
    assert TrimEnd(TrimStart("1_0")) == "1_0";
    assert !DigitRunAt("1_", 1);
  }

  /** A later key that is not an integer makes the check fail at that key. */
  lemma RejectsNonIntegerKey(m: Value, k: int, v: Value)
    requires IsMethodName(m)
    ensures CheckSamplingDict([("method", VList([m])), ("map", VInt(k)), ("x1", v)]) == Failure(KeyNotInt("x1"))
  {
    var d := [("method", VList([m])), ("map", VInt(k)), ("x1", v)];
    assert FirstBadMethod([m]) == None;
    assert CheckEntry(0, d[0].0, d[0].1) == None;
    assert TrimEnd(TrimStart("x1")) == "x1";
    assert !DigitRunAt("x1", 0);
    assert !ParsesAsInt("x1");
    assert CheckFrom(d, 2) == Failure(KeyNotInt("x1"));
  }
}
