/** CISCO-ENTITY-SENSOR-MIB vocabulary of the Cisco temperature/DOM plugin
    (cmk/base/plugins/agent_based/cisco_temperature.py): threshold
    severities and relations, the scale table, and the two ways of turning a
    sensor's device thresholds into (warn, crit) levels. */
module CiscoSensor {
  import opened Base
  import opened Dicts
  import opened Sorting
  import Strings

  /** entSensorThresholdRelation. */
  datatype Relation = LessThan | LessOrEqual | GreaterThan | GreaterOrEqual | EqualTo | NotEqualTo

  /** entSensorThresholdSeverity. */
  datatype Severity = Other | Minor | Major | Critical

  /** `EntSensorThresholdRelation(n)`: None where the enum raises ValueError. */
  function RelationFromCode(n: int): (r: Option<Relation>)
    ensures r.Some? <==> 1 <= n <= 6
  {
    if n == 1 then Some(LessThan)
    else if n == 2 then Some(LessOrEqual)
    else if n == 3 then Some(GreaterThan)
    else if n == 4 then Some(GreaterOrEqual)
    else if n == 5 then Some(EqualTo)
    else if n == 6 then Some(NotEqualTo)
    else None
  }

  /** `EntSensorThresholdSeverity(n)`: None where the enum raises ValueError. */
  function SeverityFromCode(n: int): (r: Option<Severity>)
    ensures r.Some? <==> n in {1, 10, 20, 30}
  {
    if n == 1 then Some(Other)
    else if n == 10 then Some(Minor)
    else if n == 20 then Some(Major)
    else if n == 30 then Some(Critical)
    else None
  }

  /** The integer value of a relation; reading it back gives the relation. */
  function RelationCode(rel: Relation): (n: int)
    ensures RelationFromCode(n) == Some(rel)
  {
    match rel
    case LessThan => 1
    case LessOrEqual => 2
    case GreaterThan => 3
    case GreaterOrEqual => 4
    case EqualTo => 5
    case NotEqualTo => 6
  }

  /** The integer value of a severity; reading it back gives the severity. */
  function SeverityCode(sev: Severity): (n: int)
    ensures SeverityFromCode(n) == Some(sev)
  {
    match sev
    case Other => 1
    case Minor => 10
    case Major => 20
    case Critical => 30
  }

  datatype Threshold = Threshold(severity: Severity, relation: Relation, value: real)

  /** entSensorScale code to the power of ten it stands for; None where the
      table lookup raises KeyError. */
  function ScaleExponent(code: string): (r: Option<int>)
    ensures r.Some? ==> -24 <= r.value <= 24 && r.value % 3 == 0
  {
    match code
    case "1" => Some(-24)  // yocto
    case "2" => Some(-21)  // zepto
    case "3" => Some(-18)  // atto
    case "4" => Some(-15)  // femto
    case "5" => Some(-12)  // pico
    case "6" => Some(-9)   // nano
    case "7" => Some(-6)   // micro
    case "8" => Some(-3)   // milli
    case "9" => Some(0)    // units
    case "10" => Some(3)   // kilo
    case "11" => Some(6)   // mega
    case "12" => Some(9)   // giga
    case "13" => Some(12)  // tera
    case "14" => Some(18)  // exa
    case "15" => Some(15)  // peta
    case "16" => Some(21)  // zetta
    case "17" => Some(24)  // yotta
    case _ => None
  }

  /** Exactly the codes "1" to "17" are in the scale table: any other text,
      "01", "18" or "abc" included, makes the lookup raise KeyError. */
  lemma ScaleCodesKnown(code: string)
    ensures ScaleExponent(code).Some? <==>
      code in {"1", "2", "3", "4", "5", "6", "7", "8", "9", "10", "11", "12", "13", "14", "15", "16", "17"}
  {
  }

  /** The exponent of the k-th metric prefix from yocto (k = 1) to yotta
      (k = 17) in steps of a thousand, with exa and peta swapped. */
  function MetricExponent(k: int): int {
    if k == 14 then 18 else if k == 15 then 15 else 3 * (k - 9)
  }

  /** The scale code k, written in decimal, denotes MetricExponent(k). */
  lemma ScaleCode(k: int)
    requires 1 <= k <= 17
    ensures ScaleExponent(Strings.NatToString(k)) == Some(MetricExponent(k))
  {
    if k < 10 {
      ScaleCodeOneDigit(k);
    } else {
      ScaleCodeTwoDigits(k);
    }
  }

  lemma ScaleCodeOneDigit(k: int)
    requires 1 <= k <= 9
    ensures ScaleExponent(Strings.NatToString(k)) == Some(MetricExponent(k))
  {
    assert Strings.NatToString(k) == ['0' + k as char];
  }

  lemma ScaleCodeTwoDigits(k: int)
    requires 10 <= k <= 17
    ensures ScaleExponent(Strings.NatToString(k)) == Some(MetricExponent(k))
  {
    assert Strings.NatToString(k) == ['1', '0' + (k - 10) as char];
  }

  /** The codes 1 to 17 follow the metric prefixes, except that exa (code 14)
      and peta (code 15) are swapped, so the table is not monotone; the
      reading of any other code raises KeyError. */
  lemma ScaleTableIsMetricWithExaPetaSwapped()
    ensures forall k :: 1 <= k <= 17 ==> ScaleExponent(Strings.NatToString(k)) == Some(MetricExponent(k))
    ensures ScaleExponent("14") == Some(18) && ScaleExponent("15") == Some(15)
    ensures ScaleExponent("0") == None && ScaleExponent("18") == None && ScaleExponent("") == None
  {
    forall k | 1 <= k <= 17
      ensures ScaleExponent(Strings.NatToString(k)) == Some(MetricExponent(k))
    {
      ScaleCode(k);
    }
  }

  /** 10 raised to an integer power, exactly. */
  function Pow10(e: int): (r: real)
    ensures r > 0.0
    ensures e == 0 ==> r == 1.0
  {
    if e >= 0 then Strings.Pow10Nat(e) as real else 1.0 / Strings.Pow10Nat(-e) as real
  }

  /** Pow10 is `10.0 ** e` for every integer e: one step up multiplies by
      ten, across zero as well. */
  lemma Pow10Step(e: int)
    ensures Pow10(e + 1) == 10.0 * Pow10(e)
  {
  }

  /** `10.0 ** (exponent - precision)`: the factor that turns raw sensor and
      threshold values into units. */
  function ScaleFactor(exponent: int, precision: int): real {
    Pow10(exponent - precision)
  }

  /** A raw reading or threshold in units: `value * factor`. */
  function Scale(value: real, factor: real): real {
    value * factor
  }

  // ---- specified thresholds -------------------------------------------------

  predicate Selects(t: Threshold, rel: Relation, sev: Severity) {
    t.relation == rel && t.severity == sev
  }

  /** `{t.severity: t for t in thresholds if t.relation == rel}`. */
  function FilterForRelation(ts: seq<Threshold>, rel: Relation): (r: Dict<Severity, Threshold>)
    ensures DistinctKeys(r)
    ensures forall sev :: Get(r, sev).Some? ==>
      Get(r, sev).value in ts && Get(r, sev).value.relation == rel && Get(r, sev).value.severity == sev
  {
    if ts == [] then []
    else
      var d := FilterForRelation(ts[..|ts| - 1], rel);
      var t := ts[|ts| - 1];
      SetKeepsDistinct(d, t.severity, t);
      if t.relation == rel then Set(d, t.severity, t) else d
  }

  /** The dict keeps, per severity, the LAST threshold with the relation:
      a later entry replaces an earlier one. */
  lemma {:induction false} FilterForRelationLastWins(ts: seq<Threshold>, rel: Relation, sev: Severity)
    ensures Get(FilterForRelation(ts, rel), sev).None? <==>
      forall i :: 0 <= i < |ts| ==> !Selects(ts[i], rel, sev)
    ensures forall i :: (0 <= i < |ts| && Selects(ts[i], rel, sev) &&
                         (forall j :: i < j < |ts| ==> !Selects(ts[j], rel, sev))) ==>
                        Get(FilterForRelation(ts, rel), sev) == Some(ts[i])
  {
    if ts != [] {
      var p := ts[..|ts| - 1];
      FilterForRelationLastWins(p, rel, sev);
      assert forall i :: 0 <= i < |p| ==> p[i] == ts[i];
    }
  }

  /** `_parse_specified_thresholds`: WARN from MINOR, CRIT from MAJOR or else
      CRITICAL, scaled by the factor. */
  function ParseSpecifiedThresholds(ts: seq<Threshold>, rel: Relation, factor: real): (r: Levels)
    ensures r.Some? <==> exists i :: 0 <= i < |ts| && (Selects(ts[i], rel, Major) || Selects(ts[i], rel, Critical))
    ensures r.Some? ==> exists t :: t in ts && (Selects(t, rel, Major) || Selects(t, rel, Critical)) &&
                                   r.value.1 == Scale(t.value, factor)
    ensures r.Some? ==> r.value.0 == r.value.1 || exists t :: t in ts && Selects(t, rel, Minor) && r.value.0 == Scale(t.value, factor)
  {
    FilterForRelationLastWins(ts, rel, Major);
    FilterForRelationLastWins(ts, rel, Critical);
    var filtered := FilterForRelation(ts, rel);
    var warn := Get(filtered, Minor);
    var crit := match Get(filtered, Major) case Some(t) => Some(t) case None => Get(filtered, Critical);
    match crit
    case Some(c) =>
      (match warn
       case Some(w) => Some((Scale(w.value, factor), Scale(c.value, factor)))
       case None => Some((Scale(c.value, factor), Scale(c.value, factor))))
    case None => None
  }

  /** The value of the last threshold with the relation and severity. */
  function LastValue(ts: seq<Threshold>, rel: Relation, sev: Severity): Option<real> {
    if ts == [] then None
    else if Selects(ts[|ts| - 1], rel, sev) then Some(ts[|ts| - 1].value)
    else LastValue(ts[..|ts| - 1], rel, sev)
  }

  lemma {:induction false} FilterForRelationValue(ts: seq<Threshold>, rel: Relation, sev: Severity)
    ensures Get(FilterForRelation(ts, rel), sev).Some? == LastValue(ts, rel, sev).Some?
    ensures Get(FilterForRelation(ts, rel), sev).Some? ==>
      Get(FilterForRelation(ts, rel), sev).value.value == LastValue(ts, rel, sev).value
  {
    if ts != [] {
      FilterForRelationValue(ts[..|ts| - 1], rel, sev);
    }
  }

  /** Levels from thresholds with a known severity: with a MAJOR or else a
      CRITICAL threshold of the relation, CRIT is its scaled value and WARN
      the scaled MINOR value, or CRIT again when there is no MINOR one;
      without MAJOR and CRITICAL there are no levels, even with a MINOR one. */
  lemma SpecifiedThresholdsChoice(ts: seq<Threshold>, rel: Relation, factor: real)
    ensures var warn := LastValue(ts, rel, Minor);
            var crit := if LastValue(ts, rel, Major).Some? then LastValue(ts, rel, Major)
                        else LastValue(ts, rel, Critical);
            ParseSpecifiedThresholds(ts, rel, factor) ==
              if crit.None? then None
              else if warn.None? then Some((Scale(crit.value, factor), Scale(crit.value, factor)))
              else Some((Scale(warn.value, factor), Scale(crit.value, factor)))
  {
    FilterForRelationValue(ts, rel, Minor);
    FilterForRelationValue(ts, rel, Major);
    FilterForRelationValue(ts, rel, Critical);
  }

  // ---- unspecified thresholds -----------------------------------------------

  /** `[t.value * factor for t in thresholds]`. */
  function Scaled(ts: seq<Threshold>, factor: real): (r: seq<real>)
    ensures |r| == |ts|
    ensures forall i :: 0 <= i < |ts| ==> r[i] == Scale(ts[i].value, factor)
  {
    if ts == [] then [] else [Scale(ts[0].value, factor)] + Scaled(ts[1..], factor)
  }

  /** `_parse_unspecified_thresholds`: sort the scaled values and read four
      of them as (crit lower, warn lower, warn upper, crit upper), two as
      (warn upper, crit upper); returns (upper, lower). */
  function ParseUnspecifiedThresholds(ts: seq<Threshold>, factor: real): (r: (Levels, Levels))
    ensures r.0.Some? <==> |ts| == 2 || |ts| == 4
    ensures r.1.Some? <==> |ts| == 4
    ensures r.0.Some? ==> r.0.value.0 <= r.0.value.1
    ensures r.1.Some? ==> r.1.value.1 <= r.1.value.0 <= r.0.value.0
  {
    var s := SortReals(Scaled(ts, factor));
    if |s| == 4 then (Some((s[2], s[3])), Some((s[1], s[0])))
    else if |s| == 2 then (Some((s[0], s[1])), None)
    else (None, None)
  }

  /** Upper levels exist exactly for 2 or 4 thresholds and lower levels
      exactly for 4; the levels are the scaled values themselves, ordered
      crit lower <= warn lower <= warn upper <= crit upper. */
  lemma UnspecifiedThresholdsShape(ts: seq<Threshold>, factor: real)
    ensures var r := ParseUnspecifiedThresholds(ts, factor);
      && (r.0.Some? <==> |ts| == 2 || |ts| == 4)
      && (r.1.Some? <==> |ts| == 4)
      && (|ts| == 2 ==> r.0.value.0 <= r.0.value.1 &&
                        multiset{r.0.value.0, r.0.value.1} == multiset(Scaled(ts, factor)))
      && (|ts| == 4 ==> r.1.value.1 <= r.1.value.0 <= r.0.value.0 <= r.0.value.1 &&
                        multiset{r.1.value.1, r.1.value.0, r.0.value.0, r.0.value.1} ==
                        multiset(Scaled(ts, factor)))
  {
    var s := SortReals(Scaled(ts, factor));
    SortRealsMultiset(Scaled(ts, factor));
    if |s| == 4 {
      SortedFour(s);
    } else if |s| == 2 {
      SortedTwo(s);
    }
  }

  lemma SortedFour(s: seq<real>)
    requires |s| == 4 && Sorted(s)
    ensures s[0] <= s[1] <= s[2] <= s[3] && multiset(s) == multiset{s[0], s[1], s[2], s[3]}
  {
    assert s == [s[0], s[1], s[2], s[3]];
  }

  lemma SortedTwo(s: seq<real>)
    requires |s| == 2 && Sorted(s)
    ensures s[0] <= s[1] && multiset(s) == multiset{s[0], s[1]}
  {
    assert s == [s[0], s[1]];
  }

  /** Four thresholds in any order, here with values d, a, c, b where
      a < b < c < d, and whatever their severities and relations: upper
      levels (c, d), lower levels (b, a), so the lower CRIT is the smallest
      value. */
  lemma UnspecifiedFourThresholdsExample(ts: seq<Threshold>, a: real, b: real, c: real, d: real)
    requires a < b < c < d
    requires |ts| == 4 && ts[0].value == d && ts[1].value == a && ts[2].value == c && ts[3].value == b
    ensures ParseUnspecifiedThresholds(ts, 1.0) == (Some((c, d)), Some((b, a)))
  {
    var raw := Scaled(ts, 1.0);
    assert raw == [d, a, c, b];
    SortFour(a, b, c, d);
  }

  /** The insertion sort of [d, a, c, b], insertion by insertion. */
  lemma SortFour(a: real, b: real, c: real, d: real)
    requires a < b < c < d
    ensures SortReals([d, a, c, b]) == [a, b, c, d]
  {
    assert [d, a, c, b][1..] == [a, c, b] && [a, c, b][1..] == [c, b] && [c, b][1..] == [b];
    assert SortReals([b]) == [b];
    assert SortReals([c, b]) == Insert(c, [b]) == [b, c];
    assert Insert(a, [b, c]) == [a, b, c];
    assert SortReals([a, c, b]) == [a, b, c];
    assert Insert(d, [c]) == [c, d];
    assert Insert(d, [b, c]) == [b, c, d];
    assert Insert(d, [a, b, c]) == [a, b, c, d];
  }

  /** Two thresholds with values y, x where x <= y, whatever their
      severities and relations: upper levels (x, y) and no lower levels. */
  lemma UnspecifiedTwoThresholdsExample(ts: seq<Threshold>, x: real, y: real)
    requires x <= y
    requires |ts| == 2 && ts[0].value == y && ts[1].value == x
    ensures ParseUnspecifiedThresholds(ts, 1.0) == (Some((x, y)), None)
  {
    assert Scaled(ts, 1.0) == [y, x];
    assert [y, x][1..] == [x] && SortReals([x]) == [x];
    assert SortReals([y, x]) == Insert(y, [x]) == [x, y];
  }

  // ---- which interpretation applies ------------------------------------------

  /** `[t for t in thresholds if t.severity is OTHER]`. */
  function OtherSeverityOnly(ts: seq<Threshold>): (r: seq<Threshold>)
    ensures forall t :: t in r <==> t in ts && t.severity == Other
  {
    if ts == [] then []
    else (if ts[0].severity == Other then [ts[0]] else []) + OtherSeverityOnly(ts[1..])
  }

  predicate HasSpecifiedSeverity(ts: seq<Threshold>) {
    exists i :: 0 <= i < |ts| && ts[i].severity != Other
  }

  /** Device levels (upper, lower) of a sensor whose status is OK
      (cisco_temperature.py:282-319): dBm sensors ("14") always read the
      thresholds as unspecified; celsius sensors use the specified reading
      (GREATER_OR_EQUAL for upper, LESS_THAN for lower) as soon as one
      threshold has a severity other than OTHER, and otherwise the
      unspecified reading of the OTHER thresholds. */
  function DeviceLevels(sensorType: string, ts: seq<Threshold>, factor: real): (r: (Levels, Levels))
    ensures ts == [] ==> r == (None, None)
    ensures sensorType == "14" ==> (r.0.Some? <==> |ts| == 2 || |ts| == 4) && (r.1.Some? <==> |ts| == 4)
    // the source of the levels: dBm always takes the unspecified reading of
    // all thresholds; celsius takes the specified reading (>= for upper, <
    // for lower) when some severity is not OTHER, else the unspecified
    // reading of the OTHER thresholds; every path scales by `factor`
    ensures sensorType == "14" ==> r == ParseUnspecifiedThresholds(ts, factor)
    ensures sensorType != "14" && HasSpecifiedSeverity(ts) ==>
      r == (ParseSpecifiedThresholds(ts, GreaterOrEqual, factor), ParseSpecifiedThresholds(ts, LessThan, factor))
    ensures sensorType != "14" && !HasSpecifiedSeverity(ts) ==>
      r == ParseUnspecifiedThresholds(OtherSeverityOnly(ts), factor)
    ensures sensorType != "14" && HasSpecifiedSeverity(ts) ==>
      && (r.0.Some? <==> exists i :: 0 <= i < |ts| && (Selects(ts[i], GreaterOrEqual, Major) || Selects(ts[i], GreaterOrEqual, Critical)))
      && (r.1.Some? <==> exists i :: 0 <= i < |ts| && (Selects(ts[i], LessThan, Major) || Selects(ts[i], LessThan, Critical)))
  {
    if sensorType == "14" then ParseUnspecifiedThresholds(ts, factor)
    else
      var unspecified := OtherSeverityOnly(ts);
      if HasSpecifiedSeverity(ts) then
        (ParseSpecifiedThresholds(ts, GreaterOrEqual, factor), ParseSpecifiedThresholds(ts, LessThan, factor))
      else if unspecified != [] then ParseUnspecifiedThresholds(unspecified, factor)
      else (None, None)
  }

  /** For a celsius sensor whose thresholds all have severity OTHER the
      unspecified reading sees every threshold; with no thresholds at all
      there are no levels. */
  lemma {:induction false} CelsiusAllOtherIsUnspecified(ts: seq<Threshold>, factor: real)
    requires !HasSpecifiedSeverity(ts)
    ensures DeviceLevels("8", ts, factor) == ParseUnspecifiedThresholds(ts, factor)
  {
    OtherOnlyKeepsAllOther(ts);
    if ts == [] {
      assert SortReals(Scaled(ts, factor)) == [];
    }
  }

  lemma {:induction false} OtherOnlyKeepsAllOther(ts: seq<Threshold>)
    requires forall i :: 0 <= i < |ts| ==> ts[i].severity == Other
    ensures OtherSeverityOnly(ts) == ts
  {
    if ts != [] {
      OtherOnlyKeepsAllOther(ts[1..]);
      assert ts == [ts[0]] + ts[1..];
    }
  }
}
