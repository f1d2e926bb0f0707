/** Power units of a Huawei OSN device (cmk/base/legacy_checks/huawei_osn_power.py):
    rows of unit name and reading in watts, judged against (warn, crit). */
module HuaweiOsnPower {
  import opened Base
  import Strings

  datatype PowerRow = PowerRow(name: string, reading: string)

  /** `inventory_huawei_osn_power`: every unit, with no parameters. */
  function InventoryHuaweiOsnPower(info: seq<PowerRow>): (r: seq<Service>)
    ensures |r| == |info|
    ensures forall i :: 0 <= i < |info| ==> r[i] == Service(Some(info[i].name), false)
  {
    if info == [] then [] else InventoryHuaweiOsnPower(info[..|info| - 1]) + [Service(Some(info[|info| - 1].name), false)]
  }

  /** The state of a reading: CRIT from crit up, WARN from warn up, else OK. */
  function PowerState(reading: int, warn: int, crit: int): (s: int)
    ensures s == CRIT <==> reading >= crit
    ensures s == WARN <==> warn <= reading < crit
    ensures s == OK <==> reading < warn && reading < crit
  {
    if reading >= crit then CRIT else if reading >= warn then WARN else OK
  }

  /** The results for one matching row: the reading with its metric, always
      OK, then the levels only when the state is not OK. */
  function RowResults(reading: int, warn: int, crit: int): (r: seq<Output>)
    ensures 1 <= |r| <= 2 && Readings(r) == 1
    ensures r[0] == ReportWithPerf(OK, "Current reading: " + Strings.IntToString(reading) + " W",
                                   [Metric("power", reading as real, warn as real, crit as real, 0.0)])
    ensures |r| == 2 <==> PowerState(reading, warn, crit) != OK
    ensures |r| == 2 ==> r[1] == Report(PowerState(reading, warn, crit),
      "(warn/crit at " + Strings.IntToString(warn) + "/" + Strings.IntToString(crit) + " W)")
  {
    var state := PowerState(reading, warn, crit);
    var current := [ReportWithPerf(OK, "Current reading: " + Strings.IntToString(reading) + " W",
                                   [Metric("power", reading as real, warn as real, crit as real, 0.0)])];
    var levels := if state != OK
      then [Report(state, "(warn/crit at " + Strings.IntToString(warn) + "/" + Strings.IntToString(crit) + " W)")]
      else [];
    assert current[..0] == [] && (levels == [] || levels[..0] == []);
    ReadingsAppend(current, levels);
    current + levels
  }

  /** `check_huawei_osn_power`: the results of every row named `item`, in row
      order (there is no break); `int(reading)` may raise ValueError. */
  function CheckHuaweiOsnPower(item: string, levels: (int, int), info: seq<PowerRow>): (r: Result<seq<Output>>)
    ensures (forall i :: 0 <= i < |info| ==> info[i].name != item) ==> r == Ok([])
    ensures r.Ok? <==> forall i :: 0 <= i < |info| && info[i].name == item ==> Strings.ParseInt(info[i].reading).Some?
  {
    if info == [] then Ok([])
    else
      var init := info[..|info| - 1];
      assert forall i :: 0 <= i < |init| ==> init[i] == info[i];
      RowStep(item, levels, CheckHuaweiOsnPower(item, levels, init), info[|info| - 1])
  }

  /** One iteration of the loop: a row named `item` adds its results, any
      other row is passed over; an earlier error stays. */
  function RowStep(item: string, levels: (int, int), earlier: Result<seq<Output>>, row: PowerRow): Result<seq<Output>> {
    match earlier
    case Raised(e) => Raised(e)
    case Ok(outputs) =>
      if row.name != item then Ok(outputs)
      else
        match Strings.ParseInt(row.reading)
        case None => Raised("ValueError")
        case Some(reading) => Ok(outputs + RowResults(reading, levels.0, levels.1))
  }

  /** How many rows are named `item`. */
  function Matching(item: string, info: seq<PowerRow>): nat {
    if info == [] then 0 else Matching(item, info[..|info| - 1]) + if info[|info| - 1].name == item then 1 else 0
  }

  /** How many "Current reading" results there are. */
  function Readings(outputs: seq<Output>): nat {
    if outputs == [] then 0 else Readings(outputs[..|outputs| - 1]) + if outputs[|outputs| - 1].ReportWithPerf? then 1 else 0
  }

  lemma {:induction false} ReadingsAppend(a: seq<Output>, b: seq<Output>)
    ensures Readings(a + b) == Readings(a) + Readings(b)
  {
    if b == [] {
      assert a + b == a;
    } else {
      assert (a + b)[..|a + b| - 1] == a + b[..|b| - 1];
      assert (a + b)[|a + b| - 1] == b[|b| - 1];
      ReadingsAppend(a, b[..|b| - 1]);
    }
  }

  /** Every row named `item` is evaluated (there is no break): there is
      exactly one reading per matching row. */
  lemma {:induction false} OneReadingPerMatchingRow(item: string, levels: (int, int), info: seq<PowerRow>)
    requires CheckHuaweiOsnPower(item, levels, info).Ok?
    ensures Readings(CheckHuaweiOsnPower(item, levels, info).value) == Matching(item, info)
  {
    if info != [] {
      var init, row := info[..|info| - 1], info[|info| - 1];
      assert forall i :: 0 <= i < |init| ==> init[i] == info[i];
      var prev := CheckHuaweiOsnPower(item, levels, init);
      assert prev.Ok?;
      OneReadingPerMatchingRow(item, levels, init);
      if row.name == item {
        var rs := RowResults(Strings.ParseInt(row.reading).value, levels.0, levels.1);
        assert CheckHuaweiOsnPower(item, levels, info).value == prev.value + rs;
        ReadingsAppend(prev.value, rs);
      }
    }
  }

  /** A single unit at or above crit is CRIT, with the levels text. */
  lemma {:induction false} CritUnit(item: string, warn: int, crit: int, reading: int)
    requires reading >= crit
    ensures CheckHuaweiOsnPower(item, (warn, crit), [PowerRow(item, Strings.IntToString(reading))]).Ok?
    ensures CheckHuaweiOsnPower(item, (warn, crit), [PowerRow(item, Strings.IntToString(reading))]).value[1]
         == Report(CRIT, "(warn/crit at " + Strings.IntToString(warn) + "/" + Strings.IntToString(crit) + " W)")
  {
    Strings.ParseIntRoundTrip(reading);
    var info := [PowerRow(item, Strings.IntToString(reading))];
    assert info[..0] == [];
  }

  /** The check of one row named `item`: that row's results, or ValueError
      when its reading is not an int. */
  lemma {:induction false} SingleMatchingRow(item: string, levels: (int, int), row: PowerRow)
    requires row.name == item
    ensures CheckHuaweiOsnPower(item, levels, [row])
         == match Strings.ParseInt(row.reading)
            case None => Raised("ValueError")
            case Some(v) => Ok(RowResults(v, levels.0, levels.1))
  {
    assert [row][..0] == [];
    match Strings.ParseInt(row.reading)
    case None =>
    case Some(v) =>
      var rs := RowResults(v, levels.0, levels.1);
      assert [] + rs == rs;
  }

  /** The outputs of two checks run one after the other: the first error, or
      both outputs in order. */
  function Then(x: Result<seq<Output>>, y: Result<seq<Output>>): Result<seq<Output>> {
    match x
    case Raised(e) => Raised(e)
    case Ok(u) =>
      match y
      case Raised(e) => Raised(e)
      case Ok(v) => Ok(u + v)
  }

  /** The check of two blocks of rows is the check of the first block
      followed by the check of the second; an error in the first block is
      the error of the whole. */
  lemma {:induction false} CheckAppend(item: string, levels: (int, int), a: seq<PowerRow>, b: seq<PowerRow>)
    ensures CheckHuaweiOsnPower(item, levels, a + b)
         == Then(CheckHuaweiOsnPower(item, levels, a), CheckHuaweiOsnPower(item, levels, b))
  {
    if b == [] {
      assert a + b == a;
      match CheckHuaweiOsnPower(item, levels, a)
      case Raised(e) =>
      case Ok(x) => assert x + [] == x;
    } else {
      var b', row := b[..|b| - 1], b[|b| - 1];
      assert b' + [row] == b;
      CheckAppend(item, levels, a, b');
      CheckAppendStep(item, levels, a, b', row);
    }
  }

  lemma CheckAppendStep(item: string, levels: (int, int), a: seq<PowerRow>, b: seq<PowerRow>, row: PowerRow)
    requires CheckHuaweiOsnPower(item, levels, a + b)
          == Then(CheckHuaweiOsnPower(item, levels, a), CheckHuaweiOsnPower(item, levels, b))
    ensures CheckHuaweiOsnPower(item, levels, a + (b + [row]))
         == Then(CheckHuaweiOsnPower(item, levels, a), CheckHuaweiOsnPower(item, levels, b + [row]))
  {
    assert a + (b + [row]) == (a + b) + [row];
    CheckSnoc(item, levels, a + b, row);
    CheckSnoc(item, levels, b, row);
    StepThen(item, levels, CheckHuaweiOsnPower(item, levels, a), CheckHuaweiOsnPower(item, levels, b), row);
  }

  /** The check of rows and one more row is one more loop iteration. */
  lemma CheckSnoc(item: string, levels: (int, int), init: seq<PowerRow>, row: PowerRow)
    ensures CheckHuaweiOsnPower(item, levels, init + [row]) == RowStep(item, levels, CheckHuaweiOsnPower(item, levels, init), row)
  {
    assert (init + [row])[..|init|] == init;
  }

  lemma StepThen(item: string, levels: (int, int), x: Result<seq<Output>>, y: Result<seq<Output>>, row: PowerRow)
    ensures RowStep(item, levels, Then(x, y), row) == Then(x, RowStep(item, levels, y, row))
  {
    if x.Ok? && y.Ok? && row.name == item && Strings.ParseInt(row.reading).Some? {
      var rs := RowResults(Strings.ParseInt(row.reading).value, levels.0, levels.1);
      assert x.value + y.value + rs == x.value + (y.value + rs);
    }
  }
}
