/** Outdoor temperatures of Eltek IO units (cmk/base/legacy_checks/eltek_outdoor_temp.py):
    each row carries a unit index and two sensor readings; sensor items are
    "1/<index>" and "2/<index>". */
module EltekOutdoorTemp {
  import opened Base
  import Strings

  datatype EltekRow = EltekRow(index: string, temp1: string, temp2: string)

  /** The item of sensor `id` ("1" or "2") of a unit. */
  function SensorItem(id: string, index: string): string {
    id + "/" + index
  }

  /** Whether a reading is a number above 0. */
  predicate Above0(temp: string) {
    Strings.ParseInt(temp).Some? && Strings.ParseInt(temp).value > 0
  }

  /** The services one row adds: sensor 1, then sensor 2, each only when its
      reading is above 0; `int` may raise ValueError. */
  function RowServices(row: EltekRow): (r: Result<seq<Service>>)
    ensures r.Ok? <==> Strings.ParseInt(row.temp1).Some? && Strings.ParseInt(row.temp2).Some?
    ensures r.Ok? ==>
      r.value == (if Above0(row.temp1) then [Service(Some(SensorItem("1", row.index)), true)] else []) +
                 (if Above0(row.temp2) then [Service(Some(SensorItem("2", row.index)), true)] else [])
  {
    match Strings.ParseInt(row.temp1)
    case None => Raised("ValueError")
    case Some(t1) =>
      var first := if t1 > 0 then [Service(Some(SensorItem("1", row.index)), true)] else [];
      match Strings.ParseInt(row.temp2)
      case None => Raised("ValueError")
      case Some(t2) => Ok(first + if t2 > 0 then [Service(Some(SensorItem("2", row.index)), true)] else [])
  }

  /** The inventory as a value: the services of each row in row order, or the
      error of the first row that raised. */
  function Inventory(info: seq<EltekRow>): (r: Result<seq<Service>>)
    ensures r.Ok? <==> forall i :: 0 <= i < |info| ==> Strings.ParseInt(info[i].temp1).Some? && Strings.ParseInt(info[i].temp2).Some?
    ensures r.Ok? ==> |r.value| <= 2 * |info| && forall k :: 0 <= k < |r.value| ==> r.value[k].hasParams
  {
    if info == [] then Ok([])
    else
      assert forall i :: 0 <= i < |info| - 1 ==> info[..|info| - 1][i] == info[i];
      match Inventory(info[..|info| - 1])
      case Raised(e) => Raised(e)
      case Ok(services) =>
        match RowServices(info[|info| - 1])
        case Raised(e) => Raised(e)
        case Ok(more) => Ok(services + more)
  }

  lemma {:induction false} InventoryRaisedStays(info: seq<EltekRow>, k: nat)
    requires k <= |info| && Inventory(info[..k]).Raised?
    ensures Inventory(info) == Inventory(info[..k])
  {
    if k < |info| {
      assert info[..|info| - 1][..k] == info[..k];
      InventoryRaisedStays(info[..|info| - 1], k);
    } else {
      assert info[..k] == info;
    }
  }

  /** `inventory_eltek_outdoor_temp`: the loop appending to `inventory`. */
  method InventoryEltekOutdoorTemp(info: seq<EltekRow>) returns (r: Result<seq<Service>>)
    ensures r == Inventory(info)
  {
    var inventory: seq<Service> := [];
    var i := 0;
    while i < |info|
      invariant 0 <= i <= |info|
      invariant Inventory(info[..i]) == Ok(inventory)
    {
      assert info[..i + 1][..i] == info[..i];
      var row := info[i];
      ghost var before := inventory;
      var t1 := Strings.ParseInt(row.temp1);
      if t1.None? {
        r := Raised("ValueError");
        InventoryRaisedStays(info, i + 1);
        return;
      }
      if t1.value > 0 {
        inventory := inventory + [Service(Some(SensorItem("1", row.index)), true)];
      }
      var t2 := Strings.ParseInt(row.temp2);
      if t2.None? {
        r := Raised("ValueError");
        InventoryRaisedStays(info, i + 1);
        return;
      }
      if t2.value > 0 {
        inventory := inventory + [Service(Some(SensorItem("2", row.index)), true)];
      }
      assert inventory == before + RowServices(row).value;
      i := i + 1;
    }
    assert info[..i] == info;
    r := Ok(inventory);
  }

  /** A sensor reading 0 or below is never discovered: every discovered item
      names a sensor of some row whose reading is above 0. */
  lemma {:induction false} OnlyWarmSensorsDiscovered(info: seq<EltekRow>, s: Service)
    requires Inventory(info).Ok? && s in Inventory(info).value
    ensures exists i :: 0 <= i < |info| && ((s == Service(Some(SensorItem("1", info[i].index)), true) && Above0(info[i].temp1)) || (s == Service(Some(SensorItem("2", info[i].index)), true) && Above0(info[i].temp2)))
  {
    var init := info[..|info| - 1];
    var services := Inventory(init).value;
    var last := info[|info| - 1];
    if s in services {
      OnlyWarmSensorsDiscovered(init, s);
      var i :| 0 <= i < |init| && ((s == Service(Some(SensorItem("1", init[i].index)), true) && Above0(init[i].temp1)) || (s == Service(Some(SensorItem("2", init[i].index)), true) && Above0(init[i].temp2)));
      assert init[i] == info[i];
    } else {
      assert s in RowServices(last).value;
    }
  }

  /** And every sensor reading above 0 is discovered. */
  lemma {:induction false} WarmSensorsDiscovered(info: seq<EltekRow>, i: nat)
    requires Inventory(info).Ok? && i < |info|
    ensures Above0(info[i].temp1) ==> Service(Some(SensorItem("1", info[i].index)), true) in Inventory(info).value
    ensures Above0(info[i].temp2) ==> Service(Some(SensorItem("2", info[i].index)), true) in Inventory(info).value
  {
    var init := info[..|info| - 1];
    if i < |init| {
      assert init[i] == info[i];
      WarmSensorsDiscovered(init, i);
    }
  }

  /** Whether `float` accepts both readings of a row. */
  predicate Readable(row: EltekRow) {
    Strings.ParseReal(row.temp1).Some? && Strings.ParseReal(row.temp2).Some?
  }

  /** `check_temperature(reading, params, "eltek_outdoor_temp_<item>")`. */
  function Checked(item: string, reading: real): Output {
    Delegate(CheckTemperature(true, reading, "eltek_outdoor_temp_" + item, None, None, None, None))
  }

  /** Whether `out` is the check of `item` against a readable row: the
      helper called with the row's first reading for its sensor 1, or with its
      second reading for its sensor 2. */
  predicate ChecksRow(item: string, row: EltekRow, out: Output) {
    && Readable(row)
    && ((SensorItem("1", row.index) == item && out == Checked(item, Strings.ParseReal(row.temp1).value)) ||
        (SensorItem("2", row.index) == item && out == Checked(item, Strings.ParseReal(row.temp2).value)))
  }

  /** `check_eltek_outdoor_temp`: the first sensor whose item matches, in row
      order and sensor 1 before sensor 2, goes to the temperature helper; both
      readings of every row visited are read with `float` first; an unknown
      item gives nothing. The check does not repeat the discovery's "above 0"
      filter. */
  function CheckEltekOutdoorTemp(item: string, info: seq<EltekRow>): (r: Result<Option<Output>>)
    ensures r == Ok(None) <==> forall i :: 0 <= i < |info| ==>
      && Strings.ParseReal(info[i].temp1).Some? && Strings.ParseReal(info[i].temp2).Some?
      && SensorItem("1", info[i].index) != item && SensorItem("2", info[i].index) != item
    ensures r.Ok? && r.value.Some? ==> exists i :: 0 <= i < |info| && ChecksRow(item, info[i], r.value.value)
  {
    if info == [] then Ok(None)
    else
      var row := info[0];
      match Strings.ParseReal(row.temp1)
      case None => Raised("ValueError")
      case Some(t1) =>
        match Strings.ParseReal(row.temp2)
        case None => Raised("ValueError")
        case Some(t2) =>
          if SensorItem("1", row.index) == item then Ok(Some(Checked(item, t1)))
          else if SensorItem("2", row.index) == item then Ok(Some(Checked(item, t2)))
          else
            var rest := CheckEltekOutdoorTemp(item, info[1..]);
            assert forall i :: 1 <= i < |info| ==> info[i] == info[1..][i - 1];
            rest
  }

  /** From discovery to check: sensor 1 of the first row with a given unit
      index is checked with that row's reading, whatever its value. */
  lemma {:induction false} SensorOneChecked(info: seq<EltekRow>, i: nat)
    requires i < |info|
    requires forall j :: 0 <= j <= i ==> Strings.ParseReal(info[j].temp1).Some? && Strings.ParseReal(info[j].temp2).Some?
    requires forall j :: 0 <= j < i ==> info[j].index != info[i].index
    ensures CheckEltekOutdoorTemp(SensorItem("1", info[i].index), info)
         == Ok(Some(Checked(SensorItem("1", info[i].index), Strings.ParseReal(info[i].temp1).value)))
  {
    if i > 0 {
      OtherUnitsDiffer(info[0].index, info[i].index, "1");
      SkipRow(SensorItem("1", info[i].index), info);
      var rest := info[1..];
      assert forall j :: 0 <= j < |rest| ==> rest[j] == info[j + 1];
      SensorOneChecked(rest, i - 1);
    }
  }

  /** Likewise sensor 2 of the first row with a given unit index is checked
      with that row's second reading: sensor 1 of the same row never has the
      item of sensor 2. */
  lemma {:induction false} SensorTwoChecked(info: seq<EltekRow>, i: nat)
    requires i < |info|
    requires forall j :: 0 <= j <= i ==> Strings.ParseReal(info[j].temp1).Some? && Strings.ParseReal(info[j].temp2).Some?
    requires forall j :: 0 <= j < i ==> info[j].index != info[i].index
    ensures CheckEltekOutdoorTemp(SensorItem("2", info[i].index), info)
         == Ok(Some(Checked(SensorItem("2", info[i].index), Strings.ParseReal(info[i].temp2).value)))
  {
    if i > 0 {
      OtherUnitsDiffer(info[0].index, info[i].index, "2");
      SkipRow(SensorItem("2", info[i].index), info);
      var rest := info[1..];
      assert forall j :: 0 <= j < |rest| ==> rest[j] == info[j + 1];
      SensorTwoChecked(rest, i - 1);
    } else {
      FirstRowSensorTwo(info);
    }
  }

  /** Sensor 2 of a readable first row is checked there: sensor 1 of the
      same row has a different item. */
  lemma FirstRowSensorTwo(info: seq<EltekRow>)
    requires info != [] && Readable(info[0])
    ensures CheckEltekOutdoorTemp(SensorItem("2", info[0].index), info)
         == Ok(Some(Checked(SensorItem("2", info[0].index), Strings.ParseReal(info[0].temp2).value)))
  {
    assert SensorItem("1", info[0].index)[0] != SensorItem("2", info[0].index)[0];
  }

  /** Sensor `id` of a unit is named by no sensor of another unit. */
  lemma OtherUnitsDiffer(other: string, index: string, id: string)
    requires other != index && |id| == 1
    ensures SensorItem("1", other) != SensorItem(id, index) && SensorItem("2", other) != SensorItem(id, index)
  {
    assert SensorItem("1", other)[2..] == other && SensorItem("2", other)[2..] == other;
    assert SensorItem(id, index)[2..] == index;
  }

  /** A first row that reads and does not match passes the search on. */
  lemma SkipRow(item: string, info: seq<EltekRow>)
    requires info != [] && Strings.ParseReal(info[0].temp1).Some? && Strings.ParseReal(info[0].temp2).Some?
    requires SensorItem("1", info[0].index) != item && SensorItem("2", info[0].index) != item
    ensures CheckEltekOutdoorTemp(item, info) == CheckEltekOutdoorTemp(item, info[1..])
  {
  }
}
