/** Module temperatures of an Arris CMTS (cmk/base/legacy_checks/arris_cmts_temp.py):
    rows of module name and temperature; 999 is the device's "no sensor" default. */
module ArrisCmtsTemp {
  import opened Base
  import Strings

  datatype TempRow = TempRow(name: string, temp: string)

  /** The reading a module without a sensor reports. */
  const NoSensor: string := "999"

  /** `inventory_arris_cmts_temp`: every module whose reading is not the
      default, in row order. */
  function InventoryArrisCmtsTemp(info: seq<TempRow>): (r: seq<Service>)
    ensures forall s :: s in r <==> exists i :: 0 <= i < |info| && info[i].temp != NoSensor && s == Service(Some(info[i].name), true)
    ensures |r| <= |info|
  {
    if info == [] then []
    else
      var init, row := info[..|info| - 1], info[|info| - 1];
      assert forall i :: 0 <= i < |init| ==> init[i] == info[i];
      InventoryArrisCmtsTemp(init) + if row.temp != NoSensor then [Service(Some(row.name), true)] else []
  }

  /** `check_arris_cmts_temp`: the first row named `item` goes to the
      temperature helper with `int(temp)` (which may raise ValueError); no such
      row is UNKNOWN. */
  function CheckArrisCmtsTemp(item: string, info: seq<TempRow>): (r: Result<Output>)
    ensures r == Ok(Report(UNKNOWN, "Sensor not found in SNMP data")) <==> forall i :: 0 <= i < |info| ==> info[i].name != item
    ensures r.Ok? && r.value.Delegate? ==> exists i :: 0 <= i < |info| && info[i].name == item
  {
    if info == [] then Ok(Report(UNKNOWN, "Sensor not found in SNMP data"))
    else if info[0].name == item then
      match Strings.ParseInt(info[0].temp)
      case None => Raised("ValueError")
      case Some(t) => Ok(Delegate(CheckTemperature(true, t as real, "arris_cmts_temp_" + item, None, None, None, None)))
    else
      assert forall i :: 1 <= i < |info| ==> info[i] == info[1..][i - 1];
      CheckArrisCmtsTemp(item, info[1..])
  }

  /** The check reads the first row with the item's name, and only that row:
      rows before it with other names, and every row after it, do not matter. */
  lemma {:induction false} FirstMatchingRowChecked(item: string, info: seq<TempRow>, i: nat)
    requires i < |info| && info[i].name == item
    requires forall j :: 0 <= j < i ==> info[j].name != item
    ensures CheckArrisCmtsTemp(item, info) ==
      match Strings.ParseInt(info[i].temp)
      case None => Raised("ValueError")
      case Some(t) => Ok(Delegate(CheckTemperature(true, t as real, "arris_cmts_temp_" + item, None, None, None, None)))
  {
    if i > 0 {
      assert info[1..][i - 1] == info[i];
      FirstMatchingRowChecked(item, info[1..], i - 1);
    }
  }

  /** The default reading is filtered out only by the discovery: a module
      already being monitored that falls back to 999 is checked as 999 degrees. */
  lemma NoSensorStillChecked(item: string)
    ensures InventoryArrisCmtsTemp([TempRow(item, NoSensor)]) == []
    ensures CheckArrisCmtsTemp(item, [TempRow(item, NoSensor)])
         == Ok(Delegate(CheckTemperature(true, 999.0, "arris_cmts_temp_" + item, None, None, None, None)))
  {
    Strings.ParseIntRoundTrip(999);
    assert Strings.IntToString(999) == NoSensor;
  }
}
