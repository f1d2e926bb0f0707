/** Board temperatures of a Cisco UCS rack unit
    (cmk/base/legacy_checks/cisco_ucs_temp_env.py): one SNMP row of four
    readings, named by their position. */
module CiscoUcsTempEnv {
  import opened Base
  import opened Dicts
  import Strings

  /** The sensor names, in the order of the fetched columns. */
  const SensorNames: seq<string> := ["Ambient", "Front", "IO-Hub", "Rear"]

  /** `parse_cisco_ucs_temp_env`: the first four fields of the first row under
      the four sensor names; a missing row or field raises IndexError, and
      further rows are ignored. */
  function ParseCiscoUcsTempEnv(info: seq<seq<string>>): (r: Result<Dict<string, string>>)
    ensures r.Ok? <==> |info| > 0 && |info[0]| >= 4
    ensures r.Raised? ==> r.error == "IndexError"
    ensures r.Ok? ==> |r.value| == 4 && forall k :: 0 <= k < 4 ==> r.value[k] == (SensorNames[k], info[0][k])
  {
    if |info| == 0 || |info[0]| < 4 then Raised("IndexError")
    else Ok([("Ambient", info[0][0]), ("Front", info[0][1]), ("IO-Hub", info[0][2]), ("Rear", info[0][3])])
  }

  /** `inventory_cisco_ucs_temp_env`: every key of the parsed dict, in order. */
  function InventoryCiscoUcsTempEnv(parsed: Dict<string, string>): (r: seq<Service>)
    ensures |r| == |parsed|
    ensures forall k :: 0 <= k < |parsed| ==> r[k] == Service(Some(parsed[k].0), true)
  {
    if parsed == [] then []
    else InventoryCiscoUcsTempEnv(parsed[..|parsed| - 1]) + [Service(Some(parsed[|parsed| - 1].0), true)]
  }

  /** `check_cisco_ucs_temp_env`: the temperature helper for every entry named
      `item`, with `int(temp)` (which may raise ValueError); entries with
      other names are not read. */
  function CheckCiscoUcsTempEnv(item: string, parsed: Dict<string, string>): (r: Result<seq<Output>>)
    ensures (forall k :: 0 <= k < |parsed| ==> parsed[k].0 != item) ==> r == Ok([])
    ensures r.Ok? <==> forall k :: 0 <= k < |parsed| && parsed[k].0 == item ==> Strings.ParseInt(parsed[k].1).Some?
  {
    if parsed == [] then Ok([])
    else
      var init, entry := parsed[..|parsed| - 1], parsed[|parsed| - 1];
      assert forall k :: 0 <= k < |init| ==> init[k] == parsed[k];
      match CheckCiscoUcsTempEnv(item, init)
      case Raised(e) => Raised(e)
      case Ok(earlier) =>
        if entry.0 != item then Ok(earlier)
        else
          match Strings.ParseInt(entry.1)
          case None => Raised("ValueError")
          case Some(t) => Ok(earlier + [Delegate(CheckTemperature(true, t as real, "cisco_ucs_temp_env_" + entry.0, None, None, None, None))])
  }

  /** Discovery finds exactly the four sensors, whatever the readings. */
  lemma {:induction false} FourSensorsDiscovered(info: seq<seq<string>>)
    requires ParseCiscoUcsTempEnv(info).Ok?
    ensures InventoryCiscoUcsTempEnv(ParseCiscoUcsTempEnv(info).value)
         == [Service(Some("Ambient"), true), Service(Some("Front"), true), Service(Some("IO-Hub"), true), Service(Some("Rear"), true)]
  {
    var r := InventoryCiscoUcsTempEnv(ParseCiscoUcsTempEnv(info).value);
    assert r[0] == Service(Some(SensorNames[0]), true);
    assert r[1] == Service(Some(SensorNames[1]), true);
    assert r[2] == Service(Some(SensorNames[2]), true);
    assert r[3] == Service(Some(SensorNames[3]), true);
  }

  /** An entry whose name no other entry shares is checked once, with its own
      reading. */
  lemma {:induction false} OnlyEntryChecked(item: string, parsed: Dict<string, string>, k: nat)
    requires k < |parsed| && parsed[k].0 == item && Strings.ParseInt(parsed[k].1).Some?
    requires forall j :: 0 <= j < |parsed| && j != k ==> parsed[j].0 != item
    ensures CheckCiscoUcsTempEnv(item, parsed)
         == Ok([Delegate(CheckTemperature(true, Strings.ParseInt(parsed[k].1).value as real, "cisco_ucs_temp_env_" + item, None, None, None, None))])
  {
    var init := parsed[..|parsed| - 1];
    assert forall j :: 0 <= j < |init| ==> init[j] == parsed[j];
    if k < |init| {
      OnlyEntryChecked(item, init, k);
    } else {
      assert CheckCiscoUcsTempEnv(item, init) == Ok([]);
      var x := Delegate(CheckTemperature(true, Strings.ParseInt(parsed[k].1).value as real, "cisco_ucs_temp_env_" + item, None, None, None, None));
      assert [] + [x] == [x];
    }
  }

  /** From row to result: sensor `k` is checked once, with the `k`-th field
      of the first row; any other item gives nothing. */
  lemma {:induction false} SensorCheckedOnce(info: seq<seq<string>>, item: string)
    requires ParseCiscoUcsTempEnv(info).Ok?
    ensures item !in SensorNames ==> CheckCiscoUcsTempEnv(item, ParseCiscoUcsTempEnv(info).value) == Ok([])
    ensures forall k :: 0 <= k < 4 && SensorNames[k] == item && Strings.ParseInt(info[0][k]).Some? ==>
      CheckCiscoUcsTempEnv(item, ParseCiscoUcsTempEnv(info).value)
        == Ok([Delegate(CheckTemperature(true, Strings.ParseInt(info[0][k]).value as real, "cisco_ucs_temp_env_" + item, None, None, None, None))])
  {
    var d := ParseCiscoUcsTempEnv(info).value;
    assert SensorNames[0][0] == 'A' && SensorNames[1][0] == 'F' && SensorNames[2][0] == 'I' && SensorNames[3][0] == 'R';
    forall k | 0 <= k < 4 && SensorNames[k] == item && Strings.ParseInt(info[0][k]).Some?
      ensures CheckCiscoUcsTempEnv(item, d)
           == Ok([Delegate(CheckTemperature(true, Strings.ParseInt(info[0][k]).value as real, "cisco_ucs_temp_env_" + item, None, None, None, None))])
    {
      OnlyEntryChecked(item, d, k);
    }
  }
}
