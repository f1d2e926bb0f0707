/** Dell PowerConnect ambient temperature
    (cmk/base/legacy_checks/dell_powerconnect_temp.py): one SNMP row of
    temperature and device status. */
module DellPowerconnectTemp {
  import opened Base
  import Strings

  /** The parsed pair: the temperature when it is a number, and the readable
      device status. */
  datatype Parsed = Parsed(temp: Option<real>, devStateReadable: string)

  /** The readable device status of a status code. */
  function StatusText(code: string): (r: string)
    ensures code == "1" ==> r == "OK"
    ensures code == "2" ==> r == "unavailable"
    ensures code == "3" ==> r == "non operational"
    ensures code !in {"1", "2", "3"} ==> r == "unknown[" + code + "]"
  {
    match code
    case "1" => "OK"
    case "2" => "unavailable"
    case "3" => "non operational"
    case _ => "unknown[" + code + "]"
  }

  /** `parse_dell_powerconnect_temp`: only the first row counts, and it must
      have exactly two fields; a temperature that is not a number is kept as
      None. */
  function ParseDellPowerconnectTemp(info: seq<seq<string>>): (r: Option<Parsed>)
    ensures r.Some? <==> |info| > 0 && |info[0]| == 2
    ensures r.Some? ==> r.value.temp == Strings.ParseReal(info[0][0])
    ensures r.Some? ==> r.value.devStateReadable == StatusText(info[0][1])
  {
    if |info| == 0 || |info[0]| != 2 then None
    else Some(Parsed(Strings.ParseReal(info[0][0]), StatusText(info[0][1])))
  }

  /** Rows after the first never change the parse. */
  lemma {:induction false} OnlyFirstRowCounts(info: seq<seq<string>>, more: seq<seq<string>>)
    requires |info| > 0
    ensures ParseDellPowerconnectTemp(info + more) == ParseDellPowerconnectTemp([info[0]])
  {
    assert (info + more)[0] == info[0];
  }

  /** `inventory_dell_powerconnect_temp`: the one item "Ambient" whenever
      there is a parse (a pair is always truthy). */
  function InventoryDellPowerconnectTemp(parsed: Option<Parsed>): (r: seq<Service>)
    ensures parsed.Some? ==> r == [Service(Some("Ambient"), true)]
    ensures parsed.None? ==> r == []
  {
    if parsed.Some? then [Service(Some("Ambient"), true)] else []
  }

  /** The monitoring state of a readable status (the if/elif chain of the check). */
  function StateOfText(text: string): int {
    if text == "OK" then OK
    else if text == "unavailable" then WARN
    else if text == "non operational" then CRIT
    else UNKNOWN
  }

  /** From code to state: 1 is OK, 2 WARN, 3 CRIT and every other code
      UNKNOWN; an unknown code's text can never pass for a known one. */
  lemma {:induction false} StateOfCode(code: string)
    ensures StateOfText(StatusText(code)) == if code == "1" then OK else if code == "2" then WARN
                                            else if code == "3" then CRIT else UNKNOWN
  {
    if code !in {"1", "2", "3"} {
      var t := StatusText(code);
      assert t[0] == 'u' && t[2] == 'k';
      assert "OK"[0] != 'u' && "unavailable"[2] != 'k' && "non operational"[0] != 'u';
    }
  }

  /** `check_dell_powerconnect_temp`: nothing without a parse; the status
      alone without a temperature; otherwise the temperature helper with the
      device status. */
  function CheckDellPowerconnectTemp(parsed: Option<Parsed>): (r: Option<Output>)
    ensures parsed.None? <==> r.None?
    ensures parsed.Some? && parsed.value.temp.None? ==>
      r == Some(Report(StateOfText(parsed.value.devStateReadable), "Status: " + parsed.value.devStateReadable))
    ensures parsed.Some? && parsed.value.temp.Some? ==>
      r == Some(Delegate(CheckTemperature(true, parsed.value.temp.value, "dell_powerconnect", None, None,
                                          Some(StateOfText(parsed.value.devStateReadable)),
                                          Some(parsed.value.devStateReadable))))
  {
    match parsed
    case None => None
    case Some(Parsed(temp, text)) =>
      var state := StateOfText(text);
      match temp
      case None => Some(Report(state, "Status: " + text))
      case Some(t) => Some(Delegate(CheckTemperature(true, t, "dell_powerconnect", None, None, Some(state), Some(text))))
  }

  /** From row to result: a row whose temperature is not a number reports its
      status code's state and text; a numeric one hands both to the
      temperature helper. */
  lemma {:induction false} CheckOfRow(info: seq<seq<string>>)
    requires |info| > 0 && |info[0]| == 2
    ensures
      var code := info[0][1];
      var state := if code == "1" then OK else if code == "2" then WARN else if code == "3" then CRIT else UNKNOWN;
      var r := CheckDellPowerconnectTemp(ParseDellPowerconnectTemp(info));
      && (Strings.ParseReal(info[0][0]).None? ==> r == Some(Report(state, "Status: " + StatusText(code))))
      && (Strings.ParseReal(info[0][0]).Some? ==>
            r == Some(Delegate(CheckTemperature(true, Strings.ParseReal(info[0][0]).value, "dell_powerconnect", None, None,
                                                Some(state), Some(StatusText(code))))))
  {
    StateOfCode(info[0][1]);
  }
}
