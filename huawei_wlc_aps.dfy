/** Access points of a Huawei WLAN controller
    (cmk/base/legacy_checks/huawei_wlc_aps.py): one general row per access
    point, paired with two band rows (2.4 GHz, then 5 GHz), parsed into a
    dict keyed by the 2.4 GHz row's AP id; status and temperature checks. */
module HuaweiWlcAps {
  import opened Base
  import opened Dicts
  import Strings

  /** One row of the general AP table: status, memory %, CPU %, temperature,
      connected users. */
  datatype ApRow = ApRow(status: string, mem: string, cpu: string, temp: string, conUsers: string)

  /** One row of the band table: AP id, radio state, channel usage %, users online. */
  datatype BandRow = BandRow(apId: string, radioState: string, chUsage: string, usersOnline: string)

  /** `StateTemplate(label, value)`. */
  datatype StateTemplate = StateTemplate(caption: string, value: int)

  const ApUnknown := StateTemplate("not available", UNKNOWN)
  const RadioUnknown := StateTemplate("not available", UNKNOWN)

  /** `ap_state_map.get(status, ap_unknown)`. */
  function ApState(status: string): (r: StateTemplate)
    ensures r == ApUnknown <==> status !in {"1", "2", "3", "4", "5", "6", "7", "8", "9", "10", "11", "12", "13", "14", "15"}
    ensures r.value == OK <==> status == "8"
    ensures r.value == WARN <==> status in {"2", "7", "11"}
    ensures r.value == CRIT <==> status in {"1", "3", "4", "5", "6", "9", "10", "12", "13", "14", "15"}
    ensures status == "1" ==> r.caption == "Idle"
    ensures status == "2" ==> r.caption == "Auto find"
    ensures status == "3" ==> r.caption == "Type not match"
    ensures status == "4" ==> r.caption == "Fault"
    ensures status == "5" ==> r.caption == "Config"
    ensures status == "6" ==> r.caption == "Config failed"
    ensures status == "7" ==> r.caption == "Download"
    ensures status == "8" ==> r.caption == "Normal"
    ensures status == "9" ==> r.caption == "Committing"
    ensures status == "10" ==> r.caption == "Commit failed"
    ensures status == "11" ==> r.caption == "Standy"
    ensures status == "12" ==> r.caption == "Version mismatch"
    ensures status == "13" ==> r.caption == "Name conflicted"
    ensures status == "14" ==> r.caption == "Invalid"
    ensures status == "15" ==> r.caption == "Country code mismatch"
  {
    match status
    case "1" => StateTemplate("Idle", CRIT)
    case "2" => StateTemplate("Auto find", WARN)
    case "3" => StateTemplate("Type not match", CRIT)
    case "4" => StateTemplate("Fault", CRIT)
    case "5" => StateTemplate("Config", CRIT)
    case "6" => StateTemplate("Config failed", CRIT)
    case "7" => StateTemplate("Download", WARN)
    case "8" => StateTemplate("Normal", OK)
    case "9" => StateTemplate("Committing", CRIT)
    case "10" => StateTemplate("Commit failed", CRIT)
    case "11" => StateTemplate("Standy", WARN)
    case "12" => StateTemplate("Version mismatch", CRIT)
    case "13" => StateTemplate("Name conflicted", CRIT)
    case "14" => StateTemplate("Invalid", CRIT)
    case "15" => StateTemplate("Country code mismatch", CRIT)
    case _ => ApUnknown
  }

  /** `radio_state_map.get(state, radio_unknown)`. */
  function RadioState(state: string): (r: StateTemplate)
    ensures state == "1" ==> r == StateTemplate("up", OK)
    ensures state == "2" ==> r == StateTemplate("down", CRIT)
    ensures state !in {"1", "2"} ==> r == RadioUnknown
  {
    if state == "1" then StateTemplate("up", OK)
    else if state == "2" then StateTemplate("down", CRIT)
    else RadioUnknown
  }

  /** The temperature of an AP: the marker "invalid" for the raw value 255. */
  datatype ApTemp = Invalid | Celsius(degrees: real)

  /** The data of one band. */
  datatype Band = Band(radioCmkState: int, radioReadableState: string, chUsage: real, usersOnline: int)

  /** The dict stored per AP. */
  datatype ApData = ApData(cmkStatus: int, stateReadable: string, memUsedPercent: real, cpuPercent: real,
                           temp: ApTemp, conUsers: string, band24: Band, band5: Band)

  /** A band row read: `float(ch_usage)` and `int(users_online)`, each of which
      may raise ValueError. */
  function ParseBand(row: BandRow): (r: Result<Band>)
    ensures r.Ok? <==> Strings.ParseReal(row.chUsage).Some? && Strings.ParseInt(row.usersOnline).Some?
    ensures r.Ok? ==> r.value == Band(RadioState(row.radioState).value, RadioState(row.radioState).caption,
                                      Strings.ParseReal(row.chUsage).value, Strings.ParseInt(row.usersOnline).value)
  {
    match Strings.ParseReal(row.chUsage)
    case None => Raised("ValueError")
    case Some(ch) =>
      match Strings.ParseInt(row.usersOnline)
      case None => Raised("ValueError")
      case Some(users) =>
        var st := RadioState(row.radioState);
        Ok(Band(st.value, st.caption, ch, users))
  }

  /** `temp` after its reassignment: "255" becomes "invalid", anything else
      goes through `float()`. */
  function ParseTemp(temp: string): (r: Result<ApTemp>)
    ensures temp == "255" ==> r == Ok(Invalid)
    ensures temp != "255" ==> (r.Ok? <==> Strings.ParseReal(temp).Some?)
    ensures temp != "255" && r.Ok? ==> r.value == Celsius(Strings.ParseReal(temp).value)
  {
    if temp == "255" then Ok(Invalid)
    else
      match Strings.ParseReal(temp)
      case None => Raised("ValueError")
      case Some(t) => Ok(Celsius(t))
  }

  /** The data of one AP from its general row and its two band rows; each
      `float()` and `int()` may raise ValueError. */
  function ParseApData(row: ApRow, b24: BandRow, b5: BandRow): (r: Result<ApData>)
    ensures r.Raised? ==> r.error == "ValueError"
    ensures r.Ok? <==>
      && ParseTemp(row.temp).Ok?
      && Strings.ParseReal(row.mem).Some? && Strings.ParseReal(row.cpu).Some?
      && ParseBand(b24).Ok? && ParseBand(b5).Ok?
    ensures r.Ok? ==>
      && Ok(r.value.band24) == ParseBand(b24)
      && Ok(r.value.band5) == ParseBand(b5)
      && Ok(r.value.temp) == ParseTemp(row.temp)
      && r.value.memUsedPercent == Strings.ParseReal(row.mem).value
      && r.value.cpuPercent == Strings.ParseReal(row.cpu).value
      && r.value.cmkStatus == ApState(row.status).value
      && r.value.stateReadable == ApState(row.status).caption
      && r.value.conUsers == row.conUsers
  {
    match ParseTemp(row.temp)
    case Raised(e) => Raised(e)
    case Ok(temp) =>
      match Strings.ParseReal(row.mem)
      case None => Raised("ValueError")
      case Some(mem) =>
        match Strings.ParseReal(row.cpu)
        case None => Raised("ValueError")
        case Some(cpu) =>
          match ParseBand(b24)
          case Raised(e) => Raised(e)
          case Ok(band24) =>
            match ParseBand(b5)
            case Raised(e) => Raised(e)
            case Ok(band5) =>
              var st := ApState(row.status);
              Ok(ApData(st.value, st.caption, mem, cpu, temp, row.conUsers, band24, band5))
  }

  /** The loop body for the AP at position `idx`: its band rows are those at
      2·idx and 2·idx+1 (IndexError when missing), and it is keyed by the
      2.4 GHz row's AP id. */
  function ParseAp(idx: nat, row: ApRow, bands: seq<BandRow>): (r: Result<(string, ApData)>)
    ensures r == Raised("IndexError") <==> |bands| < 2 * idx + 2
    ensures r.Ok? <==> |bands| >= 2 * idx + 2 && ParseApData(row, bands[2 * idx], bands[2 * idx + 1]).Ok?
    ensures r.Ok? ==> r.value == (bands[2 * idx].apId, ParseApData(row, bands[2 * idx], bands[2 * idx + 1]).value)
  {
    if |bands| < 2 * idx + 2 then Raised("IndexError")
    else
      match ParseApData(row, bands[2 * idx], bands[2 * idx + 1])
      case Raised(e) => Raised(e)
      case Ok(d) => Ok((bands[2 * idx].apId, d))
  }

  /** Every AP row on its own, with its position. */
  function ParseApRows(aps: seq<ApRow>, bands: seq<BandRow>): (r: seq<Result<(string, ApData)>>)
    ensures |r| == |aps|
    ensures forall i :: 0 <= i < |aps| ==> r[i] == ParseAp(i, aps[i], bands)
    ensures forall i :: 0 <= i < |aps| && r[i].Ok? ==> 2 * i < |bands| && r[i].value.0 == bands[2 * i].apId
  {
    if aps == [] then [] else ParseApRows(aps[..|aps| - 1], bands) + [ParseAp(|aps| - 1, aps[|aps| - 1], bands)]
  }

  /** `parse_huawei_wlc_aps`. */
  function ParsedAps(aps: seq<ApRow>, bands: seq<BandRow>): (r: Result<Dict<string, ApData>>)
    ensures r.Ok? ==> DistinctKeys(r.value)
  {
    var rows := ParseApRows(aps, bands);
    AssignAllOk(rows);
    if AssignAll(rows).Ok? then FromPairsDistinct(OkValues(rows)); AssignAll(rows) else AssignAll(rows)
  }

  /** The loop of `parse_huawei_wlc_aps`. */
  method ParseHuaweiWlcAps(aps: seq<ApRow>, bands: seq<BandRow>) returns (r: Result<Dict<string, ApData>>)
    ensures r == ParsedAps(aps, bands)
  {
    ghost var rows := ParseApRows(aps, bands);
    var parsed: Dict<string, ApData> := [];
    var idx := 0;
    while idx < |aps|
      invariant 0 <= idx <= |aps|
      invariant AssignAll(rows[..idx]) == Ok(parsed)
    {
      var ap := ParseAp(idx, aps[idx], bands);
      assert ap == rows[idx];
      AssignAllNext(rows, idx);
      if ap.Raised? {
        r := Raised(ap.error);
        AssignAllRaisedStays(rows, idx + 1);
        return;
      }
      parsed := Set(parsed, ap.value.0, ap.value.1);
      idx := idx + 1;
    }
    assert rows[..idx] == rows;
    r := Ok(parsed);
  }

  /** The parse raises exactly when the loop body raises for some AP. */
  lemma {:induction false} ParsedApsOkIff(aps: seq<ApRow>, bands: seq<BandRow>)
    ensures ParsedAps(aps, bands).Ok? <==> forall i :: 0 <= i < |aps| ==> ParseAp(i, aps[i], bands).Ok?
  {
    AssignAllOk(ParseApRows(aps, bands));
  }

  /** With fewer than two band rows per AP the parse raises IndexError at the
      first AP without its pair (unless an earlier AP's numbers raise first). */
  lemma {:induction false} MissingBandRowsRaise(aps: seq<ApRow>, bands: seq<BandRow>)
    requires |bands| < 2 * |aps|
    ensures ParsedAps(aps, bands).Raised?
  {
    var rows := ParseApRows(aps, bands);
    var i := |aps| - 1;
    assert rows[i] == Raised("IndexError");
    AssignAllOk(rows);
  }

  /** A parsed AP is found under the AP id of its 2.4 GHz row, and only the
      ids of 2.4 GHz rows (those at even positions 2·idx) are keys. */
  lemma {:induction false} ApsKeyedBy24GHzRow(aps: seq<ApRow>, bands: seq<BandRow>, id: string)
    requires ParsedAps(aps, bands).Ok?
    ensures Get(ParsedAps(aps, bands).value, id).Some? <==>
      exists i :: 0 <= i < |aps| && bands[2 * i].apId == id
  {
    var rows := ParseApRows(aps, bands);
    AssignAllOk(rows);
    var pairs := OkValues(rows);
    FromPairsKeys(pairs, id);
  }

  /** An AP whose 2.4 GHz id no later AP repeats keeps its own data: a later
      AP with the same id replaces an earlier one. */
  lemma {:induction false} ApsLastWins(aps: seq<ApRow>, bands: seq<BandRow>, i: nat)
    requires ParsedAps(aps, bands).Ok?
    requires i < |aps| && forall j :: i < j < |aps| ==> bands[2 * j].apId != bands[2 * i].apId
    ensures 2 * i + 2 <= |bands| && ParseApData(aps[i], bands[2 * i], bands[2 * i + 1]).Ok?
    ensures Get(ParsedAps(aps, bands).value, bands[2 * i].apId) == Some(ParseApData(aps[i], bands[2 * i], bands[2 * i + 1]).value)
  {
    var rows := ParseApRows(aps, bands);
    AssignAllOk(rows);
    var pairs := OkValues(rows);
    FromPairsLastWins(pairs, i);
  }

  // ---- discovery and checks ----------------------------------------------------------

  /** The four discoveries (status, CPU, memory, temperature): each yields
      every AP with parameters `{}`, since their None tests cannot fail on
      parsed data (the readable state is a string, the percentages floats). */
  function DiscoverAps(parsed: Dict<string, ApData>): (r: seq<Service>)
    ensures |r| == |parsed|
    ensures forall i :: 0 <= i < |parsed| ==> r[i] == Service(Some(parsed[i].0), true)
  {
    if parsed == [] then [] else DiscoverAps(parsed[..|parsed| - 1]) + [Service(Some(parsed[|parsed| - 1].0), true)]
  }

  /** Every parsed AP is discovered. */
  lemma {:induction false} EveryApDiscovered(parsed: Dict<string, ApData>, id: string)
    requires Get(parsed, id).Some?
    ensures Service(Some(id), true) in DiscoverAps(parsed)
  {
    GetKeys(parsed, id);
    var k :| 0 <= k < |parsed| && parsed[k] == (id, Get(parsed, id).value);
    assert DiscoverAps(parsed)[k] == Service(Some(id), true);
  }

  /** The three results of one band: users online (no levels), radio state,
      channel usage against the configured levels. */
  function BandResults(b: Band, metric: string, band: string, levels: (real, real)): (r: seq<Output>)
    ensures |r| == 3
    // users online: metric "<metric>_clients", no levels at all
    ensures r[0] == Delegate(CheckLevels(b.usersOnline as real, metric + "_clients", None, None, "Users online [" + band + "]"))
    ensures r[1] == Report(b.radioCmkState, "Radio state [" + band + "]: " + b.radioReadableState)
    // channel usage: metric "channel_utilization_<metric>", the configured upper levels, no lower levels
    ensures r[2] == Delegate(CheckLevels(b.chUsage, "channel_utilization_" + metric, Some(levels), None, "Channel usage [" + band + "]"))
  {
    [Delegate(CheckLevels(b.usersOnline as real, metric + "_clients", None, None, "Users online [" + band + "]")),
     Report(b.radioCmkState, "Radio state [" + band + "]: " + b.radioReadableState),
     Delegate(CheckLevels(b.chUsage, "channel_utilization_" + metric, Some(levels), None, "Channel usage [" + band + "]"))]
  }

  /** `check_huawei_wlc_aps_status`: nothing for an unknown AP; otherwise the AP
      status, the connected users, then the 2.4 GHz and the 5 GHz results. */
  function CheckStatus(item: string, levels: (real, real), parsed: Dict<string, ApData>): (r: seq<Output>)
    ensures Get(parsed, item).None? <==> r == []
    ensures Get(parsed, item).Some? ==>
      var d := Get(parsed, item).value;
      && |r| == 8
      && r[0] == Report(d.cmkStatus, d.stateReadable)
      && r[1] == Report(OK, "Connected users: " + d.conUsers)
      && r[2..5] == BandResults(d.band24, "24ghz", "2,4GHz", levels)
      && r[5..] == BandResults(d.band5, "5ghz", "5GHz", levels)
      && r[3] == Report(d.band24.radioCmkState, "Radio state [2,4GHz]: " + d.band24.radioReadableState)
      && r[6] == Report(d.band5.radioCmkState, "Radio state [5GHz]: " + d.band5.radioReadableState)
  {
    match Get(parsed, item)
    case None => []
    case Some(d) =>
      [Report(d.cmkStatus, d.stateReadable), Report(OK, "Connected users: " + d.conUsers)]
      + BandResults(d.band24, "24ghz", "2,4GHz", levels) + BandResults(d.band5, "5ghz", "5GHz", levels)
  }

  /** `check_huawei_wlc_aps_temp`: a temperature goes to the temperature helper
      with an empty parameter dict, not the service's parameters, so
      configured temperature levels never apply; the marker "invalid" is
      reported OK as it is. */
  function CheckTemp(item: string, parsed: Dict<string, ApData>): (r: seq<Output>)
    ensures Get(parsed, item).None? <==> r == []
    ensures Get(parsed, item).Some? && Get(parsed, item).value.temp == Invalid ==> r == [Report(OK, "invalid")]
    ensures Get(parsed, item).Some? && Get(parsed, item).value.temp.Celsius? ==>
      r == [Delegate(CheckTemperature(false, Get(parsed, item).value.temp.degrees, "AP " + item + " Temperature",
                                      None, None, None, None))]
  {
    match Get(parsed, item)
    case None => []
    case Some(d) =>
      match d.temp
      case Invalid => [Report(OK, "invalid")]
      case Celsius(t) => [Delegate(CheckTemperature(false, t, "AP " + item + " Temperature", None, None, None, None))]
  }

  /** `check_huawei_wlc_aps_cpu`. */
  function CheckCpu(item: string, levels: (real, real), parsed: Dict<string, ApData>): (r: seq<Output>)
    ensures Get(parsed, item).None? <==> r == []
    ensures Get(parsed, item).Some? ==>
      r == [Delegate(CheckLevels(Get(parsed, item).value.cpuPercent, "cpu_percent", Some(levels), None, "Usage"))]
  {
    match Get(parsed, item)
    case None => []
    case Some(d) => [Delegate(CheckLevels(d.cpuPercent, "cpu_percent", Some(levels), None, "Usage"))]
  }

  /** `check_huawei_wlc_aps_mem`. */
  function CheckMem(item: string, levels: (real, real), parsed: Dict<string, ApData>): (r: seq<Output>)
    ensures Get(parsed, item).None? <==> r == []
    ensures Get(parsed, item).Some? ==>
      r == [Delegate(CheckLevels(Get(parsed, item).value.memUsedPercent, "mem_used_percent", Some(levels), None, "Used"))]
  {
    match Get(parsed, item)
    case None => []
    case Some(d) => [Delegate(CheckLevels(d.memUsedPercent, "mem_used_percent", Some(levels), None, "Used"))]
  }

  /** From rows to results: the status check of an AP reports the AP state of
      its general row and the radio state of each of its two band rows. */
  lemma {:induction false} StatusReportsOwnRows(aps: seq<ApRow>, bands: seq<BandRow>, i: nat, levels: (real, real))
    requires ParsedAps(aps, bands).Ok?
    requires i < |aps| && forall j :: i < j < |aps| ==> bands[2 * j].apId != bands[2 * i].apId
    ensures 2 * i + 2 <= |bands|
    ensures
      var r := CheckStatus(bands[2 * i].apId, levels, ParsedAps(aps, bands).value);
      var ap, b24, b5 := ApState(aps[i].status), RadioState(bands[2 * i].radioState), RadioState(bands[2 * i + 1].radioState);
      && |r| == 8
      && r[0] == Report(ap.value, ap.caption)
      && r[3] == Report(b24.value, "Radio state [2,4GHz]: " + b24.caption)
      && r[6] == Report(b5.value, "Radio state [5GHz]: " + b5.caption)
  {
    ApsLastWins(aps, bands, i);
    var d := ParseApData(aps[i], bands[2 * i], bands[2 * i + 1]).value;
    assert Ok(d.band24) == ParseBand(bands[2 * i]) && Ok(d.band5) == ParseBand(bands[2 * i + 1]);
  }

  /** From rows to results: an AP whose raw temperature is 255 is reported OK
      with the text "invalid", never judged against levels. */
  lemma {:induction false} Temp255IsInvalid(aps: seq<ApRow>, bands: seq<BandRow>, i: nat)
    requires ParsedAps(aps, bands).Ok?
    requires i < |aps| && forall j :: i < j < |aps| ==> bands[2 * j].apId != bands[2 * i].apId
    requires aps[i].temp == "255"
    ensures CheckTemp(bands[2 * i].apId, ParsedAps(aps, bands).value) == [Report(OK, "invalid")]
  {
    ApsLastWins(aps, bands, i);
  }
}
