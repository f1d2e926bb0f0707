/** `parse_cisco_temperature` (cmk/base/plugins/agent_based/cisco_temperature.py):
    the five SNMP tables are folded, loop by loop, into one section keyed by
    sensor-type code ("8" celsius, "14" dBm) and then by item. Every loop of
    the source is a method proved equal to a fold over its input rows; the
    properties of the parse are lemmas about those folds. */
module CiscoParse {
  import opened Base
  import opened Dicts
  import opened CiscoSensor
  import Strings

  // ---- the fetched tables -----------------------------------------------------

  /** One row of the CISCO-ENTITY-SENSOR-MIB value table. */
  datatype StateRow = StateRow(sensorId: string, sensorType: string, scale: string,
                               precision: string, value: string, status: string)

  /** One row of the threshold table; `endOid` is "<sensor id>.<threshold id>". */
  datatype LevelRow = LevelRow(endOid: string, severity: string, relation: string, value: string)

  /** One row of the CISCO-ENVMON-MIB temperature table. */
  datatype EnvMonRow = EnvMonRow(sensorId: string, statusText: string, temp: string,
                                 maxTemp: string, state: string)

  /** The five tables in fetch order: (sensor id, description) pairs, sensor
      values, thresholds, env-mon temperatures, (interface name, ifAdminStatus). */
  datatype Tables = Tables(descriptionInfo: seq<(string, string)>, stateInfo: seq<StateRow>,
                           levelsInfo: seq<LevelRow>, perfstuff: seq<EnvMonRow>,
                           adminStates: seq<(string, string)>)

  /** A monitoring state with its readable name. */
  type DevState = (int, string)

  /** The attributes of an entity sensor (the `sensor_attrs` dict). A sensor
      without reading has no device levels either. */
  datatype EntityAttrs = EntityAttrs(descr: string, rawDevState: string, devState: DevState,
                                     adminState: Option<string>, reading: Option<real>,
                                     levelsUpper: Levels, levelsLower: Levels)

  /** An item of the section: the tombstone `{"obsolete": True}`, an entity
      sensor, or an env-mon sensor. */
  datatype Entry =
    | Obsolete
    | Entity(attrs: EntityAttrs)
    | EnvMon(rawEnvMonState: string, devState: DevState, reading: Option<real>,
             levelsUpper: Levels, levelsLower: Levels)

  type Partition = Dict<string, Entry>

  /** Sensor-type code to item to entry. */
  type Section = Dict<string, Partition>

  // ---- admin states of Ethernet port sensors ---------------------------------------

  /** `_CISCO_TEMPERATURE_ADMIN_STATE_MAP.get(code)`. */
  function AdminStateName(code: string): (r: Option<string>)
    ensures r.Some? <==> code in {"1", "2", "3"}
  {
    if code == "1" then Some("up")
    else if code == "2" then Some("down")
    else if code == "3" then Some("testing")
    else None
  }

  /** One pass of the inner loop: every sensor whose description starts with
      the interface name is assigned the state, in description order. */
  function MarkInterface(acc: Dict<string, Option<string>>, descs: Dict<string, string>,
                         ifName: string, state: Option<string>): Dict<string, Option<string>>
  {
    if descs == [] then acc
    else
      var acc' := MarkInterface(acc, descs[..|descs| - 1], ifName, state);
      var last := descs[|descs| - 1];
      if Strings.StartsWith(last.1, ifName) then Set(acc', last.0, state) else acc'
  }

  /** `admin_states_dict` after the nested loop over the interface rows. */
  function AdminStates(rows: seq<(string, string)>, descs: Dict<string, string>): Dict<string, Option<string>> {
    if rows == [] then []
    else
      var last := rows[|rows| - 1];
      MarkInterface(AdminStates(rows[..|rows| - 1], descs), descs, last.0, AdminStateName(last.1))
  }

  /** The admin state of the last interface row whose name prefixes `descr`;
      None when no interface name does. */
  function LastPrefixingInterface(rows: seq<(string, string)>, descr: string): Option<Option<string>> {
    if rows == [] then None
    else if Strings.StartsWith(descr, rows[|rows| - 1].0) then Some(AdminStateName(rows[|rows| - 1].1))
    else LastPrefixingInterface(rows[..|rows| - 1], descr)
  }

  lemma {:induction false} MarkInterfaceGet(acc: Dict<string, Option<string>>, descs: Dict<string, string>,
                                            ifName: string, state: Option<string>, sid: string)
    requires DistinctKeys(descs)
    ensures Get(MarkInterface(acc, descs, ifName, state), sid) ==
      if Get(descs, sid).Some? && Strings.StartsWith(Get(descs, sid).value, ifName) then Some(state)
      else Get(acc, sid)
  {
    if descs != [] {
      var p, last := descs[..|descs| - 1], descs[|descs| - 1];
      assert DistinctKeys(p);
      MarkInterfaceGet(acc, p, ifName, state, sid);
      GetLast(descs, sid);
      if last.0 == sid {
        GetKeys(p, sid);
        assert sid !in Keys(p) by {
          assert forall j :: 0 <= j < |p| ==> Keys(p)[j] == descs[j].0;
        }
      }
    }
  }

  /** A sensor gets the admin state of the last interface whose name
      prefixes its description (None for an unknown admin code), and no
      entry when no interface name does. */
  lemma {:induction false} AdminStateOfSensor(rows: seq<(string, string)>, descs: Dict<string, string>, sid: string)
    requires DistinctKeys(descs)
    ensures Get(AdminStates(rows, descs), sid) ==
      match Get(descs, sid)
      case None => None
      case Some(descr) => LastPrefixingInterface(rows, descr)
  {
    if rows != [] {
      var last := rows[|rows| - 1];
      AdminStateOfSensor(rows[..|rows| - 1], descs, sid);
      MarkInterfaceGet(AdminStates(rows[..|rows| - 1], descs), descs, last.0, AdminStateName(last.1), sid);
    }
  }

  /** The nested loop filling `admin_states_dict`. */
  method BuildAdminStates(rows: seq<(string, string)>, descs: Dict<string, string>)
    returns (admin: Dict<string, Option<string>>)
    ensures admin == AdminStates(rows, descs)
  {
    admin := [];
    var i := 0;
    while i < |rows|
      invariant 0 <= i <= |rows|
      invariant admin == AdminStates(rows[..i], descs)
    {
      var ifName, code := rows[i].0, rows[i].1;
      var state := AdminStateName(code);
      ghost var before := admin;
      var j := 0;
      while j < |descs|
        invariant 0 <= j <= |descs|
        invariant admin == MarkInterface(before, descs[..j], ifName, state)
      {
        var sid, descr := descs[j].0, descs[j].1;
        if Strings.StartsWith(descr, ifName) {
          admin := Set(admin, sid, state);
        }
        assert descs[..j + 1][..j] == descs[..j];
        j := j + 1;
      }
      assert descs[..j] == descs;
      assert rows[..i + 1][..i] == rows[..i];
      i := i + 1;
    }
    assert rows[..i] == rows;
  }

  // ---- thresholds ---------------------------------------------------------------

  /** `thresholds` after the first loop: an empty list for every sensor of the
      value table. */
  function ThresholdsInit(rows: seq<StateRow>): Dict<string, seq<Threshold>> {
    if rows == [] then [] else SetDefault(ThresholdsInit(rows[..|rows| - 1]), rows[|rows| - 1].sensorId, [])
  }

  lemma {:induction false} ThresholdsInitGet(rows: seq<StateRow>, sid: string)
    ensures Get(ThresholdsInit(rows), sid) ==
      if exists i :: 0 <= i < |rows| && rows[i].sensorId == sid then Some([]) else None
  {
    if rows != [] {
      var p := rows[..|rows| - 1];
      ThresholdsInitGet(p, sid);
      SetDefaultGet(ThresholdsInit(p), rows[|rows| - 1].sensorId, [], sid);
      assert forall i :: 0 <= i < |p| ==> p[i] == rows[i];
    }
  }

  /** One threshold row: the sensor id before the '.' of the end OID (the
      unpacking raises unless there is exactly one '.'), the severity and
      relation enums (ValueError on a non-integer or an unknown code) and the
      value as a float. */
  function ParseLevelRow(row: LevelRow): (r: Result<(string, Threshold)>)
    ensures r.Raised? ==> r.error == "ValueError"
    ensures r.Ok? <==>
      && Strings.Count(row.endOid, '.') == 1
      && Strings.ParseInt(row.severity).Some? && SeverityFromCode(Strings.ParseInt(row.severity).value).Some?
      && Strings.ParseInt(row.relation).Some? && RelationFromCode(Strings.ParseInt(row.relation).value).Some?
      && Strings.ParseReal(row.value).Some?
    ensures r.Ok? ==> '.' !in r.value.0 && Strings.StartsWith(row.endOid, r.value.0 + ".")
    ensures r.Ok? ==>
      && Some(SeverityCode(r.value.1.severity)) == Strings.ParseInt(row.severity)
      && Some(RelationCode(r.value.1.relation)) == Strings.ParseInt(row.relation)
      && Some(r.value.1.value) == Strings.ParseReal(row.value)
  {
    var parts := Strings.Split(row.endOid, '.');
    Strings.JoinSplit(row.endOid, '.');
    if |parts| != 2 then Raised("ValueError")
    else
      assert Strings.Join(parts, '.') == parts[0] + "." + parts[1];
      assert (parts[0] + "." + parts[1])[..|parts[0]| + 1] == parts[0] + ".";
      match Strings.ParseInt(row.severity)
      case None => Raised("ValueError")
      case Some(sevCode) =>
        match SeverityFromCode(sevCode)
        case None => Raised("ValueError")
        case Some(sev) =>
          match Strings.ParseInt(row.relation)
          case None => Raised("ValueError")
          case Some(relCode) =>
            match RelationFromCode(relCode)
            case None => Raised("ValueError")
            case Some(rel) =>
              match Strings.ParseReal(row.value)
              case None => Raised("ValueError")
              case Some(v) => Ok((parts[0], Threshold(sev, rel, v)))
  }

  /** A threshold written out as the agent delivers it parses back to the
      sensor id and the threshold. */
  lemma LevelRowRoundTrip(sid: string, sub: string, t: Threshold, v: int)
    requires '.' !in sid && '.' !in sub && t.value == v as real
    ensures ParseLevelRow(LevelRow(sid + "." + sub, Strings.IntToString(SeverityCode(t.severity)),
                                   Strings.IntToString(RelationCode(t.relation)), Strings.IntToString(v)))
            == Ok((sid, t))
  {
    Strings.SplitAroundSeparator(sid, sub, '.');
    Strings.ParseIntRoundTrip(SeverityCode(t.severity));
    Strings.ParseIntRoundTrip(RelationCode(t.relation));
    Strings.ParseIntRoundTrip(v);
    Strings.ParseRealExtendsParseInt(Strings.IntToString(v));
  }

  /** Every threshold row parsed on its own, in row order. */
  function ParseLevelRows(rows: seq<LevelRow>): (r: seq<Result<(string, Threshold)>>)
    ensures |r| == |rows|
    ensures forall i :: 0 <= i < |rows| ==> r[i] == ParseLevelRow(rows[i])
  {
    if rows == [] then [] else ParseLevelRows(rows[..|rows| - 1]) + [ParseLevelRow(rows[|rows| - 1])]
  }

  /** `thresholds.setdefault(sensor_id, []).append(threshold)`. */
  function AddThreshold(d: Dict<string, seq<Threshold>>, sid: string, t: Threshold): Dict<string, seq<Threshold>> {
    Set(d, sid, GetOr(d, sid, []) + [t])
  }

  /** `thresholds` after the second loop, over the parsed rows; the first row
      that failed to parse makes the whole parse raise. */
  function CollectThresholds(init: Dict<string, seq<Threshold>>, parsed: seq<Result<(string, Threshold)>>)
    : Result<Dict<string, seq<Threshold>>>
  {
    if parsed == [] then Ok(init)
    else
      match CollectThresholds(init, parsed[..|parsed| - 1])
      case Raised(e) => Raised(e)
      case Ok(d) =>
        match parsed[|parsed| - 1]
        case Raised(e) => Raised(e)
        case Ok(p) => Ok(AddThreshold(d, p.0, p.1))
  }

  /** The collection fails exactly when some row failed to parse. */
  lemma {:induction false} CollectThresholdsOk(init: Dict<string, seq<Threshold>>, parsed: seq<Result<(string, Threshold)>>)
    ensures CollectThresholds(init, parsed).Ok? <==> forall i :: 0 <= i < |parsed| ==> parsed[i].Ok?
  {
    if parsed != [] {
      var p := parsed[..|parsed| - 1];
      CollectThresholdsOk(init, p);
      assert forall i :: 0 <= i < |p| ==> p[i] == parsed[i];
    }
  }

  /** One more row: the collection so far, extended by that row. */
  lemma CollectThresholdsNext(init: Dict<string, seq<Threshold>>, parsed: seq<Result<(string, Threshold)>>, i: nat)
    requires i < |parsed|
    ensures CollectThresholds(init, parsed[..i + 1]) ==
      match CollectThresholds(init, parsed[..i])
      case Raised(e) => Raised(e)
      case Ok(d) => (match parsed[i] case Raised(e) => Raised(e) case Ok(p) => Ok(AddThreshold(d, p.0, p.1)))
  {
    assert parsed[..i + 1][..i] == parsed[..i];
  }

  /** Once raised, later rows do not matter. */
  lemma {:induction false} CollectThresholdsRaisedStays(init: Dict<string, seq<Threshold>>,
                                                        parsed: seq<Result<(string, Threshold)>>, k: nat)
    requires k <= |parsed| && CollectThresholds(init, parsed[..k]).Raised?
    ensures CollectThresholds(init, parsed) == CollectThresholds(init, parsed[..k])
  {
    if k < |parsed| {
      var p := parsed[..|parsed| - 1];
      assert p[..k] == parsed[..k];
      CollectThresholdsRaisedStays(init, p, k);
    } else {
      assert parsed[..k] == parsed;
    }
  }

  /** The thresholds of `sid`'s rows, in row order. */
  function ThresholdsFor(parsed: seq<Result<(string, Threshold)>>, sid: string): seq<Threshold>
    requires forall i :: 0 <= i < |parsed| ==> parsed[i].Ok?
  {
    if parsed == [] then []
    else
      var p := parsed[|parsed| - 1].value;
      ThresholdsFor(parsed[..|parsed| - 1], sid) + (if p.0 == sid then [p.1] else [])
  }

  /** Each sensor's list holds its initial list followed by the thresholds of
      its rows in row order; a sensor with neither has no list. */
  lemma {:induction false} CollectThresholdsLists(init: Dict<string, seq<Threshold>>,
                                                  parsed: seq<Result<(string, Threshold)>>, sid: string)
    requires forall i :: 0 <= i < |parsed| ==> parsed[i].Ok?
    ensures CollectThresholds(init, parsed).Ok?
    ensures Get(CollectThresholds(init, parsed).value, sid) ==
      if Get(init, sid).Some? then Some(Get(init, sid).value + ThresholdsFor(parsed, sid))
      else if ThresholdsFor(parsed, sid) != [] then Some(ThresholdsFor(parsed, sid))
      else None
  {
    CollectThresholdsOk(init, parsed);
    if parsed != [] {
      var p := parsed[..|parsed| - 1];
      assert forall i :: 0 <= i < |p| ==> p[i] == parsed[i];
      CollectThresholdsLists(init, p, sid);
      CollectThresholdsOk(init, p);
      var d, last := CollectThresholds(init, p).value, parsed[|parsed| - 1].value;
      assert CollectThresholds(init, parsed) == Ok(AddThreshold(d, last.0, last.1));
      assert ThresholdsFor(parsed, sid) == ThresholdsFor(p, sid) + (if last.0 == sid then [last.1] else []);
      if last.0 == sid {
        assert Get(AddThreshold(d, last.0, last.1), sid) == Some(GetOr(d, sid, []) + [last.1]);
        if Get(init, sid).Some? {
          var a := Get(init, sid).value;
          assert (a + ThresholdsFor(p, sid)) + [last.1] == a + (ThresholdsFor(p, sid) + [last.1]);
        } else if ThresholdsFor(p, sid) == [] {
          assert GetOr(d, sid, []) == [];
        }
      } else {
        assert Get(AddThreshold(d, last.0, last.1), sid) == Get(d, sid);
        assert ThresholdsFor(p, sid) + [] == ThresholdsFor(p, sid);
      }
    } else if Get(init, sid).Some? {
      assert Get(init, sid).value + [] == Get(init, sid).value;
    }
  }

  /** `thresholds` as the parse builds it. */
  function Thresholds(stateRows: seq<StateRow>, levelRows: seq<LevelRow>): Result<Dict<string, seq<Threshold>>> {
    CollectThresholds(ThresholdsInit(stateRows), ParseLevelRows(levelRows))
  }

  /** The two loops filling `thresholds`. */
  method BuildThresholds(stateRows: seq<StateRow>, levelRows: seq<LevelRow>)
    returns (r: Result<Dict<string, seq<Threshold>>>)
    ensures r == Thresholds(stateRows, levelRows)
  {
    var thresholds := StartThresholds(stateRows);
    r := AddLevelRows(thresholds, levelRows);
  }

  /** The first loop: an empty list for every sensor of the value table. */
  method StartThresholds(stateRows: seq<StateRow>) returns (thresholds: Dict<string, seq<Threshold>>)
    ensures thresholds == ThresholdsInit(stateRows)
  {
    thresholds := [];
    var i := 0;
    while i < |stateRows|
      invariant 0 <= i <= |stateRows|
      invariant thresholds == ThresholdsInit(stateRows[..i])
    {
      thresholds := SetDefault(thresholds, stateRows[i].sensorId, []);
      assert stateRows[..i + 1][..i] == stateRows[..i];
      i := i + 1;
    }
    assert stateRows[..i] == stateRows;
  }

  /** The second loop: each threshold row appended to its sensor's list. */
  method AddLevelRows(init: Dict<string, seq<Threshold>>, levelRows: seq<LevelRow>)
    returns (r: Result<Dict<string, seq<Threshold>>>)
    ensures r == CollectThresholds(init, ParseLevelRows(levelRows))
  {
    var thresholds := init;
    ghost var parsedRows := ParseLevelRows(levelRows);
    var i := 0;
    while i < |levelRows|
      invariant 0 <= i <= |levelRows|
      invariant CollectThresholds(init, parsedRows[..i]) == Ok(thresholds)
    {
      var parsed := ParseLevelRow(levelRows[i]);
      CollectThresholdsNext(init, parsedRows, i);
      if parsed.Raised? {
        r := Raised(parsed.error);
        CollectThresholdsRaisedStays(init, parsedRows, i + 1);
        return;
      }
      thresholds := AddThreshold(thresholds, parsed.value.0, parsed.value.1);
      i := i + 1;
    }
    assert parsedRows[..i] == parsedRows;
    r := Ok(thresholds);
  }

  /** Unless a threshold row fails to parse, every sensor of the value table
      has a list after both loops, namely the thresholds of its own rows, so
      `thresholds[sensor_id]` cannot raise. */
  lemma {:induction false} ThresholdsOfStateSensor(stateRows: seq<StateRow>, levelRows: seq<LevelRow>, i: nat)
    requires i < |stateRows|
    requires forall k :: 0 <= k < |levelRows| ==> ParseLevelRow(levelRows[k]).Ok?
    ensures Thresholds(stateRows, levelRows).Ok?
    ensures Get(Thresholds(stateRows, levelRows).value, stateRows[i].sensorId)
            == Some(ThresholdsFor(ParseLevelRows(levelRows), stateRows[i].sensorId))
  {
    var sid, parsed := stateRows[i].sensorId, ParseLevelRows(levelRows);
    ThresholdsInitGet(stateRows, sid);
    CollectThresholdsLists(ThresholdsInit(stateRows), parsed, sid);
    assert [] + ThresholdsFor(parsed, sid) == ThresholdsFor(parsed, sid);
  }

  // ---- entity sensors (CISCO-ENTITY-SENSOR-MIB) ------------------------------------

  /** `map_states.get(status, (3, f"unknown[{status}]"))`. */
  function EntityStatusState(status: string): (r: DevState)
    ensures status == "1" ==> r == (OK, "OK")
    ensures status == "2" ==> r == (UNKNOWN, "unavailable")
    ensures status == "3" ==> r == (CRIT, "non-operational")
    ensures status !in {"1", "2", "3"} ==> r == (UNKNOWN, "unknown[" + status + "]")
    ensures r.0 in {OK, WARN, CRIT, UNKNOWN}
  {
    if status == "1" then (OK, "OK")
    else if status == "2" then (UNKNOWN, "unavailable")
    else if status == "3" then (CRIT, "non-operational")
    else (UNKNOWN, "unknown[" + status + "]")
  }

  /** The description of a sensor, or its id where it has none. */
  function Describe(descs: Dict<string, string>, sid: string): (r: string)
    ensures Get(descs, sid).None? ==> r == sid
    ensures Get(descs, sid).Some? ==> r == Get(descs, sid).value
  {
    GetOr(descs, sid, sid)
  }

  /** `admin_states_dict.get(sensor_id)`: a sensor no interface matched and
      a sensor whose interface has an unknown admin code both read None. */
  function AdminStateOf(admin: Dict<string, Option<string>>, sid: string): Option<string> {
    match Get(admin, sid)
    case Some(state) => state
    case None => None
  }

  /** What one row of the value table does to `entity_parsed`. */
  datatype EntityOutcome =
    | Skipped                                                   // not celsius or dBm, or no description
    | PartitionOnly(sensorType: string)                         // status other than 1, 2 or 3
    | Registered(sensorType: string, sid: string, attrs: EntityAttrs)
    | Failed(error: string)                                     // the reading of an OK sensor raised

  /** `10.0 ** (exponent - float(precision))` for an OK sensor: KeyError for an
      unknown scale code, ValueError for a precision that is no number; a
      precision that is not a whole number is refused (see README). */
  function EntityFactor(row: StateRow): (r: Result<real>)
    ensures r.Ok? <==>
      && ScaleExponent(row.scale).Some? && Strings.ParseReal(row.precision).Some?
      && Strings.ParseReal(row.precision).value.Floor as real == Strings.ParseReal(row.precision).value
    ensures ScaleExponent(row.scale).None? ==> r == Raised("KeyError")
    ensures ScaleExponent(row.scale).Some? && Strings.ParseReal(row.precision).None? ==> r == Raised("ValueError")
    ensures r.Ok? ==>
      r.value > 0.0 && r.value == Pow10(ScaleExponent(row.scale).value - Strings.ParseReal(row.precision).value.Floor)
  {
    match ScaleExponent(row.scale)
    case None => Raised("KeyError")
    case Some(e) =>
      match Strings.ParseReal(row.precision)
      case None => Raised("ValueError")
      case Some(p) => if p.Floor as real == p then Ok(ScaleFactor(e, p.Floor)) else Raised("fractional precision")
  }

  /** One row of the entity loop. An OK sensor gets its reading and device
      levels; a sensor whose status is 2 or 3 is registered without them; any
      other status only opens the sensor type's partition. */
  function EntityRow(row: StateRow, descs: Dict<string, string>, admin: Dict<string, Option<string>>,
                     thresholds: Dict<string, seq<Threshold>>): (r: EntityOutcome)
    ensures r.Skipped? <==> row.sensorType !in {"8", "14"} || Describe(descs, row.sensorId) == ""
    ensures r.PartitionOnly? <==> !r.Skipped? && row.status !in {"1", "2", "3"}
    ensures r.Failed? ==> !r.Skipped? && row.status == "1"
    ensures r.PartitionOnly? ==> r.sensorType == row.sensorType
    ensures r.Registered? ==>
      && r.sensorType == row.sensorType && r.sid == row.sensorId
      && r.attrs.descr == Describe(descs, row.sensorId) && r.attrs.descr != ""
      && r.attrs.rawDevState == row.status && r.attrs.devState == EntityStatusState(row.status)
      && r.attrs.adminState == AdminStateOf(admin, row.sensorId)
      && (r.attrs.reading.Some? <==> row.status == "1")
      && (r.attrs.reading.None? ==> r.attrs.levelsUpper.None? && r.attrs.levelsLower.None?)
  {
    var sid := row.sensorId;
    var descr := Describe(descs, sid);
    if row.sensorType !in {"8", "14"} || descr == "" then Skipped
    else
      var attrs := EntityAttrs(descr, row.status, EntityStatusState(row.status), AdminStateOf(admin, sid),
                               None, None, None);
      if row.status == "1" then
        match EntityFactor(row)
        case Raised(e) => Failed(e)
        case Ok(factor) =>
          match Strings.ParseReal(row.value)
          case None => Failed("ValueError")
          case Some(v) =>
            match Get(thresholds, sid)
            case None => Failed("KeyError")
            case Some(ts) =>
              var levels := DeviceLevels(row.sensorType, ts, factor);
              Registered(row.sensorType, sid, attrs.(reading := Some(Scale(v, factor)),
                                                      levelsUpper := levels.0, levelsLower := levels.1))
      else if row.status in {"2", "3"} then Registered(row.sensorType, sid, attrs)
      else PartitionOnly(row.sensorType)
  }

  /** Every row of the value table on its own, in row order. */
  function EntityRows(rows: seq<StateRow>, descs: Dict<string, string>, admin: Dict<string, Option<string>>,
                      thresholds: Dict<string, seq<Threshold>>): (r: seq<EntityOutcome>)
    ensures |r| == |rows|
    ensures forall i :: 0 <= i < |rows| ==> r[i] == EntityRow(rows[i], descs, admin, thresholds)
  {
    if rows == [] then []
    else EntityRows(rows[..|rows| - 1], descs, admin, thresholds) + [EntityRow(rows[|rows| - 1], descs, admin, thresholds)]
  }

  type EntityParsed = Dict<string, Dict<string, EntityAttrs>>

  /** One step of the entity loop on `entity_parsed`: the partition is opened
      with `setdefault` and the sensor registered with `setdefault`, so the
      first registration of a sensor id wins. */
  function EntityStep(d: EntityParsed, o: EntityOutcome): Result<EntityParsed> {
    match o
    case Skipped => Ok(d)
    case PartitionOnly(ty) => Ok(SetDefault(d, ty, []))
    case Registered(ty, sid, attrs) => Ok(SetDefaultIn(SetDefault(d, ty, []), ty, sid, attrs))
    case Failed(e) => Raised(e)
  }

  /** `entity_parsed` after the loop; the first failing row makes the parse raise. */
  function CollectEntities(os: seq<EntityOutcome>): Result<EntityParsed> {
    if os == [] then Ok([])
    else
      match CollectEntities(os[..|os| - 1])
      case Raised(e) => Raised(e)
      case Ok(d) => EntityStep(d, os[|os| - 1])
  }

  /** The loop fails exactly when some row failed. */
  lemma {:induction false} CollectEntitiesOk(os: seq<EntityOutcome>)
    ensures CollectEntities(os).Ok? <==> forall i :: 0 <= i < |os| ==> !os[i].Failed?
  {
    if os != [] {
      var p := os[..|os| - 1];
      CollectEntitiesOk(p);
      assert forall i :: 0 <= i < |p| ==> p[i] == os[i];
    }
  }

  /** Once raised, later rows do not matter. */
  lemma {:induction false} CollectEntitiesRaisedStays(os: seq<EntityOutcome>, k: nat)
    requires k <= |os| && CollectEntities(os[..k]).Raised?
    ensures CollectEntities(os) == CollectEntities(os[..k])
  {
    if k < |os| {
      var p := os[..|os| - 1];
      assert p[..k] == os[..k];
      CollectEntitiesRaisedStays(p, k);
    } else {
      assert os[..k] == os;
    }
  }

  /** One more row: the loop so far, then that row's step. */
  lemma CollectEntitiesNext(os: seq<EntityOutcome>, i: nat)
    requires i < |os|
    ensures CollectEntities(os[..i + 1]) ==
      match CollectEntities(os[..i])
      case Raised(e) => Raised(e)
      case Ok(d) => EntityStep(d, os[i])
  {
    assert os[..i + 1][..i] == os[..i];
  }

  /** The attributes of the first row registering `sid` under sensor type `ty`. */
  function FirstRegistered(os: seq<EntityOutcome>, ty: string, sid: string): Option<EntityAttrs> {
    if os == [] then None
    else
      match FirstRegistered(os[..|os| - 1], ty, sid)
      case Some(a) => Some(a)
      case None =>
        var o := os[|os| - 1];
        if o.Registered? && o.sensorType == ty && o.sid == sid then Some(o.attrs) else None
  }

  /** Whether a row opens the partition of sensor type `ty`. */
  predicate Opens(o: EntityOutcome, ty: string) {
    (o.PartitionOnly? || o.Registered?) && o.sensorType == ty
  }

  /** Unless a row fails, a sensor type has a partition exactly when some row
      opens it, and in it each sensor id holds the attributes of its FIRST
      registration (later rows for the same id are ignored). */
  lemma {:induction false} CollectEntitiesGet(os: seq<EntityOutcome>, ty: string, sid: string)
    requires forall i :: 0 <= i < |os| ==> !os[i].Failed?
    ensures CollectEntities(os).Ok?
    ensures Get(CollectEntities(os).value, ty).Some? <==> exists i :: 0 <= i < |os| && Opens(os[i], ty)
    ensures Get(GetOr(CollectEntities(os).value, ty, []), sid) == FirstRegistered(os, ty, sid)
  {
    CollectEntitiesOk(os);
    if os != [] {
      var p, o := os[..|os| - 1], os[|os| - 1];
      assert forall i :: 0 <= i < |p| ==> p[i] == os[i];
      CollectEntitiesGet(p, ty, sid);
      CollectEntitiesOk(p);
      var d := CollectEntities(p).value;
      assert CollectEntities(os) == EntityStep(d, o);
      match o
      case Skipped =>
      case PartitionOnly(t) =>
        SetDefaultGet(d, t, [], ty);
      case Registered(t, s, a) =>
        SetDefaultGet(d, t, [], ty);
        var d' := SetDefault(d, t, []);
        SetDefaultGet(GetOr(d', t, []), s, a, sid);
      if (exists i :: 0 <= i < |os| && Opens(os[i], ty)) && !Opens(o, ty) {
        var i :| 0 <= i < |os| && Opens(os[i], ty);
        assert i < |p| && Opens(p[i], ty);
      }
    }
  }

  /** The entity loop: each row's outcome is applied to `entity_parsed` as
      the loop body does it, opening the partition before registering. */
  method BuildEntities(rows: seq<StateRow>, descs: Dict<string, string>, admin: Dict<string, Option<string>>,
                       thresholds: Dict<string, seq<Threshold>>)
    returns (r: Result<EntityParsed>)
    ensures r == CollectEntities(EntityRows(rows, descs, admin, thresholds))
  {
    ghost var os := EntityRows(rows, descs, admin, thresholds);
    var entity: EntityParsed := [];
    var i := 0;
    while i < |rows|
      invariant 0 <= i <= |rows|
      invariant CollectEntities(os[..i]) == Ok(entity)
    {
      var o := EntityRow(rows[i], descs, admin, thresholds);
      CollectEntitiesNext(os, i);
      match o {
        case Skipped =>
        case PartitionOnly(ty) =>
          entity := SetDefault(entity, ty, []);
        case Registered(ty, sid, attrs) =>
          entity := SetDefault(entity, ty, []);
          entity := SetDefaultIn(entity, ty, sid, attrs);
        case Failed(e) =>
          r := Raised(e);
          CollectEntitiesRaisedStays(os, i + 1);
          return;
      }
      i := i + 1;
    }
    assert os[..i] == os;
    r := Ok(entity);
  }

  /** For an OK celsius or dBm sensor whose scale, precision and value parse,
      and with every threshold row well-formed, the lookup of its thresholds
      cannot fail: the row is registered with the scaled reading and the
      device levels read from exactly the threshold rows of its sensor id. */
  lemma {:induction false} OkSensorReading(stateRows: seq<StateRow>, levelRows: seq<LevelRow>,
                                           descs: Dict<string, string>, admin: Dict<string, Option<string>>, i: nat)
    requires i < |stateRows|
    requires forall k :: 0 <= k < |levelRows| ==> ParseLevelRow(levelRows[k]).Ok?
    requires stateRows[i].sensorType in {"8", "14"} && Describe(descs, stateRows[i].sensorId) != ""
    requires stateRows[i].status == "1"
    requires EntityFactor(stateRows[i]).Ok? && Strings.ParseReal(stateRows[i].value).Some?
    ensures Thresholds(stateRows, levelRows).Ok?
    ensures
      var row := stateRows[i];
      var f := EntityFactor(row).value;
      var o := EntityRow(row, descs, admin, Thresholds(stateRows, levelRows).value);
      && o.Registered?
      && o.attrs.reading == Some(Scale(Strings.ParseReal(row.value).value, f))
      && (o.attrs.levelsUpper, o.attrs.levelsLower)
         == DeviceLevels(row.sensorType, ThresholdsFor(ParseLevelRows(levelRows), row.sensorId), f)
  {
    ThresholdsOfStateSensor(stateRows, levelRows, i);
  }

  // ---- env-mon sensors (CISCO-ENVMON-MIB) -------------------------------------------

  /** `map_envmon_states.get(state, (3, f"unknown[{state}]"))`. */
  function EnvMonStatusState(state: string): (r: DevState)
    ensures state == "1" ==> r == (OK, "normal")
    ensures state == "2" ==> r == (WARN, "warning")
    ensures state == "3" ==> r == (CRIT, "critical")
    ensures state == "4" ==> r == (CRIT, "shutdown")
    ensures state == "5" ==> r == (UNKNOWN, "not present")
    ensures state == "6" ==> r == (CRIT, "not functioning")
    ensures r.0 == CRIT <==> state in {"3", "4", "6"}
    ensures state !in {"1", "2", "3", "4", "5", "6"} ==> r == (UNKNOWN, "unknown[" + state + "]")
  {
    if state == "1" then (OK, "normal")
    else if state == "2" then (WARN, "warning")
    else if state == "3" then (CRIT, "critical")
    else if state == "4" then (CRIT, "shutdown")
    else if state == "5" then (UNKNOWN, "not present")
    else if state == "6" then (CRIT, "not functioning")
    else (UNKNOWN, "unknown[" + state + "]")
  }

  const SensorDefect: DevState := (UNKNOWN, "sensor defect")

  /** `entity_parsed[...].get(sensor_id, {}).get("dev_levels_upper")`. */
  function EntityUpper(entityTemps: Dict<string, EntityAttrs>, sensorId: string): Levels {
    match Get(entityTemps, sensorId) case Some(a) => a.levelsUpper case None => None
  }

  /** The same lookup for `"dev_levels_lower"`. */
  function EntityLower(entityTemps: Dict<string, EntityAttrs>, sensorId: string): Levels {
    match Get(entityTemps, sensorId) case Some(a) => a.levelsLower case None => None
  }

  /** The entry of one env-mon row. `temp` is read with `int()`; if that fails
      the sensor is defect without reading or levels. The upper levels come
      from the entity sensor of the same id if it has any, else from the
      non-zero `max_temp`; a `max_temp` that is no integer makes the sensor
      defect after its reading was taken, and leaves it without levels. The
      lower levels are the entity sensor's. */
  function EnvMonEntry(row: EnvMonRow, entityTemps: Dict<string, EntityAttrs>): (r: Entry)
    ensures r.EnvMon? && r.rawEnvMonState == row.state
    ensures r.reading.Some? <==> Strings.ParseInt(row.temp).Some?
    ensures r.reading.Some? ==> r.reading.value == Strings.ParseInt(row.temp).value as real
    ensures r.devState == SensorDefect || r.devState == EnvMonStatusState(row.state)
    ensures Strings.ParseInt(row.temp).None? ==> r.devState == SensorDefect
    ensures r.devState != EnvMonStatusState(row.state) ==> r.levelsUpper.None? && r.levelsLower.None?
    ensures r.reading.Some? && EntityUpper(entityTemps, row.sensorId).Some?
            ==> r.levelsUpper == EntityUpper(entityTemps, row.sensorId)
                && r.devState == EnvMonStatusState(row.state)
    // without entity upper levels, `max_temp` decides
    ensures r.reading.Some? && EntityUpper(entityTemps, row.sensorId).None? ==>
      && (row.maxTemp == "" ==> r.levelsUpper.None? && r.devState == EnvMonStatusState(row.state))
      && (row.maxTemp != "" && Strings.ParseInt(row.maxTemp) == Some(0)
          ==> r.levelsUpper.None? && r.devState == EnvMonStatusState(row.state))
      && (row.maxTemp != "" && Strings.ParseInt(row.maxTemp).Some? && Strings.ParseInt(row.maxTemp).value != 0
          ==> var m := Strings.ParseInt(row.maxTemp).value as real;
              r.levelsUpper == Some((m, m)) && r.devState == EnvMonStatusState(row.state))
      && (row.maxTemp != "" && Strings.ParseInt(row.maxTemp).None?
          ==> r.devState == SensorDefect && r.levelsUpper.None? && r.levelsLower.None?)
    ensures r.devState != SensorDefect ==> r.levelsLower == EntityLower(entityTemps, row.sensorId)
  {
    var state := EnvMonStatusState(row.state);
    match Strings.ParseInt(row.temp)
    case None => EnvMon(row.state, SensorDefect, None, None, None)
    case Some(t) =>
      var reading := Some(t as real);
      var lower := EntityLower(entityTemps, row.sensorId);
      var upper := EntityUpper(entityTemps, row.sensorId);
      if upper.Some? then EnvMon(row.state, state, reading, upper, lower)
      else if row.maxTemp == "" then EnvMon(row.state, state, reading, None, lower)
      else
        match Strings.ParseInt(row.maxTemp)
        case None => EnvMon(row.state, SensorDefect, reading, None, None)
        case Some(m) =>
          if m == 0 then EnvMon(row.state, state, reading, None, lower)
          else EnvMon(row.state, state, reading, Some((m as real, m as real)), lower)
  }

  /** The item name `cisco_sensor_item(statustext, sensor_id)` the plugin used
      for env-mon sensors; the helper is not part of this model and is given
      as a parameter. */
  type ItemNamer = (string, string) -> string

  /** Whether an env-mon row describes a sensor that the entity loop already
      registered as a celsius sensor. */
  predicate Matched(row: EnvMonRow, descs: Dict<string, string>, entityTemps: Dict<string, EntityAttrs>) {
    Get(descs, row.sensorId).Some? && Get(entityTemps, row.sensorId).Some?
  }

  /** The item under which an env-mon row is registered. */
  function EnvMonItem(row: EnvMonRow, descs: Dict<string, string>, entityTemps: Dict<string, EntityAttrs>,
                      namer: ItemNamer): (r: string)
    ensures Matched(row, descs, entityTemps) ==> r == Get(descs, row.sensorId).value
    ensures !Matched(row, descs, entityTemps) ==> r == namer(row.statusText, row.sensorId)
  {
    if Matched(row, descs, entityTemps) then Get(descs, row.sensorId).value else namer(row.statusText, row.sensorId)
  }

  /** One step of the env-mon loop on the celsius partition: a matched sensor
      first leaves a tombstone under the name it had before (an assignment),
      then every row registers its entry with `setdefault`. */
  function EnvMonStep(acc: Partition, row: EnvMonRow, descs: Dict<string, string>,
                      entityTemps: Dict<string, EntityAttrs>, namer: ItemNamer): (r: Partition)
    // the row's item is always present afterwards
    ensures Get(r, EnvMonItem(row, descs, entityTemps, namer)).Some?
    // it holds the row's entry unless the item was taken already
    ensures Get(acc, EnvMonItem(row, descs, entityTemps, namer)).None? && !Matched(row, descs, entityTemps)
            ==> Get(r, EnvMonItem(row, descs, entityTemps, namer)) == Some(EnvMonEntry(row, entityTemps))
    // a matched row leaves the tombstone under its former name
    ensures Matched(row, descs, entityTemps) ==> Get(r, namer(row.statusText, row.sensorId)) == Some(Obsolete)
    // no other item changes
    ensures forall k :: k != EnvMonItem(row, descs, entityTemps, namer) &&
                        !(Matched(row, descs, entityTemps) && k == namer(row.statusText, row.sensorId))
                        ==> Get(r, k) == Get(acc, k)
    ensures forall k :: Get(acc, k).Some? && !(Matched(row, descs, entityTemps) && k == namer(row.statusText, row.sensorId))
                        ==> Get(r, k) == Get(acc, k)
  {
    var acc' := if Matched(row, descs, entityTemps) then Set(acc, namer(row.statusText, row.sensorId), Obsolete) else acc;
    SetDefaultGetAll(acc', EnvMonItem(row, descs, entityTemps, namer), EnvMonEntry(row, entityTemps));
    SetDefault(acc', EnvMonItem(row, descs, entityTemps, namer), EnvMonEntry(row, entityTemps))
  }

  /** The celsius partition after the env-mon loop: a dict whose every item
      was registered by some row, under its item or as a former name. */
  function EnvMonPartition(rows: seq<EnvMonRow>, descs: Dict<string, string>,
                           entityTemps: Dict<string, EntityAttrs>, namer: ItemNamer): (r: Partition)
    ensures DistinctKeys(r)
    ensures forall item :: Get(r, item).Some? ==>
      exists i :: 0 <= i < |rows| &&
        (item == EnvMonItem(rows[i], descs, entityTemps, namer) ||
         (Matched(rows[i], descs, entityTemps) && item == namer(rows[i].statusText, rows[i].sensorId)))
  {
    if rows == [] then []
    else
      var p, row := rows[..|rows| - 1], rows[|rows| - 1];
      var prev := EnvMonPartition(p, descs, entityTemps, namer);
      assert forall i :: 0 <= i < |p| ==> p[i] == rows[i];
      SetKeepsDistinct(prev, namer(row.statusText, row.sensorId), Obsolete);
      var acc' := if Matched(row, descs, entityTemps) then Set(prev, namer(row.statusText, row.sensorId), Obsolete) else prev;
      SetKeepsDistinct(acc', EnvMonItem(row, descs, entityTemps, namer), EnvMonEntry(row, entityTemps));
      EnvMonStep(prev, row, descs, entityTemps, namer)
  }

  /** A tombstone is never replaced: the loop only ever writes tombstones by
      assignment and everything else by `setdefault`. */
  lemma {:induction false} EnvMonTombstoneStays(rows: seq<EnvMonRow>, k: nat, descs: Dict<string, string>,
                                                entityTemps: Dict<string, EntityAttrs>, namer: ItemNamer, item: string)
    requires k <= |rows| && Get(EnvMonPartition(rows[..k], descs, entityTemps, namer), item) == Some(Obsolete)
    ensures Get(EnvMonPartition(rows, descs, entityTemps, namer), item) == Some(Obsolete)
  {
    if k < |rows| {
      var p := rows[..|rows| - 1];
      assert p[..k] == rows[..k];
      EnvMonTombstoneStays(p, k, descs, entityTemps, namer, item);
      var acc := EnvMonPartition(p, descs, entityTemps, namer);
      var row := rows[|rows| - 1];
      var acc' := if Matched(row, descs, entityTemps) then Set(acc, namer(row.statusText, row.sensorId), Obsolete) else acc;
      SetDefaultGet(acc', EnvMonItem(row, descs, entityTemps, namer), EnvMonEntry(row, entityTemps), item);
    } else {
      assert rows[..k] == rows;
    }
  }

  /** Every env-mon row leaves an entry under its item, and a row describing
      an already registered celsius sensor leaves the tombstone "obsolete"
      under the name the plugin used before. */
  lemma {:induction false} EnvMonRowRegistered(rows: seq<EnvMonRow>, i: nat, descs: Dict<string, string>,
                                               entityTemps: Dict<string, EntityAttrs>, namer: ItemNamer)
    requires i < |rows|
    ensures Get(EnvMonPartition(rows, descs, entityTemps, namer), EnvMonItem(rows[i], descs, entityTemps, namer)).Some?
    ensures Matched(rows[i], descs, entityTemps) ==>
      Get(EnvMonPartition(rows, descs, entityTemps, namer), namer(rows[i].statusText, rows[i].sensorId)) == Some(Obsolete)
  {
    var p, row := rows[..i], rows[i];
    assert rows[..i + 1][..i] == p;
    var acc := EnvMonPartition(p, descs, entityTemps, namer);
    var old' := namer(row.statusText, row.sensorId);
    var acc' := if Matched(row, descs, entityTemps) then Set(acc, old', Obsolete) else acc;
    var item := EnvMonItem(row, descs, entityTemps, namer);
    SetDefaultGet(acc', item, EnvMonEntry(row, entityTemps), item);
    SetDefaultGet(acc', item, EnvMonEntry(row, entityTemps), old');
    if Matched(row, descs, entityTemps) {
      EnvMonTombstoneStays(rows, i + 1, descs, entityTemps, namer, old');
    }
    EnvMonPresentStays(rows, i + 1, descs, entityTemps, namer, item);
  }

  /** An item, once present, stays present. */
  lemma {:induction false} EnvMonPresentStays(rows: seq<EnvMonRow>, k: nat, descs: Dict<string, string>,
                                              entityTemps: Dict<string, EntityAttrs>, namer: ItemNamer, item: string)
    requires k <= |rows| && Get(EnvMonPartition(rows[..k], descs, entityTemps, namer), item).Some?
    ensures Get(EnvMonPartition(rows, descs, entityTemps, namer), item).Some?
  {
    if k < |rows| {
      var p := rows[..|rows| - 1];
      assert p[..k] == rows[..k];
      EnvMonPresentStays(p, k, descs, entityTemps, namer, item);
      var acc := EnvMonPartition(p, descs, entityTemps, namer);
      var row := rows[|rows| - 1];
      var acc' := if Matched(row, descs, entityTemps) then Set(acc, namer(row.statusText, row.sensorId), Obsolete) else acc;
      SetDefaultGet(acc', EnvMonItem(row, descs, entityTemps, namer), EnvMonEntry(row, entityTemps), item);
    } else {
      assert rows[..k] == rows;
    }
  }

  /** The first entry registered under an item. */
  function FirstEnvMonEntry(rows: seq<EnvMonRow>, descs: Dict<string, string>,
                            entityTemps: Dict<string, EntityAttrs>, namer: ItemNamer, item: string): Option<Entry>
  {
    if rows == [] then None
    else
      match FirstEnvMonEntry(rows[..|rows| - 1], descs, entityTemps, namer, item)
      case Some(e) => Some(e)
      case None =>
        var row := rows[|rows| - 1];
        if EnvMonItem(row, descs, entityTemps, namer) == item then Some(EnvMonEntry(row, entityTemps)) else None
  }

  /** An item no matched row uses as its former name holds the entry of the
      FIRST row registered under it: later rows with the same item do not
      overwrite it. */
  lemma {:induction false} EnvMonFirstWins(rows: seq<EnvMonRow>, descs: Dict<string, string>,
                                           entityTemps: Dict<string, EntityAttrs>, namer: ItemNamer, item: string)
    requires forall i :: 0 <= i < |rows| && Matched(rows[i], descs, entityTemps) ==>
               namer(rows[i].statusText, rows[i].sensorId) != item
    ensures Get(EnvMonPartition(rows, descs, entityTemps, namer), item) == FirstEnvMonEntry(rows, descs, entityTemps, namer, item)
  {
    if rows != [] {
      var p, row := rows[..|rows| - 1], rows[|rows| - 1];
      assert forall i :: 0 <= i < |p| ==> p[i] == rows[i];
      EnvMonFirstWins(p, descs, entityTemps, namer, item);
      var acc := EnvMonPartition(p, descs, entityTemps, namer);
      var acc' := if Matched(row, descs, entityTemps) then Set(acc, namer(row.statusText, row.sensorId), Obsolete) else acc;
      assert Get(acc', item) == Get(acc, item);
      SetDefaultGet(acc', EnvMonItem(row, descs, entityTemps, namer), EnvMonEntry(row, entityTemps), item);
    }
  }

  /** The env-mon loop. */
  method BuildEnvMon(rows: seq<EnvMonRow>, descs: Dict<string, string>,
                     entityTemps: Dict<string, EntityAttrs>, namer: ItemNamer)
    returns (partition: Partition)
    ensures partition == EnvMonPartition(rows, descs, entityTemps, namer)
  {
    partition := [];
    var i := 0;
    while i < |rows|
      invariant 0 <= i <= |rows|
      invariant partition == EnvMonPartition(rows[..i], descs, entityTemps, namer)
    {
      var row := rows[i];
      var item: string;
      if Get(descs, row.sensorId).Some? && Get(entityTemps, row.sensorId).Some? {
        item := Get(descs, row.sensorId).value;
        partition := Set(partition, namer(row.statusText, row.sensorId), Obsolete);
      } else {
        item := namer(row.statusText, row.sensorId);
      }
      partition := SetDefault(partition, item, EnvMonEntry(row, entityTemps));
      assert rows[..i + 1][..i] == rows[..i];
      i := i + 1;
    }
    assert rows[..i] == rows;
  }

  // ---- merging the entity sensors in ---------------------------------------------

  /** The sensors of one partition of `entity_parsed`, tagged with its type,
      in insertion order. */
  function PartitionSensors(ty: string, part: Dict<string, EntityAttrs>): (r: seq<(string, EntityAttrs)>)
    ensures |r| == |part|
    ensures forall k :: 0 <= k < |part| ==> r[k] == (ty, part[k].1)
  {
    if part == [] then [] else PartitionSensors(ty, part[..|part| - 1]) + [(ty, part[|part| - 1].1)]
  }

  /** All sensors of `entity_parsed`, partition by partition. */
  function EntitySensors(ent: EntityParsed): seq<(string, EntityAttrs)> {
    if ent == [] then []
    else EntitySensors(ent[..|ent| - 1]) + PartitionSensors(ent[|ent| - 1].0, ent[|ent| - 1].1)
  }

  /** `parsed.setdefault(sensor_type, {}).setdefault(descr, sensor_attrs)` for
      every entity sensor in turn. */
  function MergeEntities(base: Section, sensors: seq<(string, EntityAttrs)>): Section {
    if sensors == [] then base
    else
      var s := sensors[|sensors| - 1];
      SetDefaultIn(MergeEntities(base, sensors[..|sensors| - 1]), s.0, s.1.descr, Entity(s.1))
  }

  /** The entry under an item after the merge: what was there before, else the
      FIRST entity sensor of that type with that description. */
  function FirstEntity(sensors: seq<(string, EntityAttrs)>, ty: string, item: string): Option<Entry> {
    if sensors == [] then None
    else
      match FirstEntity(sensors[..|sensors| - 1], ty, item)
      case Some(e) => Some(e)
      case None =>
        var s := sensors[|sensors| - 1];
        if s.0 == ty && s.1.descr == item then Some(Entity(s.1)) else None
  }

  /** The merge does not overwrite anything (in particular no env-mon entry
      and no tombstone), adds every entity sensor under its description, and
      where several share a description the first one wins. */
  lemma {:induction false} MergeEntitiesGet(base: Section, sensors: seq<(string, EntityAttrs)>, ty: string, item: string)
    ensures Get(GetOr(MergeEntities(base, sensors), ty, []), item) ==
      if Get(GetOr(base, ty, []), item).Some? then Get(GetOr(base, ty, []), item)
      else FirstEntity(sensors, ty, item)
  {
    if sensors != [] {
      var p, s := sensors[..|sensors| - 1], sensors[|sensors| - 1];
      MergeEntitiesGet(base, p, ty, item);
      var m := MergeEntities(base, p);
      SetDefaultGet(GetOr(m, s.0, []), s.1.descr, Entity(s.1), item);
    }
  }

  /** Every entity sensor has an entry under its type and description. */
  lemma {:induction false} MergeEntitiesCovers(base: Section, sensors: seq<(string, EntityAttrs)>, k: nat)
    requires k < |sensors|
    ensures Get(GetOr(MergeEntities(base, sensors), sensors[k].0, []), sensors[k].1.descr).Some?
  {
    var ty, item := sensors[k].0, sensors[k].1.descr;
    MergeEntitiesGet(base, sensors, ty, item);
    FirstEntityFound(sensors, k);
  }

  lemma {:induction false} FirstEntityFound(sensors: seq<(string, EntityAttrs)>, k: nat)
    requires k < |sensors|
    ensures FirstEntity(sensors, sensors[k].0, sensors[k].1.descr).Some?
  {
    if k < |sensors| - 1 {
      var p := sensors[..|sensors| - 1];
      FirstEntityFound(p, k);
    }
  }

  /** One more sensor: the merge so far, then that sensor's `setdefault`. */
  lemma MergeEntitiesSnoc(base: Section, sensors: seq<(string, EntityAttrs)>, s: (string, EntityAttrs))
    ensures MergeEntities(base, sensors + [s]) == SetDefaultIn(MergeEntities(base, sensors), s.0, s.1.descr, Entity(s.1))
  {
    assert (sensors + [s])[..|sensors|] == sensors;
  }

  /** The final nested loop. */
  method BuildMerge(base: Section, ent: EntityParsed) returns (parsed: Section)
    ensures parsed == MergeEntities(base, EntitySensors(ent))
  {
    parsed := base;
    var i := 0;
    while i < |ent|
      invariant 0 <= i <= |ent|
      invariant parsed == MergeEntities(base, EntitySensors(ent[..i]))
    {
      assert ent[..i + 1][..i] == ent[..i];
      parsed := MergePartition(parsed, base, EntitySensors(ent[..i]), ent[i].0, ent[i].1);
      i := i + 1;
    }
    assert ent[..i] == ent;
  }

  /** The inner loop of the merge, over the sensors of one type. */
  method MergePartition(parsed0: Section, ghost base: Section, ghost done: seq<(string, EntityAttrs)>,
                        ty: string, sensors: Dict<string, EntityAttrs>) returns (parsed: Section)
    requires parsed0 == MergeEntities(base, done)
    ensures parsed == MergeEntities(base, done + PartitionSensors(ty, sensors))
  {
    parsed := parsed0;
    assert sensors[..0] == [] && done + [] == done;
    var j := 0;
    while j < |sensors|
      invariant 0 <= j <= |sensors|
      invariant parsed == MergeEntities(base, done + PartitionSensors(ty, sensors[..j]))
    {
      var attrs := sensors[j].1;
      parsed := SetDefaultIn(parsed, ty, attrs.descr, Entity(attrs));
      ghost var next := done + PartitionSensors(ty, sensors[..j + 1]);
      assert sensors[..j + 1][..j] == sensors[..j];
      assert next == (done + PartitionSensors(ty, sensors[..j])) + [(ty, attrs)];
      MergeEntitiesSnoc(base, done + PartitionSensors(ty, sensors[..j]), (ty, attrs));
      j := j + 1;
    }
    assert sensors[..j] == sensors;
  }

  // ---- the whole parse --------------------------------------------------------------

  function Descriptions(t: Tables): Dict<string, string> {
    FromPairs(t.descriptionInfo)
  }

  /** `entity_parsed`, or the exception of the threshold or entity loop. */
  function EntityStage(t: Tables): Result<EntityParsed> {
    var descs := Descriptions(t);
    match Thresholds(t.stateInfo, t.levelsInfo)
    case Raised(e) => Raised(e)
    case Ok(th) => CollectEntities(EntityRows(t.stateInfo, descs, AdminStates(t.adminStates, descs), th))
  }

  /** `parse_cisco_temperature`: the celsius partition holds the env-mon
      sensors first; then the entity sensors are merged in. */
  function CiscoTemperatureSection(t: Tables, namer: ItemNamer): (r: Result<Section>)
    ensures r.Ok? <==> EntityStage(t).Ok?
    // an env-mon entry (or tombstone) wins over an entity sensor of the same item
    ensures r.Ok? ==>
      forall ty, item ::
        Get(GetOr(r.value, ty, []), item) ==
          var envMon := Get(EnvMonPartition(t.perfstuff, Descriptions(t), GetOr(EntityStage(t).value, "8", []), namer), item);
          if ty == "8" && envMon.Some? then envMon else FirstEntity(EntitySensors(EntityStage(t).value), ty, item)
  {
    match EntityStage(t)
    case Raised(e) => Raised(e)
    case Ok(ent) =>
      var temps := GetOr(ent, "8", []);
      var base: Section := [("8", EnvMonPartition(t.perfstuff, Descriptions(t), temps, namer))];
      MergeEntitiesGetAll(base, EntitySensors(ent));
      SingletonSection("8", base[0].1);
      Ok(MergeEntities(base, EntitySensors(ent)))
  }

  lemma SingletonSection(key: string, p: Partition)
    ensures forall ty :: GetOr([(key, p)], ty, []) == if ty == key then p else []
  {
    forall ty: string
      ensures GetOr([(key, p)], ty, []) == if ty == key then p else []
    {
      var single: Section := [(key, p)];
      assert single[1..] == [];
      assert Get(single, ty) == if ty == key then Some(p) else None;
    }
  }

  lemma MergeEntitiesGetAll(base: Section, sensors: seq<(string, EntityAttrs)>)
    ensures forall ty, item ::
      Get(GetOr(MergeEntities(base, sensors), ty, []), item) ==
        if Get(GetOr(base, ty, []), item).Some? then Get(GetOr(base, ty, []), item)
        else FirstEntity(sensors, ty, item)
  {
    forall ty, item {
      MergeEntitiesGet(base, sensors, ty, item);
    }
  }

  /** A row of the value table that the entity loop reads at all. */
  predicate Considered(row: StateRow, descs: Dict<string, string>) {
    row.sensorType in {"8", "14"} && Describe(descs, row.sensorId) != ""
  }

  /** The parse raises exactly when a threshold row is malformed, or when an
      OK celsius or dBm sensor has an unknown scale, a precision or value
      that is no number; a missing threshold list never makes it raise. */
  lemma {:induction false} CiscoTemperatureRaises(t: Tables, namer: ItemNamer)
    ensures CiscoTemperatureSection(t, namer).Ok? <==>
      && (forall k :: 0 <= k < |t.levelsInfo| ==> ParseLevelRow(t.levelsInfo[k]).Ok?)
      && (forall i :: 0 <= i < |t.stateInfo| && Considered(t.stateInfo[i], Descriptions(t)) && t.stateInfo[i].status == "1"
            ==> EntityFactor(t.stateInfo[i]).Ok? && Strings.ParseReal(t.stateInfo[i].value).Some?)
  {
    var descs := Descriptions(t);
    var admin := AdminStates(t.adminStates, descs);
    var parsed := ParseLevelRows(t.levelsInfo);
    CollectThresholdsOk(ThresholdsInit(t.stateInfo), parsed);
    if Thresholds(t.stateInfo, t.levelsInfo).Ok? {
      var th := Thresholds(t.stateInfo, t.levelsInfo).value;
      var os := EntityRows(t.stateInfo, descs, admin, th);
      CollectEntitiesOk(os);
      forall i | 0 <= i < |t.stateInfo| && Considered(t.stateInfo[i], descs) && t.stateInfo[i].status == "1"
        ensures !os[i].Failed? <==> EntityFactor(t.stateInfo[i]).Ok? && Strings.ParseReal(t.stateInfo[i].value).Some?
      {
        if EntityFactor(t.stateInfo[i]).Ok? && Strings.ParseReal(t.stateInfo[i].value).Some? {
          OkSensorReading(t.stateInfo, t.levelsInfo, descs, admin, i);
        }
      }
    } else {
      var k :| 0 <= k < |parsed| && !parsed[k].Ok?;
      assert !ParseLevelRow(t.levelsInfo[k]).Ok?;
    }
  }

  lemma {:induction false} FirstRegisteredFound(os: seq<EntityOutcome>, i: nat)
    requires i < |os| && os[i].Registered?
    ensures FirstRegistered(os, os[i].sensorType, os[i].sid).Some?
  {
    if i < |os| - 1 {
      FirstRegisteredFound(os[..|os| - 1], i);
    }
  }

  lemma {:induction false} FirstRegisteredFrom(os: seq<EntityOutcome>, ty: string, sid: string)
    requires FirstRegistered(os, ty, sid).Some?
    ensures exists j :: 0 <= j < |os| && os[j] == Registered(ty, sid, FirstRegistered(os, ty, sid).value)
  {
    var p := os[..|os| - 1];
    if FirstRegistered(p, ty, sid).Some? {
      FirstRegisteredFrom(p, ty, sid);
      var j :| 0 <= j < |p| && p[j] == Registered(ty, sid, FirstRegistered(p, ty, sid).value);
      assert os[j] == p[j];
    } else {
      assert os[|os| - 1] == Registered(ty, sid, FirstRegistered(os, ty, sid).value);
    }
  }

  lemma {:induction false} EntitySensorsHas(ent: EntityParsed, ty: string, part: Dict<string, EntityAttrs>,
                                            sid: string, a: EntityAttrs)
    requires (ty, part) in ent && (sid, a) in part
    ensures (ty, a) in EntitySensors(ent)
  {
    var p, last := ent[..|ent| - 1], ent[|ent| - 1];
    if last == (ty, part) {
      var k :| 0 <= k < |part| && part[k] == (sid, a);
      assert PartitionSensors(ty, part)[k] == (ty, a);
    } else {
      assert ent == p + [last];
      EntitySensorsHas(p, ty, part, sid, a);
    }
  }

  /** Every celsius or dBm sensor with a description and status 1, 2 or 3 has
      an entry in the parsed section under its sensor type and description. */
  lemma {:induction false} SectionHasEntitySensor(t: Tables, namer: ItemNamer, i: nat)
    requires CiscoTemperatureSection(t, namer).Ok?
    requires i < |t.stateInfo| && Considered(t.stateInfo[i], Descriptions(t)) && t.stateInfo[i].status in {"1", "2", "3"}
    ensures Get(GetOr(CiscoTemperatureSection(t, namer).value, t.stateInfo[i].sensorType, []),
                Describe(Descriptions(t), t.stateInfo[i].sensorId)).Some?
  {
    var descs := Descriptions(t);
    var admin := AdminStates(t.adminStates, descs);
    var th := Thresholds(t.stateInfo, t.levelsInfo).value;
    var os := EntityRows(t.stateInfo, descs, admin, th);
    var row := t.stateInfo[i];
    var ty, sid := row.sensorType, row.sensorId;
    CollectEntitiesOk(os);
    assert os[i].Registered?;
    var ent := CollectEntities(os).value;
    CollectEntitiesGet(os, ty, sid);
    FirstRegisteredFound(os, i);
    FirstRegisteredFrom(os, ty, sid);
    var b := FirstRegistered(os, ty, sid).value;
    var j :| 0 <= j < |os| && os[j] == Registered(ty, sid, b);
    assert b.descr == Describe(descs, sid);
    GetKeys(ent, ty);
    var part := Get(ent, ty).value;
    GetKeys(part, sid);
    EntitySensorsHas(ent, ty, part, sid, b);
    var sensors := EntitySensors(ent);
    var k :| 0 <= k < |sensors| && sensors[k] == (ty, b);
    MergeEntitiesCovers([("8", EnvMonPartition(t.perfstuff, descs, GetOr(ent, "8", []), namer))], sensors, k);
  }

  /** In the parsed section every env-mon row keeps the entry the env-mon loop
      gave its item (the entity sensors merged in later do not replace it),
      and the former name of a sensor known to both MIBs holds the tombstone. */
  lemma {:induction false} SectionKeepsEnvMon(t: Tables, namer: ItemNamer, i: nat)
    requires CiscoTemperatureSection(t, namer).Ok?
    requires i < |t.perfstuff|
    ensures
      var temps := GetOr(EntityStage(t).value, "8", []);
      var envmon := EnvMonPartition(t.perfstuff, Descriptions(t), temps, namer);
      var final := GetOr(CiscoTemperatureSection(t, namer).value, "8", []);
      var row := t.perfstuff[i];
      var item := EnvMonItem(row, Descriptions(t), temps, namer);
      && Get(envmon, item).Some?
      && Get(final, item) == Get(envmon, item)
      && (Matched(row, Descriptions(t), temps) ==> Get(final, namer(row.statusText, row.sensorId)) == Some(Obsolete))
  {
    var descs, ent := Descriptions(t), EntityStage(t).value;
    var temps := GetOr(ent, "8", []);
    var envmon := EnvMonPartition(t.perfstuff, descs, temps, namer);
    var row := t.perfstuff[i];
    var base: Section := [("8", envmon)];
    assert GetOr(base, "8", []) == envmon;
    EnvMonRowRegistered(t.perfstuff, i, descs, temps, namer);
    MergeEntitiesGet(base, EntitySensors(ent), "8", EnvMonItem(row, descs, temps, namer));
    MergeEntitiesGet(base, EntitySensors(ent), "8", namer(row.statusText, row.sensorId));
  }

  /** `parse_cisco_temperature` as the loops compute it. */
  method ParseCiscoTemperature(t: Tables, namer: ItemNamer) returns (r: Result<Section>)
    ensures r == CiscoTemperatureSection(t, namer)
  {
    var descs := FromPairs(t.descriptionInfo);
    var admin := BuildAdminStates(t.adminStates, descs);
    var thresholds := BuildThresholds(t.stateInfo, t.levelsInfo);
    if thresholds.Raised? {
      return Raised(thresholds.error);
    }
    var entity := BuildEntities(t.stateInfo, descs, admin, thresholds.value);
    if entity.Raised? {
      return Raised(entity.error);
    }
    var temps := GetOr(entity.value, "8", []);
    var envmon := BuildEnvMon(t.perfstuff, descs, temps, namer);
    var parsed := BuildMerge([("8", envmon)], entity.value);
    r := Ok(parsed);
  }
}
