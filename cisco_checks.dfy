/** Discovery and checks of the Cisco temperature and DOM services
    (cmk/base/plugins/agent_based/cisco_temperature.py) over the parsed
    section: celsius sensors live in partition "8", dBm (digital optical
    monitoring) sensors in partition "14". */
module CiscoChecks {
  import opened Base
  import opened Dicts
  import opened CiscoParse
  import Strings

  // ---- reading an entry -------------------------------------------------------------

  /** `data["dev_state"]` of an entry that is no tombstone. */
  function DevStateOf(e: Entry): DevState
    requires !e.Obsolete?
  {
    match e
    case Entity(a) => a.devState
    case EnvMon(_, st, _, _, _) => st
  }

  /** `data.get("reading")`. */
  function ReadingOf(e: Entry): Option<real> {
    match e
    case Obsolete => None
    case Entity(a) => a.reading
    case EnvMon(_, _, r, _, _) => r
  }

  /** `data.get("dev_levels_upper")`. */
  function UpperOf(e: Entry): Levels {
    match e
    case Obsolete => None
    case Entity(a) => a.levelsUpper
    case EnvMon(_, _, _, u, _) => u
  }

  /** `data.get("dev_levels_lower")`. */
  function LowerOf(e: Entry): Levels {
    match e
    case Obsolete => None
    case Entity(a) => a.levelsLower
    case EnvMon(_, _, _, _, l) => l
  }

  // ---- temperature ----------------------------------------------------------------------

  /** Env-mon states "1" to "4" (normal, warning, critical, shutdown). */
  predicate DiscoverableEnvMonState(state: string) {
    state in {"1", "2", "3", "4"}
  }

  /** Whether `discover_cisco_temperature` yields a service for an entry: never
      for a tombstone; for an env-mon sensor with a non-empty state exactly
      when that state is discoverable; otherwise when the entity status is
      "1" (an env-mon sensor with an empty state has no entity status). */
  predicate TemperatureDiscoverable(e: Entry) {
    match e
    case Obsolete => false
    case EnvMon(st, _, _, _, _) => st != "" && DiscoverableEnvMonState(st)
    case Entity(a) => a.rawDevState == "1"
  }

  /** The services of a partition, in item order. */
  function DiscoverPartition(p: Partition): (r: seq<Service>)
    ensures |r| <= |p|
  {
    if p == [] then []
    else
      var last := p[|p| - 1];
      DiscoverPartition(p[..|p| - 1]) + (if TemperatureDiscoverable(last.1) then [Service(Some(last.0), false)] else [])
  }

  /** `discover_cisco_temperature`. */
  function DiscoverCiscoTemperature(section: Section): (r: seq<Service>)
    ensures forall s :: s in r <==>
      s.item.Some? && !s.hasParams &&
      exists k :: 0 <= k < |GetOr(section, "8", [])| &&
        GetOr(section, "8", [])[k].0 == s.item.value && TemperatureDiscoverable(GetOr(section, "8", [])[k].1)
    ensures DistinctKeys(GetOr(section, "8", [])) ==> forall i, j :: 0 <= i < j < |r| ==> r[i] != r[j]
  {
    var p := GetOr(section, "8", []);
    DiscoverPartitionIffAll(p);
    if DistinctKeys(p) then DiscoverPartitionDistinct(p); DiscoverPartition(p) else DiscoverPartition(p)
  }

  lemma DiscoverPartitionIffAll(p: Partition)
    ensures forall s :: s in DiscoverPartition(p) <==>
      s.item.Some? && !s.hasParams && exists k :: 0 <= k < |p| && p[k].0 == s.item.value && TemperatureDiscoverable(p[k].1)
  {
    forall s: Service {
      DiscoverPartitionIff(p, s);
    }
  }

  /** A service is discovered exactly for the items of partition "8" whose
      entry is discoverable; in particular a tombstone never is. */
  lemma {:induction false} DiscoverPartitionIff(p: Partition, s: Service)
    ensures s in DiscoverPartition(p) <==>
      s.item.Some? && !s.hasParams && exists k :: 0 <= k < |p| && p[k].0 == s.item.value && TemperatureDiscoverable(p[k].1)
  {
    if p != [] {
      var q := p[..|p| - 1];
      DiscoverPartitionIff(q, s);
      assert forall k :: 0 <= k < |q| ==> q[k] == p[k];
    }
  }

  /** Items of a dict are distinct, so no item is discovered twice. */
  lemma {:induction false} DiscoverPartitionDistinct(p: Partition)
    requires DistinctKeys(p)
    ensures forall i, j :: 0 <= i < j < |DiscoverPartition(p)| ==> DiscoverPartition(p)[i] != DiscoverPartition(p)[j]
  {
    if p != [] {
      var q, last := p[..|p| - 1], p[|p| - 1];
      assert forall k :: 0 <= k < |q| ==> q[k] == p[k] && q[k].0 != last.0;
      DiscoverPartitionDistinct(q);
      DiscoverPartitionIff(q, Service(Some(last.0), false));
      var more := if TemperatureDiscoverable(last.1) then [Service(Some(last.0), false)] else [];
      AppendFreshDistinct(DiscoverPartition(q), more);
    }
  }

  /** A list of distinct services stays distinct when a service not in it
      is appended. */
  lemma AppendFreshDistinct(r: seq<Service>, more: seq<Service>)
    requires forall i, j :: 0 <= i < j < |r| ==> r[i] != r[j]
    requires |more| <= 1 && forall s :: s in more ==> s !in r
    ensures forall i, j :: 0 <= i < j < |r + more| ==> (r + more)[i] != (r + more)[j]
  {
    forall i, j | 0 <= i < j < |r + more|
      ensures (r + more)[i] != (r + more)[j]
    {
      if j >= |r| {
        assert (r + more)[j] in more && (r + more)[i] == r[i];
      }
    }
  }

  const ObsoleteText := "This sensor is obsolete, please rediscover"

  /** `check_cisco_temperature`. */
  function CheckCiscoTemperature(item: string, section: Section): (r: seq<Output>)
    ensures Get(GetOr(section, "8", []), item).None? ==> r == []
    ensures Get(GetOr(section, "8", []), item) == Some(Obsolete) ==> r == [Report(UNKNOWN, ObsoleteText)]
    ensures match Get(GetOr(section, "8", []), item)
      case Some(e) =>
        !e.Obsolete? ==>
          |r| == 1 &&
          (ReadingOf(e).None? <==> r[0] == Report(DevStateOf(e).0, "Status: " + DevStateOf(e).1)) &&
          (ReadingOf(e).Some? <==> r[0].Delegate?) &&
          (r[0].Delegate? ==> r[0].call == CheckTemperature(true, ReadingOf(e).value, "cisco_temperature_" + item,
                                                            UpperOf(e), LowerOf(e),
                                                            Some(DevStateOf(e).0), Some(DevStateOf(e).1)))
      case None => true
  {
    match Get(GetOr(section, "8", []), item)
    case None => []
    case Some(e) =>
      if e.Obsolete? then [Report(UNKNOWN, ObsoleteText)]
      else
        var st := DevStateOf(e);
        match ReadingOf(e)
        case None => [Report(st.0, "Status: " + st.1)]
        case Some(v) =>
          [Delegate(CheckTemperature(true, v, "cisco_temperature_" + item, UpperOf(e), LowerOf(e), Some(st.0), Some(st.1)))]
  }

  /** Every discovered item of a parsed section (its items are distinct) can be
      checked: it yields exactly one result, and not the tombstone's. */
  lemma {:induction false} DiscoveredTemperatureIsChecked(section: Section, item: string)
    requires DistinctKeys(GetOr(section, "8", []))
    requires Service(Some(item), false) in DiscoverCiscoTemperature(section)
    ensures |CheckCiscoTemperature(item, section)| == 1
    ensures CheckCiscoTemperature(item, section)[0] != Report(UNKNOWN, ObsoleteText)
  {
    var p := GetOr(section, "8", []);
    DiscoverPartitionIff(p, Service(Some(item), false));
    var k :| 0 <= k < |p| && p[k].0 == item && TemperatureDiscoverable(p[k].1);
    assert p[k] in p;
    GetOfDistinct(p, item, p[k].1);
    var e := p[k].1;
    if ReadingOf(e).None? {
      assert ("Status: " + DevStateOf(e).1)[0] != ObsoleteText[0];
    }
  }

  /** A sensor of both MIBs leaves a tombstone under its former name; checking
      that name asks for a rediscovery. */
  lemma {:induction false} FormerNameIsObsolete(t: Tables, namer: ItemNamer, i: nat)
    requires CiscoTemperatureSection(t, namer).Ok? && i < |t.perfstuff|
    requires Matched(t.perfstuff[i], Descriptions(t), GetOr(EntityStage(t).value, "8", []))
    ensures CheckCiscoTemperature(namer(t.perfstuff[i].statusText, t.perfstuff[i].sensorId),
                                  CiscoTemperatureSection(t, namer).value)
            == [Report(UNKNOWN, ObsoleteText)]
  {
    SectionKeepsEnvMon(t, namer, i);
  }

  // ---- digital optical monitoring ------------------------------------------------------

  /** `{_CISCO_TEMPERATURE_ADMIN_STATE_MAP[s] for s in codes} | {None}`; an
      unknown code raises KeyError. */
  function AdminStatesToDiscover(codes: seq<string>): (r: Result<set<Option<string>>>)
    ensures r.Ok? <==> forall k :: 0 <= k < |codes| ==> codes[k] in {"1", "2", "3"}
    ensures r.Ok? ==> None in r.value
    ensures r.Ok? ==> forall k :: 0 <= k < |codes| ==> AdminStateName(codes[k]) in r.value
  {
    if codes == [] then Ok({None})
    else
      match AdminStatesToDiscover(codes[..|codes| - 1])
      case Raised(e) => Raised(e)
      case Ok(states) =>
        var name := AdminStateName(codes[|codes| - 1]);
        if name.None? then Raised("KeyError") else Ok(states + {name})
  }

  /** The admin states of the discovery rule; without a rule only "up". */
  function DiscoveryAdminCodes(configured: Option<seq<string>>): seq<string> {
    match configured
    case Some(codes) => codes
    case None => ["1"]
  }

  /** Whether a dBm entry is discovered: an entity sensor with status OK and
      an admin state to discover. */
  predicate DomDiscoverable(e: Entry, allowed: set<Option<string>>) {
    e.Entity? && e.attrs.rawDevState == "1" && e.attrs.adminState in allowed
  }

  /** The DOM services of the sensors in a partition, in item order. */
  function DiscoverDomPartition(p: Partition, allowed: set<Option<string>>): (r: seq<Service>)
    ensures |r| <= |p|
  {
    if p == [] then []
    else
      var last := p[|p| - 1];
      DiscoverDomPartition(p[..|p| - 1], allowed) + (if DomDiscoverable(last.1, allowed) then [Service(Some(last.0), false)] else [])
  }

  /** `discover_cisco_temperature_dom`. */
  function DiscoverCiscoTemperatureDom(configured: Option<seq<string>>, section: Section): (r: Result<seq<Service>>)
    ensures r.Ok? <==> forall k :: 0 <= k < |DiscoveryAdminCodes(configured)| ==> DiscoveryAdminCodes(configured)[k] in {"1", "2", "3"}
    ensures r.Ok? ==> |r.value| <= |GetOr(section, "14", [])|
    ensures r.Ok? && DistinctKeys(GetOr(section, "14", [])) ==> forall i, j :: 0 <= i < j < |r.value| ==> r.value[i] != r.value[j]
  {
    match AdminStatesToDiscover(DiscoveryAdminCodes(configured))
    case Raised(e) => Raised(e)
    case Ok(allowed) =>
      var p := GetOr(section, "14", []);
      if DistinctKeys(p) then DiscoverDomPartitionDistinct(p, allowed); Ok(DiscoverDomPartition(p, allowed))
      else Ok(DiscoverDomPartition(p, allowed))
  }

  /** A dBm sensor is discovered exactly when its status is OK ("1") and its
      admin state is one of the configured ones or unknown; by default only
      ports that are up or whose admin state is unknown. */
  lemma {:induction false} DiscoverDomIff(configured: Option<seq<string>>, section: Section, item: string)
    requires DiscoverCiscoTemperatureDom(configured, section).Ok?
    ensures Service(Some(item), false) in DiscoverCiscoTemperatureDom(configured, section).value <==>
      exists k :: 0 <= k < |GetOr(section, "14", [])| &&
        var e := GetOr(section, "14", [])[k];
        e.0 == item && e.1.Entity? && e.1.attrs.rawDevState == "1" &&
        (e.1.attrs.adminState.None? ||
         exists c :: c in DiscoveryAdminCodes(configured) && e.1.attrs.adminState == AdminStateName(c))
  {
    var allowed := AdminStatesToDiscover(DiscoveryAdminCodes(configured)).value;
    AllowedAdminStates(DiscoveryAdminCodes(configured));
    DiscoverDomPartitionIff(GetOr(section, "14", []), allowed, item);
  }

  lemma {:induction false} AllowedAdminStates(codes: seq<string>)
    requires AdminStatesToDiscover(codes).Ok?
    ensures forall s :: s in AdminStatesToDiscover(codes).value <==>
      s.None? || exists c :: c in codes && s == AdminStateName(c)
  {
    if codes != [] {
      var p := codes[..|codes| - 1];
      AllowedAdminStates(p);
      assert forall c :: c in codes <==> c in p || c == codes[|codes| - 1];
    }
  }

  /** No dBm item is discovered twice. */
  lemma {:induction false} DiscoverDomPartitionDistinct(p: Partition, allowed: set<Option<string>>)
    requires DistinctKeys(p)
    ensures forall i, j :: 0 <= i < j < |DiscoverDomPartition(p, allowed)| ==>
      DiscoverDomPartition(p, allowed)[i] != DiscoverDomPartition(p, allowed)[j]
  {
    if p != [] {
      var q, last := p[..|p| - 1], p[|p| - 1];
      assert forall k :: 0 <= k < |q| ==> q[k] == p[k] && q[k].0 != last.0;
      DiscoverDomPartitionDistinct(q, allowed);
      DiscoverDomPartitionIff(q, allowed, last.0);
      var more := if DomDiscoverable(last.1, allowed) then [Service(Some(last.0), false)] else [];
      AppendFreshDistinct(DiscoverDomPartition(q, allowed), more);
    }
  }

  lemma {:induction false} DiscoverDomPartitionIff(p: Partition, allowed: set<Option<string>>, item: string)
    ensures Service(Some(item), false) in DiscoverDomPartition(p, allowed) <==>
      exists k :: 0 <= k < |p| && p[k].0 == item && DomDiscoverable(p[k].1, allowed)
  {
    if p != [] {
      var q, last := p[..|p| - 1], p[|p| - 1];
      DiscoverDomPartitionIff(q, allowed, item);
      var s := Service(Some(item), false);
      var more := if DomDiscoverable(last.1, allowed) then [Service(Some(last.0), false)] else [];
      assert DiscoverDomPartition(p, allowed) == DiscoverDomPartition(q, allowed) + more;
      if exists k :: 0 <= k < |p| && p[k].0 == item && DomDiscoverable(p[k].1, allowed) {
        var k :| 0 <= k < |p| && p[k].0 == item && DomDiscoverable(p[k].1, allowed);
        if k < |q| {
          assert q[k] == p[k];
        } else {
          assert s in more;
        }
      }
      if s in DiscoverDomPartition(p, allowed) {
        if s in DiscoverDomPartition(q, allowed) {
          var k :| 0 <= k < |q| && q[k].0 == item && DomDiscoverable(q[k].1, allowed);
          assert q[k] == p[k];
        } else {
          assert s in more;
          assert p[|p| - 1].0 == item && DomDiscoverable(p[|p| - 1].1, allowed);
        }
      }
    }
  }

  /** The levels a DOM rule may give: an explicit (warn, crit) tuple, or a
      flag whether to use the device's levels. */
  datatype UserLevels = Explicit(warn: real, crit: real) | UseDevice(enabled: bool)

  /** `_determine_levels`: explicit levels win; the flag True takes the
      device's levels when it has both, False means no levels. */
  function DetermineLevels(user: UserLevels, device: Levels): (r: Levels)
    ensures user.Explicit? ==> r == Some((user.warn, user.crit))
    ensures user == UseDevice(true) ==> r == device
    ensures user == UseDevice(false) ==> r.None?
  {
    match user
    case Explicit(w, c) => Some((w, c))
    case UseDevice(enabled) => if enabled then device else None
  }

  /** `params.get(key, True)`: without a rule the device's levels are used. */
  function LevelsRule(configured: Option<UserLevels>): (r: UserLevels)
    ensures configured.Some? ==> r == configured.value
    ensures configured.None? ==> r == UseDevice(true)
  {
    match configured
    case Some(u) => u
    case None => UseDevice(true)
  }

  /** The metric of a DOM sensor: transmit power when the description says
      "Transmit" (even if it also says "Receive"), receive power when it says
      "Receive", and a neutral name otherwise. */
  function DomMetric(descr: string): (name: string)
    ensures Strings.Contains(descr, "Transmit") ==> name == "output_signal_power_dbm"
    ensures !Strings.Contains(descr, "Transmit") && Strings.Contains(descr, "Receive") ==> name == "input_signal_power_dbm"
    ensures !Strings.Contains(descr, "Transmit") && !Strings.Contains(descr, "Receive") ==> name == "signal_power_dbm"
  {
    if Strings.Contains(descr, "Transmit") then "output_signal_power_dbm"
    else if Strings.Contains(descr, "Receive") then "input_signal_power_dbm"
    else "signal_power_dbm"
  }

  /** `check_cisco_temperature_dom`: nothing for an unknown item or a
      tombstone; otherwise the status, and for a sensor with a reading the
      signal power against the chosen levels. Only an env-mon entry could
      lack the description and raise KeyError; the parse never puts one in
      partition "14". */
  function CheckCiscoTemperatureDom(item: string, lowerRule: Option<UserLevels>, upperRule: Option<UserLevels>,
                                    section: Section): (r: Result<seq<Output>>)
    ensures match Get(GetOr(section, "14", []), item)
      case None => r == Ok([])
      case Some(e) =>
        && (e.Obsolete? ==> r == Ok([]))
        && (e.Entity? ==>
              && r.Ok? && 1 <= |r.value| <= 2
              && r.value[0] == Report(e.attrs.devState.0, "Status: " + e.attrs.devState.1)
              && (|r.value| == 2 <==> e.attrs.reading.Some?)
              && (e.attrs.reading.Some? ==>
                    r.value[1] == Delegate(CheckLevels(e.attrs.reading.value, DomMetric(e.attrs.descr),
                                                       DetermineLevels(LevelsRule(upperRule), e.attrs.levelsUpper),
                                                       DetermineLevels(LevelsRule(lowerRule), e.attrs.levelsLower),
                                                       "Signal power"))))
        && (e.EnvMon? ==> (r.Raised? <==> e.reading.Some?))
  {
    match Get(GetOr(section, "14", []), item)
    case None => Ok([])
    case Some(e) =>
      if e.Obsolete? then Ok([])
      else
        var st := DevStateOf(e);
        var status := Report(st.0, "Status: " + st.1);
        match ReadingOf(e)
        case None => Ok([status])
        case Some(v) =>
          if !e.Entity? then Raised("KeyError")
          else
            var lower := DetermineLevels(LevelsRule(lowerRule), e.attrs.levelsLower);
            var upper := DetermineLevels(LevelsRule(upperRule), e.attrs.levelsUpper);
            Ok([status, Delegate(CheckLevels(v, DomMetric(e.attrs.descr), upper, lower, "Signal power"))])
  }

  /** Without DOM rules the device's levels of an OK sensor go to
      `check_levels`, upper as upper and lower as lower. */
  lemma {:induction false} DomDefaultUsesDeviceLevels(item: string, section: Section, a: EntityAttrs)
    requires Get(GetOr(section, "14", []), item) == Some(Entity(a)) && a.reading.Some?
    ensures CheckCiscoTemperatureDom(item, None, None, section)
            == Ok([Report(a.devState.0, "Status: " + a.devState.1),
                   Delegate(CheckLevels(a.reading.value, DomMetric(a.descr), a.levelsUpper, a.levelsLower, "Signal power"))])
  {
  }

  /** The parse puts only entity sensors into partition "14", so the DOM check
      of a parsed section never raises. */
  lemma {:induction false} DomPartitionHoldsEntities(t: Tables, namer: ItemNamer, item: string)
    requires CiscoTemperatureSection(t, namer).Ok?
    ensures Get(GetOr(CiscoTemperatureSection(t, namer).value, "14", []), item).Some? ==>
            Get(GetOr(CiscoTemperatureSection(t, namer).value, "14", []), item).value.Entity?
    ensures forall lo, up :: CheckCiscoTemperatureDom(item, lo, up, CiscoTemperatureSection(t, namer).value).Ok?
  {
    var ent := EntityStage(t).value;
    var base: Section := [("8", EnvMonPartition(t.perfstuff, Descriptions(t), GetOr(ent, "8", []), namer))];
    assert CiscoTemperatureSection(t, namer).value == MergeEntities(base, EntitySensors(ent));
    MergeEntitiesGet(base, EntitySensors(ent), "14", item);
    assert base[0].0 != "14" by { assert |base[0].0| == 1; }
    assert base[1..] == [];
    assert Get(base[1..], "14") == None;
    assert Get(base, "14") == None;
    assert GetOr(base, "14", []) == [];
    FirstEntityIsEntity(EntitySensors(ent), "14", item);
  }

  lemma {:induction false} FirstEntityIsEntity(sensors: seq<(string, EntityAttrs)>, ty: string, item: string)
    ensures FirstEntity(sensors, ty, item).Some? ==> FirstEntity(sensors, ty, item).value.Entity?
  {
    if sensors != [] {
      FirstEntityIsEntity(sensors[..|sensors| - 1], ty, item);
    }
  }
}
