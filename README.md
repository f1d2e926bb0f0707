# Checkmk check plugins: a verified Dafny model

This project models a group of Checkmk monitoring plugins and proves
properties of them. Each plugin turns SNMP or agent output into a
*section*, *discovers* services (items) on it, and *checks* each item.

- **Cisco temperature and DOM** (`cisco_temperature.py`). Three Cisco
  tables (entity sensors with their thresholds, legacy env-mon
  temperatures, interface admin states) are reconciled into one section
  keyed by sensor type: "8" is celsius and "14" is dBm. Modules
  `CiscoSensor` (scale table, device thresholds), `CiscoParse` (the parse)
  and `CiscoChecks` (discovery and checks).
- **Huawei WLC access points** (`HuaweiWlcAps`): pairs each AP row with
  two band rows and provides the status, CPU, memory and temperature
  services.
- **Linux interfaces from sysfs** (`LnxIf`): `name\vvalue` tokens become
  interface attributes and counters.
- **Small legacy checks**: `DellPowerconnectTemp`, `HuaweiOsnPower`,
  `EmersonTemp`, `EltekOutdoorTemp`, `ArrisCmtsTemp`, `CiscoUcsTempEnv`,
  `ScaleioPd`, `AwsRdsLimits` and `VnxVersion`.

Support modules:

- `Base`: `Option`, `Result`, monitoring states, and what a check yields.
- `Dicts`: a Python dict as an association list in insertion order.
  Assignment keeps the key's position and the last write wins;
  `setdefault` keeps the first value.
- `Strings`: digit strings, `int`/`float` parsing, split, strip, replace.
- `Sorting`: insertion sort on reals, with uniqueness of the sorted
  permutation.

How the model represents Python:

- **Exceptions.** Python code that may raise returns
  `Result.Raised(name)`. A parse that raises fails as a whole.
- **Loops.** Loops that fill a dict are `method`s with loop invariants.
  Each is proved equal to a recursive function over its input rows, and
  the lemmas are stated about that function.
- **Unseen helpers.** Helpers whose code is not part of this model
  (`check_temperature`, `check_levels`, `df_check_filesystem_list`) appear
  as `Delegate` records of the arguments the plugin passes them. Helpers
  that compute values (`cisco_sensor_item`, `mac_address_from_hexstring`,
  `convert_scaleio_space`) are function parameters.
- **Numbers.** Floats are exact `real`s.

## Model

| member | source | states |
|---|---|---|
| CiscoSensor.RelationFromCode | cmk/base/plugins/agent_based/cisco_temperature.py:59-65 | A relation code is valid exactly when it is 1..6; any other code makes the enum constructor raise |
| CiscoSensor.SeverityFromCode | cmk/base/plugins/agent_based/cisco_temperature.py:68-72 | A severity code is valid exactly when it is 1, 10, 20 or 30 |
| CiscoSensor.RelationCode | cmk/base/plugins/agent_based/cisco_temperature.py:59-65 | Every relation has a code that decodes back to it (round trip) |
| CiscoSensor.SeverityCode | cmk/base/plugins/agent_based/cisco_temperature.py:68-72 | Every severity has a code that decodes back to it (round trip) |
| CiscoSensor.ScaleExponent | cmk/base/plugins/agent_based/cisco_temperature.py:156-174 | A known scale code gives a multiple of 3 between −24 and 24 |
| CiscoSensor.ScaleCodesKnown | cmk/base/plugins/agent_based/cisco_temperature.py:156-174 | Exactly the codes "1" to "17" are known; any other text ("0", "01", "18", "abc") raises KeyError |
| CiscoSensor.ScaleCode | cmk/base/plugins/agent_based/cisco_temperature.py:156-174 | Scale code k (1..17, in decimal) has exponent 3·(k−9), except that 14 is +18 and 15 is +15 |
| CiscoSensor.ScaleTableIsMetricWithExaPetaSwapped | cmk/base/plugins/agent_based/cisco_temperature.py:156-174 | The whole scale table is the metric prefix series with exa and peta swapped; codes 0, 18 and "" are unknown |
| CiscoSensor.Pow10 | cmk/base/plugins/agent_based/cisco_temperature.py:280 | The scale factor `10 ** e` is positive and is 1 for e = 0 |
| CiscoSensor.Pow10Step | cmk/base/plugins/agent_based/cisco_temperature.py:280 | One step up in the exponent multiplies by ten, for negative exponents too; with Pow10(0) = 1 this makes Pow10 `10.0 ** e` |
| CiscoSensor.FilterForRelation | cmk/base/plugins/agent_based/cisco_temperature.py:82-86 | The dict has one entry per severity, and each entry is a threshold of the input with the relation and that severity |
| CiscoSensor.FilterForRelationLastWins | cmk/base/plugins/agent_based/cisco_temperature.py:82-86 | The filtered dict has a severity exactly when some threshold has the relation and that severity; its value is the last such threshold |
| CiscoSensor.FilterForRelationValue | cmk/base/plugins/agent_based/cisco_temperature.py:86 | The filtered value of a severity is the value of the last threshold with that relation and severity |
| CiscoSensor.SpecifiedThresholdsChoice | cmk/base/plugins/agent_based/cisco_temperature.py:96-111 | warn comes from MINOR; crit comes from MAJOR, else CRITICAL; both give (warn·f, crit·f); crit alone gives (crit·f, crit·f); no crit gives None |
| CiscoSensor.ParseSpecifiedThresholds | cmk/base/plugins/agent_based/cisco_temperature.py:96-111 | Levels exist iff some threshold with the relation is MAJOR or CRITICAL; crit is such a threshold scaled; warn is crit or a scaled MINOR threshold |
| CiscoSensor.Scaled | cmk/base/plugins/agent_based/cisco_temperature.py:123 | The scaled list holds every threshold's value times the factor, in order |
| CiscoSensor.ParseUnspecifiedThresholds | cmk/base/plugins/agent_based/cisco_temperature.py:114-131 | Upper levels iff 2 or 4 thresholds, lower iff 4; warn ≤ crit upper, crit lower ≤ warn lower ≤ warn upper |
| CiscoSensor.UnspecifiedThresholdsShape | cmk/base/plugins/agent_based/cisco_temperature.py:114-131 | Upper levels exist iff there are 2 or 4 thresholds, lower iff 4; they are exactly the scaled values, ordered crit lower ≤ warn lower ≤ warn upper ≤ crit upper |
| CiscoSensor.UnspecifiedFourThresholdsExample | cmk/base/plugins/agent_based/cisco_temperature.py:123-126 | With factor 1.0, the thresholds d, a, c, b (in that order) with a<b<c<d give upper (c, d) and lower (b, a): the input order does not matter to the result |
| CiscoSensor.UnspecifiedTwoThresholdsExample | cmk/base/plugins/agent_based/cisco_temperature.py:127-128 | With factor 1.0, the thresholds y, x (in that order) with x ≤ y give upper (x, y) and no lower levels |
| CiscoSensor.SortFour | cmk/base/plugins/agent_based/cisco_temperature.py:123 | `sorted` of a shuffled four-element list is the ascending list |
| CiscoSensor.OtherSeverityOnly | cmk/base/plugins/agent_based/cisco_temperature.py:290-294 | The unspecified thresholds are exactly those of severity OTHER |
| CiscoSensor.CelsiusAllOtherIsUnspecified | cmk/base/plugins/agent_based/cisco_temperature.py:289-319 | A celsius sensor whose thresholds all have severity OTHER gets the unspecified reading of all of them |
| CiscoSensor.OtherOnlyKeepsAllOther | cmk/base/plugins/agent_based/cisco_temperature.py:290-294 | Filtering for OTHER keeps a list whose thresholds are all OTHER unchanged |
| CiscoSensor.DeviceLevels | cmk/base/plugins/agent_based/cisco_temperature.py:282-319 | Where the levels come from: dBm sensors (type "14") read all thresholds as unspecified; other sensors read them as specified (≥ thresholds give the upper, < thresholds the lower levels) when some severity is not OTHER, else read only the OTHER thresholds as unspecified; all values are scaled by the factor. No thresholds: no levels; dBm: upper iff 2 or 4 thresholds, lower iff 4; specified: upper (lower) levels iff some ≥ (<) threshold is MAJOR or CRITICAL |
| Sorting.SortRealsMultiset | cmk/base/plugins/agent_based/cisco_temperature.py:123 | `sorted` returns a permutation of its input |
| Sorting.SortedPermutation | cmk/base/plugins/agent_based/cisco_temperature.py:123 | Any sorted permutation of the input is what `sorted` returns |
| Sorting.SortedUnique | cmk/base/plugins/agent_based/cisco_temperature.py:123 | Two sorted lists with the same elements are equal |
| CiscoParse.AdminStateName | cmk/base/plugins/agent_based/cisco_temperature.py:52-56 | An admin code has a name ("up", "down", "testing") iff it is 1, 2 or 3; `.get` gives None otherwise |
| CiscoParse.MarkInterfaceGet | cmk/base/plugins/agent_based/cisco_temperature.py:232-234 | One interface marks exactly the sensors whose description starts with its name and leaves every other sensor as it was |
| CiscoParse.AdminStateOfSensor | cmk/base/plugins/agent_based/cisco_temperature.py:230-234 | A sensor's admin state is that of the last interface row whose name prefixes its description; a sensor with no description has none |
| CiscoParse.BuildAdminStates | cmk/base/plugins/agent_based/cisco_temperature.py:230-234 | The nested loop computes the admin-state dict |
| CiscoParse.ThresholdsInitGet | cmk/base/plugins/agent_based/cisco_temperature.py:238-239 | After the first loop every sensor id of the value table, and only those, has an empty list |
| CiscoParse.LevelRowRoundTrip | cmk/base/plugins/agent_based/cisco_temperature.py:243-250 | A well-formed threshold row "<id>.<sub>" with valid codes parses back to the threshold of sensor <id> |
| CiscoParse.ParseLevelRow | cmk/base/plugins/agent_based/cisco_temperature.py:243-250 | A row reads iff its end OID has one "." and severity, relation and value parse to valid codes and a float (else ValueError); the sensor id is the part before the "." and the threshold decodes the row's fields |
| CiscoParse.ParseLevelRows | cmk/base/plugins/agent_based/cisco_temperature.py:241-250 | Every threshold row is parsed on its own, in order |
| CiscoParse.CollectThresholdsOk | cmk/base/plugins/agent_based/cisco_temperature.py:241-250 | The threshold loop raises iff some row fails to parse |
| CiscoParse.CollectThresholdsNext | cmk/base/plugins/agent_based/cisco_temperature.py:241-250 | One more row extends the collected thresholds by that row's append |
| CiscoParse.CollectThresholdsRaisedStays | cmk/base/plugins/agent_based/cisco_temperature.py:241-250 | Once a row raised, later rows do not change the outcome |
| CiscoParse.CollectThresholdsLists | cmk/base/plugins/agent_based/cisco_temperature.py:237-250 | A sensor's list is its initial list followed by its thresholds in row order; a sensor with neither has no key |
| CiscoParse.BuildThresholds | cmk/base/plugins/agent_based/cisco_temperature.py:237-250 | The two loops compute the threshold dict |
| CiscoParse.StartThresholds | cmk/base/plugins/agent_based/cisco_temperature.py:238-239 | The first loop computes the initial empty lists |
| CiscoParse.AddLevelRows | cmk/base/plugins/agent_based/cisco_temperature.py:241-250 | The second loop appends every parsed threshold, or raises |
| CiscoParse.ThresholdsOfStateSensor | cmk/base/plugins/agent_based/cisco_temperature.py:237-250 | With parsable rows, every sensor of the value table has exactly its own thresholds, in row order |
| CiscoParse.EntityStatusState | cmk/base/plugins/agent_based/cisco_temperature.py:177-181 | Status 1 is (0, "OK"), 2 is (3, "unavailable"), 3 is (2, "non-operational"); an unknown status is (3, "unknown[s]") |
| CiscoParse.Describe | cmk/base/plugins/agent_based/cisco_temperature.py:259-262 | A sensor is described by its description, or by its id if it has none |
| CiscoParse.EntityRow | cmk/base/plugins/agent_based/cisco_temperature.py:254-325 | Only celsius/dBm sensors with a non-empty description count; status 1 carries a reading, 2 and 3 are registered without one, any other status only opens the partition; description, raw and readable status and admin state are recorded |
| CiscoParse.EntityRows | cmk/base/plugins/agent_based/cisco_temperature.py:254 | Every value-table row is handled on its own, in order |
| CiscoParse.CollectEntitiesOk | cmk/base/plugins/agent_based/cisco_temperature.py:253-325 | The entity loop raises iff the reading of some OK sensor raises |
| CiscoParse.CollectEntitiesRaisedStays | cmk/base/plugins/agent_based/cisco_temperature.py:253-325 | Once a row raised, later rows do not change the outcome |
| CiscoParse.CollectEntitiesNext | cmk/base/plugins/agent_based/cisco_temperature.py:253-325 | One more row extends the entity dict by that row's step |
| CiscoParse.CollectEntitiesGet | cmk/base/plugins/agent_based/cisco_temperature.py:267-325 | A type partition exists iff some row of that type opened it; a sensor's entry is the first registered row of that sensor (first wins) |
| CiscoParse.BuildEntities | cmk/base/plugins/agent_based/cisco_temperature.py:253-325 | The entity loop computes the per-type entity dict |
| CiscoParse.OkSensorReading | cmk/base/plugins/agent_based/cisco_temperature.py:279-322 | An OK sensor's reading is value · 10^(exp − precision) and its levels are the device levels of its own thresholds |
| CiscoParse.EntityFactor | cmk/base/plugins/agent_based/cisco_temperature.py:280 | Unknown scale: KeyError; unparsable precision: ValueError; else the positive factor 10^(exponent − precision) |
| CiscoParse.EnvMonStatusState | cmk/base/plugins/agent_based/cisco_temperature.py:184-191 | Env-mon state 1 is (0, "normal"), 2 (1, "warning"), 3 (2, "critical"), 4 (2, "shutdown"), 5 (3, "not present"), 6 (2, "not functioning"); CRIT exactly for 3, 4 and 6; an unknown state is (3, "unknown[s]") |
| CiscoParse.EnvMonEntry | cmk/base/plugins/agent_based/cisco_temperature.py:342-360 | A reading iff `int(temp)` succeeds, else the sensor is defect without levels; the entity's upper levels win when present; otherwise an empty or zero `max_temp` gives no upper levels, a non-zero one gives (m, m), an unparsable one makes the sensor defect; a sensor that is not defect has the entity's lower levels |
| CiscoParse.EnvMonItem | cmk/base/plugins/agent_based/cisco_temperature.py:331-340 | A sensor with a description and a registered celsius entity is named by its description, any other by the item namer |
| CiscoParse.EnvMonStep | cmk/base/plugins/agent_based/cisco_temperature.py:330-362 | The row's item is present after the step, holds the row's entry if it was new and unmatched; a matched row leaves a tombstone under its former name; no other item changes |
| CiscoParse.EnvMonPartition | cmk/base/plugins/agent_based/cisco_temperature.py:328-362 | The partition has distinct items, and each is the item or the former name of some row |
| CiscoParse.EnvMonTombstoneStays | cmk/base/plugins/agent_based/cisco_temperature.py:338-362 | A tombstone, once set, survives the rest of the loop |
| CiscoParse.EnvMonRowRegistered | cmk/base/plugins/agent_based/cisco_temperature.py:330-362 | Every env-mon row's item is in the partition; a matched row leaves a tombstone under its former name |
| CiscoParse.EnvMonPresentStays | cmk/base/plugins/agent_based/cisco_temperature.py:362 | An item once present stays present |
| CiscoParse.EnvMonFirstWins | cmk/base/plugins/agent_based/cisco_temperature.py:362 | Away from tombstones, an item holds the entry of the first row naming it |
| CiscoParse.BuildEnvMon | cmk/base/plugins/agent_based/cisco_temperature.py:328-362 | The env-mon loop computes the celsius partition |
| CiscoParse.PartitionSensors | cmk/base/plugins/agent_based/cisco_temperature.py:364-365 | Every entity sensor of a partition is visited with its type, in order |
| CiscoParse.MergeEntitiesGet | cmk/base/plugins/agent_based/cisco_temperature.py:364-367 | After the merge an item keeps its env-mon entry if it had one, else gets the first entity sensor described by it |
| CiscoParse.MergeEntitiesCovers | cmk/base/plugins/agent_based/cisco_temperature.py:364-367 | Every entity sensor's description is an item of its type after the merge |
| CiscoParse.FirstEntityFound | cmk/base/plugins/agent_based/cisco_temperature.py:367 | Every entity sensor is found under its own description |
| CiscoParse.MergeEntitiesSnoc | cmk/base/plugins/agent_based/cisco_temperature.py:367 | One more sensor is one more nested `setdefault` |
| CiscoParse.BuildMerge | cmk/base/plugins/agent_based/cisco_temperature.py:364-367 | The merge loop computes the merged section |
| CiscoParse.MergePartition | cmk/base/plugins/agent_based/cisco_temperature.py:365-367 | The inner merge loop adds one type's sensors to the merge |
| CiscoParse.CiscoTemperatureSection | cmk/base/plugins/agent_based/cisco_temperature.py:134-369 | The parse raises iff the entity stage raises; in the section a celsius item holds its env-mon entry when there is one, and otherwise, in every partition, the first entity sensor described by the item |
| CiscoParse.CiscoTemperatureRaises | cmk/base/plugins/agent_based/cisco_temperature.py:241-281 | The parse raises iff a threshold row fails or an OK celsius/dBm sensor has an unknown scale or an unparsable precision or value |
| CiscoParse.FirstRegisteredFound | cmk/base/plugins/agent_based/cisco_temperature.py:323-325 | A registered sensor is found by the first-wins lookup |
| CiscoParse.FirstRegisteredFrom | cmk/base/plugins/agent_based/cisco_temperature.py:323-325 | What the first-wins lookup finds was registered by some row |
| CiscoParse.EntitySensorsHas | cmk/base/plugins/agent_based/cisco_temperature.py:364-365 | Every sensor of every partition is visited by the merge |
| CiscoParse.SectionHasEntitySensor | cmk/base/plugins/agent_based/cisco_temperature.py:323-367 | Every considered celsius/dBm sensor with status 1, 2 or 3 is an item of its type in the section |
| CiscoParse.SectionKeepsEnvMon | cmk/base/plugins/agent_based/cisco_temperature.py:330-367 | The merge never overwrites an env-mon entry or a tombstone |
| CiscoParse.ParseCiscoTemperature | cmk/base/plugins/agent_based/cisco_temperature.py:134-369 | The parse method computes the section |
| CiscoChecks.DiscoverPartition | cmk/base/plugins/agent_based/cisco_temperature.py:447-458 | No more services than items in the partition |
| CiscoChecks.DiscoverPartitionDistinct | cmk/base/plugins/agent_based/cisco_temperature.py:447-458 | With distinct items, at most one service per item |
| CiscoChecks.DiscoverPartitionIff | cmk/base/plugins/agent_based/cisco_temperature.py:447-458 | A service is discovered iff its item's entry is discoverable: never a tombstone; env-mon by a non-empty state 1..4, entity by status 1 |
| CiscoChecks.DiscoverCiscoTemperature | cmk/base/plugins/agent_based/cisco_temperature.py:447-458 | A service is discovered iff it is the item, without parameters, of a discoverable celsius entry; with distinct items no service repeats |
| CiscoChecks.CheckCiscoTemperature | cmk/base/plugins/agent_based/cisco_temperature.py:461-486 | Unknown item: nothing; tombstone: UNKNOWN "obsolete"; no reading: the device state with "Status: …"; else the temperature helper with the entry's levels and state |
| CiscoChecks.DiscoveredTemperatureIsChecked | cmk/base/plugins/agent_based/cisco_temperature.py:447-475 | A discovered item gets exactly one result, which is not the obsolete message |
| CiscoChecks.FormerNameIsObsolete | cmk/base/plugins/agent_based/cisco_temperature.py:333-338 | Checking the former name of a reconciled sensor gives the obsolete message |
| CiscoChecks.AdminStatesToDiscover | cmk/base/plugins/agent_based/cisco_temperature.py:513-516 | The allowed set contains None and every configured state's name; an unknown code raises KeyError |
| CiscoChecks.AllowedAdminStates | cmk/base/plugins/agent_based/cisco_temperature.py:513-516 | The allowed set is exactly None plus the configured states' names |
| CiscoChecks.DiscoverDomPartition | cmk/base/plugins/agent_based/cisco_temperature.py:517-521 | No more DOM services than items in the partition |
| CiscoChecks.DiscoverDomPartitionDistinct | cmk/base/plugins/agent_based/cisco_temperature.py:517-521 | With distinct items, at most one DOM service per item |
| CiscoChecks.DiscoverDomPartitionIff | cmk/base/plugins/agent_based/cisco_temperature.py:517-521 | A DOM service is discovered iff the item's entity entry has status 1 and an allowed admin state |
| CiscoChecks.DiscoverDomIff | cmk/base/plugins/agent_based/cisco_temperature.py:511-521 | The same from the configuration: admin state unknown or one of the configured ones (default "up") |
| CiscoChecks.DiscoverCiscoTemperatureDom | cmk/base/plugins/agent_based/cisco_temperature.py:511-521 | Raises iff a configured admin state is unknown; no more services than dBm items, and none repeats when the items are distinct |
| CiscoChecks.DetermineLevels | cmk/base/plugins/agent_based/cisco_temperature.py:524-534 | An explicit tuple wins; True gives the device levels; False gives None |
| CiscoChecks.LevelsRule | cmk/base/plugins/agent_based/cisco_temperature.py:570-571 | A configured levels rule is used as it is; without one the device levels are used |
| CiscoChecks.DomMetric | cmk/base/plugins/agent_based/cisco_temperature.py:557-564 | "Transmit" gives output power before "Receive" gives input power; otherwise the neutral name |
| CiscoChecks.CheckCiscoTemperatureDom | cmk/base/plugins/agent_based/cisco_temperature.py:537-574 | Unknown item: nothing; entity: the status result, then exactly when there is a reading the levels helper with the DOM metric and the levels the rules (default: device levels) determine from the entry's upper and lower device levels |
| CiscoChecks.DomDefaultUsesDeviceLevels | cmk/base/plugins/agent_based/cisco_temperature.py:549-574 | Without rules the DOM check uses the device levels, upper and lower |
| CiscoChecks.DomPartitionHoldsEntities | cmk/base/plugins/agent_based/cisco_temperature.py:542-557 | The dBm partition holds only entity sensors, so the DOM check never raises |
| CiscoChecks.FirstEntityIsEntity | cmk/base/plugins/agent_based/cisco_temperature.py:367 | The merge adds only entity entries |
| Dicts.Set | cmk/base/plugins/agent_based/cisco_temperature.py:234 | Item assignment: the key reads the new value, every other key is unchanged |
| Dicts.SetDefaultGet | cmk/base/plugins/agent_based/cisco_temperature.py:239 | `setdefault` changes only a missing key |
| Dicts.FromPairsLastWins | cmk/base/plugins/agent_based/cisco_temperature.py:222 | `dict(pairs)` keeps the last value of a repeated key |
| Dicts.Collect | cmk/base/plugins/agent_based/section_lnx_if_sys_class_net.py:110 | A list comprehension raises the first element's error, else holds every value in order |
| HuaweiWlcAps.ApState | cmk/base/legacy_checks/huawei_wlc_aps.py:29-46 | Codes 1..15 are known, each with its caption; only 8 is OK; 2, 7 and 11 are WARN; the other eleven known codes are CRIT; an unknown code is ("not available", 3) |
| HuaweiWlcAps.RadioState | cmk/base/legacy_checks/huawei_wlc_aps.py:26-27 | "1" is up/0, "2" is down/2, anything else "not available"/3 |
| HuaweiWlcAps.ParseBand | cmk/base/legacy_checks/huawei_wlc_aps.py:85-96 | A band reads iff channel usage is a float and users online an int; its radio state comes from the radio map |
| HuaweiWlcAps.ParseTemp | cmk/base/legacy_checks/huawei_wlc_aps.py:73-76 | "255" becomes the marker "invalid"; anything else must be a float |
| HuaweiWlcAps.ParseApData | cmk/base/legacy_checks/huawei_wlc_aps.py:69-97 | The AP dict reads iff every conversion succeeds (else ValueError), and holds exactly the converted fields |
| HuaweiWlcAps.ParseAp | cmk/base/legacy_checks/huawei_wlc_aps.py:62-71 | AP idx pairs with band rows 2·idx and 2·idx+1 (IndexError when missing) and is keyed by the 2.4 GHz row's id |
| HuaweiWlcAps.ParseApRows | cmk/base/legacy_checks/huawei_wlc_aps.py:62-78 | Every AP row is parsed with its own position |
| HuaweiWlcAps.ParseHuaweiWlcAps | cmk/base/legacy_checks/huawei_wlc_aps.py:56-99 | The parse loop computes the AP dict |
| HuaweiWlcAps.ParsedAps | cmk/base/legacy_checks/huawei_wlc_aps.py:56-99 | The AP dict has distinct keys |
| HuaweiWlcAps.ParsedApsOkIff | cmk/base/legacy_checks/huawei_wlc_aps.py:62-78 | The parse reads iff every AP row parses |
| HuaweiWlcAps.MissingBandRowsRaise | cmk/base/legacy_checks/huawei_wlc_aps.py:70-71 | Fewer than two band rows per AP makes the parse raise |
| HuaweiWlcAps.ApsKeyedBy24GHzRow | cmk/base/legacy_checks/huawei_wlc_aps.py:70-78 | The keys are exactly the ids of the 2.4 GHz rows |
| HuaweiWlcAps.ApsLastWins | cmk/base/legacy_checks/huawei_wlc_aps.py:78 | A later AP with the same id replaces an earlier one |
| HuaweiWlcAps.DiscoverAps | cmk/base/legacy_checks/huawei_wlc_aps.py:118-121 | Every parsed AP is discovered, in order (the status, CPU, memory and temperature discoveries agree) |
| HuaweiWlcAps.EveryApDiscovered | cmk/base/legacy_checks/huawei_wlc_aps.py:225-226 | Every AP in the dict has a service |
| HuaweiWlcAps.BandResults | cmk/base/legacy_checks/huawei_wlc_aps.py:133-158 | Per band: users online to the levels helper as "<metric>_clients" without levels, captioned "Users online [band]"; the radio state; the channel usage as "channel_utilization_<metric>" with the configured upper levels and no lower levels, captioned "Channel usage [band]" |
| HuaweiWlcAps.CheckStatus | cmk/base/legacy_checks/huawei_wlc_aps.py:124-158 | Unknown AP: nothing; else AP status, connected users (OK), then the 2.4 GHz and the 5 GHz results |
| HuaweiWlcAps.CheckTemp | cmk/base/legacy_checks/huawei_wlc_aps.py:229-239 | "invalid" is reported OK as it is; a temperature goes to the helper with an empty parameter dict instead of the service's parameters, so configured levels never apply |
| HuaweiWlcAps.CheckCpu | cmk/base/legacy_checks/huawei_wlc_aps.py:177-183 | The CPU percentage goes to the levels helper with the configured levels |
| HuaweiWlcAps.CheckMem | cmk/base/legacy_checks/huawei_wlc_aps.py:202-212 | The memory percentage goes to the levels helper with the configured levels |
| HuaweiWlcAps.StatusReportsOwnRows | cmk/base/legacy_checks/huawei_wlc_aps.py:62-158 | The status check of an AP reports the states of its own general row and its own two band rows |
| HuaweiWlcAps.Temp255IsInvalid | cmk/base/legacy_checks/huawei_wlc_aps.py:232-239 | A raw temperature 255 is checked as OK "invalid" |
| LnxIf.SplitStat | cmk/base/plugins/agent_based/section_lnx_if_sys_class_net.py:38 | A token splits iff it holds exactly one "\v" (else ValueError); the parts joined by "\v" give the token back |
| LnxIf.SplitStats | cmk/base/plugins/agent_based/section_lnx_if_sys_class_net.py:37-38 | Every token is split on its own, in order |
| LnxIf.ParseRawStats | cmk/base/plugins/agent_based/section_lnx_if_sys_class_net.py:31-40 | The loop computes the raw-stats dict |
| LnxIf.RawStats | cmk/base/plugins/agent_based/section_lnx_if_sys_class_net.py:36-40 | Reads iff every token holds exactly one "\v"; the keys are distinct |
| LnxIf.SplitStatJoined | cmk/base/plugins/agent_based/section_lnx_if_sys_class_net.py:38 | Splitting "name\vvalue" gives back (name, value) |
| LnxIf.RawStatsLastWins | cmk/base/plugins/agent_based/section_lnx_if_sys_class_net.py:39 | A repeated key keeps its last value |
| LnxIf.RawStatsExample | cmk/base/plugins/agent_based/section_lnx_if_sys_class_net.py:33-34 | The documented example gives {ifindex: 4, ifalias: "", speed: 0} |
| LnxIf.ExampleTokens | cmk/base/plugins/agent_based/section_lnx_if_sys_class_net.py:33-34 | The example's tokens split into their pairs |
| LnxIf.ParseSpeedOfInteger | cmk/base/plugins/agent_based/section_lnx_if_sys_class_net.py:54-65 | "-1" gives 0; any other integer n gives n·1000000 |
| LnxIf.ParseSpeedExamples | cmk/base/plugins/agent_based/section_lnx_if_sys_class_net.py:44-53 | The documented examples: "", "-1", "0" give 0; "5" gives 5000000 |
| LnxIf.ParseSpeed | cmk/base/plugins/agent_based/section_lnx_if_sys_class_net.py:54-65 | "" and "-1" give 0; anything else reads iff it is a float (else ValueError) and gives it times 1000000 |
| LnxIf.ParseInterfaceStatus | cmk/base/plugins/agent_based/section_lnx_if_sys_class_net.py:68-79 | Carrier "1" is UP, "0" is DOWN, anything else raises |
| LnxIf.OperStatusOfCarrier | cmk/base/plugins/agent_based/section_lnx_if_sys_class_net.py:26-28 | The oper status is "1" for carrier "1" and "2" for carrier "0" |
| LnxIf.Field | cmk/base/plugins/agent_based/section_lnx_if_sys_class_net.py:86-92 | `raw_stats[key]` reads the value or raises KeyError |
| LnxIf.Number | cmk/base/plugins/agent_based/section_lnx_if_sys_class_net.py:93-104 | `float(raw_stats[key])` reads iff the key is present and a float |
| LnxIf.CreateAttributes | cmk/base/plugins/agent_based/section_lnx_if_sys_class_net.py:85-94 | Reads iff every attribute key is present, the speed parses, the carrier is "1" or "0" and tx_fifo_errors is a float; then index, descr, alias and type are ifindex, name, ifalias and type, speed is the decoded speed, oper status follows the carrier, the physical address is the converted address and out_qlen is tx_fifo_errors |
| LnxIf.ReceiveNumbers | cmk/base/plugins/agent_based/section_lnx_if_sys_class_net.py:96-100 | Reads iff rx_bytes, rx_packets, rx_dropped and rx_errors all read; the four numbers are those values |
| LnxIf.TransmitNumbers | cmk/base/plugins/agent_based/section_lnx_if_sys_class_net.py:101-104 | Reads iff tx_bytes, tx_packets, tx_dropped and tx_errors all read; the four numbers are those values |
| LnxIf.CreateCounters | cmk/base/plugins/agent_based/section_lnx_if_sys_class_net.py:95-105 | Reads iff the receive and transmit numbers read; in_mcast is multicast, in_ucast is rx_packets plus multicast, and each of the other seven counters is its own rx_/tx_ key |
| LnxIf.CreateInterface | cmk/base/plugins/agent_based/section_lnx_if_sys_class_net.py:82-106 | An interface is made iff multicast, the attributes and the counters all read |
| LnxIf.InterfaceOfLine | cmk/base/plugins/agent_based/section_lnx_if_sys_class_net.py:82-110 | A line becomes an interface only if every token splits; it is the interface of its raw stats, with in_mcast from multicast and index from ifindex |
| LnxIf.InterfaceRows | cmk/base/plugins/agent_based/section_lnx_if_sys_class_net.py:110 | Every line is turned into an interface on its own, in order |
| LnxIf.Interfaces | cmk/base/plugins/agent_based/section_lnx_if_sys_class_net.py:110 | One interface per line, in order, or the parse raises |
| LnxIf.InterfacesRaiseFirst | cmk/base/plugins/agent_based/section_lnx_if_sys_class_net.py:110 | The raised error is that of the first line that fails |
| LnxIf.ParseLnxIfSysClassNet | cmk/base/plugins/agent_based/section_lnx_if_sys_class_net.py:109-110 | The section is the interface list paired with an empty mapping |
| LnxIf.InterfaceNamedByLastToken | cmk/base/plugins/agent_based/section_lnx_if_sys_class_net.py:36-40 | An interface's descr, index and alias are the last value given for name, ifindex and ifalias |
| LnxIf.AttributesOfLine | cmk/base/plugins/agent_based/section_lnx_if_sys_class_net.py:82-110 | An interface's attributes are those of its line's raw stats |
| Strings.SplitAroundSeparator | cmk/base/plugins/agent_based/section_lnx_if_sys_class_net.py:38 | `(a + sep + b).split(sep)` is [a, b] when neither part holds the separator |
| DellPowerconnectTemp.StatusText | cmk/base/legacy_checks/dell_powerconnect_temp.py:33-40 | Codes 1, 2, 3 read "OK", "unavailable", "non operational"; others "unknown[code]" |
| DellPowerconnectTemp.ParseDellPowerconnectTemp | cmk/base/legacy_checks/dell_powerconnect_temp.py:24-40 | None iff there is no row or the first has not exactly two fields; a non-numeric temperature becomes None |
| DellPowerconnectTemp.OnlyFirstRowCounts | cmk/base/legacy_checks/dell_powerconnect_temp.py:25-26 | Rows after the first never change the parse |
| DellPowerconnectTemp.InventoryDellPowerconnectTemp | cmk/base/legacy_checks/dell_powerconnect_temp.py:43-46 | "Ambient" exactly when there is a parse |
| DellPowerconnectTemp.StateOfCode | cmk/base/legacy_checks/dell_powerconnect_temp.py:33-61 | Code 1 is OK, 2 WARN, 3 CRIT, anything else UNKNOWN |
| DellPowerconnectTemp.CheckDellPowerconnectTemp | cmk/base/legacy_checks/dell_powerconnect_temp.py:49-67 | No parse: nothing; no temperature: the status; else the temperature helper with the status |
| DellPowerconnectTemp.CheckOfRow | cmk/base/legacy_checks/dell_powerconnect_temp.py:24-67 | From row to result: state and text of the status code, with or without the temperature |
| HuaweiOsnPower.InventoryHuaweiOsnPower | cmk/base/legacy_checks/huawei_osn_power.py:19-21 | Every line's name, in order, without parameters |
| HuaweiOsnPower.PowerState | cmk/base/legacy_checks/huawei_osn_power.py:33-36 | CRIT iff reading ≥ crit, WARN iff warn ≤ reading < crit, else OK |
| HuaweiOsnPower.RowResults | cmk/base/legacy_checks/huawei_osn_power.py:29-39 | First the OK "Current reading" with its metric, then the levels text exactly when the state is not OK |
| HuaweiOsnPower.CheckHuaweiOsnPower | cmk/base/legacy_checks/huawei_osn_power.py:24-39 | No matching line: nothing; raises iff a matching line's reading is not an int |
| HuaweiOsnPower.SingleMatchingRow | cmk/base/legacy_checks/huawei_osn_power.py:25-39 | One matching row gives exactly its results, or ValueError when its reading is no int |
| HuaweiOsnPower.CheckAppend | cmk/base/legacy_checks/huawei_osn_power.py:25-39 | The check of two blocks of rows is the first block's results followed by the second's; the first error wins |
| HuaweiOsnPower.ReadingsAppend | cmk/base/legacy_checks/huawei_osn_power.py:31 | Readings of concatenated results add up |
| HuaweiOsnPower.OneReadingPerMatchingRow | cmk/base/legacy_checks/huawei_osn_power.py:25-31 | Every matching line is evaluated (no break): one reading per matching line |
| HuaweiOsnPower.CritUnit | cmk/base/legacy_checks/huawei_osn_power.py:33-39 | A reading at or above crit gives CRIT with the levels text |
| EmersonTemp.InventoryEmersonTemp | cmk/base/legacy_checks/emerson_temp.py:25-27 | The items are the indices of rows reading at least −273000; a non-integer reading raises |
| EmersonTemp.PyIndex | cmk/base/legacy_checks/emerson_temp.py:35 | Python indexing: a negative index counts from the end |
| EmersonTemp.CheckEmersonTemp | cmk/base/legacy_checks/emerson_temp.py:30-39 | A non-integer item raises; an index past the end gives nothing |
| EmersonTemp.OfflineIsUndiscovered | cmk/base/legacy_checks/emerson_temp.py:25-39 | An index is discovered iff its check is not "Sensor offline", and then the reading goes on divided by 1000 |
| EmersonTemp.IntToStringInjective | cmk/base/legacy_checks/emerson_temp.py:27 | Distinct row indices give distinct items |
| Strings.ParseIntRoundTrip | cmk/base/legacy_checks/emerson_temp.py:27 | `int(str(n)) == n` |
| EltekOutdoorTemp.RowServices | cmk/base/legacy_checks/eltek_outdoor_temp.py:66-70 | Sensor 1 then sensor 2 of a row, each only when it reads above 0; a non-integer raises |
| EltekOutdoorTemp.InventoryRaisedStays | cmk/base/legacy_checks/eltek_outdoor_temp.py:64-71 | Once a row raised, later rows do not change the outcome |
| EltekOutdoorTemp.Inventory | cmk/base/legacy_checks/eltek_outdoor_temp.py:64-71 | Reads iff every reading of every row is an int; at most two services per row, each with parameters |
| EltekOutdoorTemp.InventoryEltekOutdoorTemp | cmk/base/legacy_checks/eltek_outdoor_temp.py:64-71 | The loop appends the row services in row order |
| EltekOutdoorTemp.OnlyWarmSensorsDiscovered | cmk/base/legacy_checks/eltek_outdoor_temp.py:67-69 | Every discovered item is a sensor reading above 0 |
| EltekOutdoorTemp.WarmSensorsDiscovered | cmk/base/legacy_checks/eltek_outdoor_temp.py:67-70 | Every sensor reading above 0 is discovered |
| EltekOutdoorTemp.CheckEltekOutdoorTemp | cmk/base/legacy_checks/eltek_outdoor_temp.py:74-79 | Nothing iff every visited row reads and no "<id>/<index>" matches; a result is the temperature helper with the `float` reading of a matching sensor 1 or sensor 2 of a readable row |
| EltekOutdoorTemp.SensorOneChecked | cmk/base/legacy_checks/eltek_outdoor_temp.py:75-78 | Sensor 1 of the first row of a unit is checked with its reading, without the above-0 filter |
| EltekOutdoorTemp.FirstRowSensorTwo | cmk/base/legacy_checks/eltek_outdoor_temp.py:75-78 | Sensor 2 of a readable first row is checked there with its second reading, since sensor 1 of the row has a different item |
| EltekOutdoorTemp.SensorTwoChecked | cmk/base/legacy_checks/eltek_outdoor_temp.py:75-78 | Sensor 2 of the first row of a unit is checked with its second reading |
| EltekOutdoorTemp.OtherUnitsDiffer | cmk/base/legacy_checks/eltek_outdoor_temp.py:77 | Items of other units never name this unit's sensor 1 |
| EltekOutdoorTemp.SkipRow | cmk/base/legacy_checks/eltek_outdoor_temp.py:75-77 | A row that reads and does not match passes the search on |
| ArrisCmtsTemp.InventoryArrisCmtsTemp | cmk/base/legacy_checks/arris_cmts_temp.py:15-19 | Exactly the modules whose reading is not "999" |
| ArrisCmtsTemp.CheckArrisCmtsTemp | cmk/base/legacy_checks/arris_cmts_temp.py:22-27 | "Sensor not found" (UNKNOWN) iff no row has the name; a helper call only for a matching row |
| ArrisCmtsTemp.FirstMatchingRowChecked | cmk/base/legacy_checks/arris_cmts_temp.py:23-25 | The first matching row is checked with `int(temp)` |
| ArrisCmtsTemp.NoSensorStillChecked | cmk/base/legacy_checks/arris_cmts_temp.py:18-25 | A "999" module is not discovered but is still checked |
| CiscoUcsTempEnv.ParseCiscoUcsTempEnv | cmk/base/legacy_checks/cisco_ucs_temp_env.py:23-30 | The first row's four columns are Ambient, Front, IO-Hub, Rear; IndexError without them |
| CiscoUcsTempEnv.InventoryCiscoUcsTempEnv | cmk/base/legacy_checks/cisco_ucs_temp_env.py:33-35 | Every name of the parse, in order |
| CiscoUcsTempEnv.CheckCiscoUcsTempEnv | cmk/base/legacy_checks/cisco_ucs_temp_env.py:38-41 | An unknown name gives nothing; raises iff a matching reading is no int |
| CiscoUcsTempEnv.FourSensorsDiscovered | cmk/base/legacy_checks/cisco_ucs_temp_env.py:23-35 | Discovery yields exactly the four names |
| CiscoUcsTempEnv.OnlyEntryChecked | cmk/base/legacy_checks/cisco_ucs_temp_env.py:39-41 | A name held once gives exactly one helper call with its `int` reading |
| CiscoUcsTempEnv.SensorCheckedOnce | cmk/base/legacy_checks/cisco_ucs_temp_env.py:23-41 | From row to result: one call per known name, nothing for others |
| ScaleioPd.Token | cmk/base/legacy_checks/scaleio_pd.py:39-40 | `data[key][idx]`: KeyError for a missing key, IndexError for a short list |
| ScaleioPd.InventoryScaleioPd | cmk/base/legacy_checks/scaleio_pd.py:27-29 | Every domain, with default parameters |
| ScaleioPd.InventoryScaleioPdStatus | cmk/base/legacy_checks/scaleio_pd.py:57-59 | Every domain, without parameters |
| ScaleioPd.CheckScaleioPd | cmk/base/legacy_checks/scaleio_pd.py:32-43 | No data: nothing; a result is one filesystem entry for the item with reserve 0; a missing MAX key raises KeyError |
| ScaleioPd.CapacityOfBracketedSizes | cmk/base/legacy_checks/scaleio_pd.py:39-43 | Unit "X)" and sizes "(n" give total and free converted from n in unit X |
| ScaleioPd.BracketedSize | cmk/base/legacy_checks/scaleio_pd.py:40-41 | A size "(digits" reads as the digits' value |
| ScaleioPd.StripOpening | cmk/base/legacy_checks/scaleio_pd.py:40 | `.strip("(")` removes the opening bracket |
| ScaleioPd.StripClosing | cmk/base/legacy_checks/scaleio_pd.py:39 | `.strip(")")` removes the closing bracket |
| ScaleioPd.CheckScaleioPdStatus | cmk/base/legacy_checks/scaleio_pd.py:62-71 | No data: nothing; else one result; it reads iff STATE and NAME have a token; the state is the STATE token with every "PROTECTION_DOMAIN_" removed, OK iff that is "ACTIVE" (else CRIT), text "Name: <name>, State: <state>" |
| ScaleioPd.StatusOfPrefixedState | cmk/base/legacy_checks/scaleio_pd.py:67-71 | "PROTECTION_DOMAIN_s" reads as s; OK iff s is "ACTIVE"; text "Name: n, State: s" |
| Strings.ReplaceAllPrefix | cmk/base/legacy_checks/scaleio_pd.py:67 | `replace` removes a leading occurrence and goes on with the rest |
| AwsRdsLimits.Entry | cmk/base/legacy_checks/aws_rds_limits.py:40-51 | allocated_storage scales limit and amount by 1024⁴/1000 and renders bytes; others keep them and render with `int` |
| AwsRdsLimits.ParseAwsRdsLimits | cmk/base/legacy_checks/aws_rds_limits.py:37-53 | The loop computes the grouping by region |
| AwsRdsLimits.Grouped | cmk/base/legacy_checks/aws_rds_limits.py:37-53 | Each region appears once, with a non-empty list |
| AwsRdsLimits.InRegion | cmk/base/legacy_checks/aws_rds_limits.py:50-52 | A region holds at most one entry per line |
| AwsRdsLimits.RegionEntries | cmk/base/legacy_checks/aws_rds_limits.py:50-52 | A region is a key iff some line names it; its list is the entries of its lines in input order |
| AwsRdsLimits.AppendAddsOne | cmk/base/legacy_checks/aws_rds_limits.py:50-52 | One append adds exactly one entry |
| AwsRdsLimits.EveryLineOnce | cmk/base/legacy_checks/aws_rds_limits.py:39-52 | Every input line appears exactly once |
| VnxVersion.InventoryVnxVersion | cmk/base/legacy_checks/vnx_version.py:11-12 | One service without item or parameters, whatever the input |
| VnxVersion.CheckVnxVersion | cmk/base/legacy_checks/vnx_version.py:15-17 | One OK result "a: b" per line, in order; a line with fewer than two fields raises IndexError |
| VnxVersion.AlwaysOk | cmk/base/legacy_checks/vnx_version.py:17 | Every result is OK |

## Left out

- SNMP fetch trees, detection rules, plugin registration, default-parameter
  tables and service-name templates: configuration, not behaviour.
- `pulse_secure_cpu_util.py`, the Windows agent and the test files: each
  depends on code that is not part of this model.
- Number parsing: `int` accepts an optional sign and ASCII digits. `float`
  also accepts one decimal point. Python also accepts surrounding
  whitespace, underscores, exponents, "inf", "nan" and non-ASCII Unicode
  digits; the model rejects them.
- The `OverflowError` that `10.0 ** exponent` raises for a huge precision
  is not modelled: `real` powers never overflow.
- Float arithmetic is exact `real` arithmetic; rounding is not modelled.
- Rendering (`%.2f dBm`, `%s` of numbers, percentage and byte formatters)
  is not modelled. `Strings.IntToString` renders integers only where a text
  is compared.
- `check_temperature`, `check_levels` and `df_check_filesystem_list` are
  not part of this model. A check that calls one yields a `Delegate`
  record of the arguments. Of the check parameters only whether the
  service's own parameters or an empty dict are passed is recorded; their
  contents and the value store (`get_value_store`) are not.
- `cisco_sensor_item`, `mac_address_from_hexstring` and
  `convert_scaleio_space` are not part of this model. Each is an opaque
  function parameter.
- `get_scaleio_data` is not part of this model. The ScaleIO checks take
  its result, an optional dict of token lists, as input.
- `parse_aws` is not part of this model. `AwsRdsLimits` takes its parsed
  lines as input. `check_aws_rds_limits` and `discover()` only call
  `check_aws_limits` and `get_parsed_item_data`, which are not part of this
  model either.
- `get_parsed_item_data` is a lookup of the item in the parsed dict, and
  the Huawei checks model it that way.
- Generators that raise part-way are modelled as raising as a whole. The
  results yielded before the exception are not kept.
- Tuple unpacking of rows with the wrong arity (a `ValueError` in Python)
  is not modelled. Rows are fixed-arity datatypes, except in
  `DellPowerconnectTemp`, `CiscoUcsTempEnv` and `VnxVersion`, where the
  arity is the point.
- The cisco_temperature section is `Dict<type, Dict<item, Entry>>`. The
  free-form attribute dicts of the source are a datatype `Entry`:
  `Obsolete`, `Entity(attrs)` or `EnvMon(...)`.
- CiscoParse.EntityFactor: `float(magnitude)` with a non-integral precision
  would give an irrational factor, which a `real` cannot hold. Such a
  precision is refused with a named error; integral precisions, including
  "2.0", are exact.
- HuaweiOsnPower.CheckHuaweiOsnPower: the levels are integers, as in the
  default parameters. Float levels are not modelled.
- EmersonTemp.CheckEmersonTemp: its own contract covers the `int(item)`
  failure and the out-of-range index. The remaining cases (offline, or a
  reading passed on divided by 1000) are stated by
  `EmersonTemp.OfflineIsUndiscovered` for discovered items. A negative
  item (never discovered) indexes from the end, as Python does.
- CiscoChecks.CheckCiscoTemperatureDom: for an env-mon entry in the dBm
  partition the contract only says when the check raises. The parse never
  puts one there (`CiscoChecks.DomPartitionHoldsEntities`).
- ScaleioPd.CheckScaleioPd: the contract states the no-data, KeyError and
  result shapes. The converted capacities are stated for well-formed
  tokens by `ScaleioPd.CapacityOfBracketedSizes`.
