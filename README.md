# Aviation monitoring system: ledger, compliance platform and data matcher

This project models the core of the aviation ground-service monitoring
system in Dafny. It covers three parts:

- **Ledger, rule engine and platform** (`src/blockchain_platform.py`).
  - A `DataChannel` is an append-only chain of `Block`s that starts with a
    genesis block. Each block stores the hash of its predecessor.
  - A `SmartContract` checks one sample against three thresholds: maximum
    speed, minimum distance to the aircraft, and required brake tests. It
    logs every violation it finds.
  - The `BlockchainPlatform` owns six channels, four nodes, the
    towing-safety contract and the alert history.
    - A failed check puts one risk record on the `risk` channel, uploaded by
      the regulator node, and adds one alert per violation.
    - The batch check turns loosely typed vehicle GPS records into samples.
      Threshold overrides apply only for the run and are restored afterwards.
- **Data matcher** (`src/data_matcher.py`). It runs three joins:
  - tasks grouped by flight FUUID;
  - ADS-B reports joined to flights by flight number and calendar day;
  - towing-vehicle fixes joined to towing tasks by a ±30-minute window and
    a degree-space distance to the stand.
- **Records** (`src/models/*.py`). These are the task, flight, vehicle GPS
  and ADS-B records, with the predicates and timestamp readers the joins
  are built from.

Modules, one per file:

| module | file | contents |
|---|---|---|
| `Wrappers` | `wrappers.dfy` | `Option` and `Result` |
| `Text` | `text.dfy` | substring test, ASCII upper-casing, Python's whitespace, `strip`, the first word, `split`, digit strings |
| `Timestamps` | `timestamps.dfy` | `%Y/%m/%d` and `%Y/%m/%d %H:%M` parsing and the canonical spelling, minutes between times |
| `Values` | `values.dfy` | Python values in payloads, truthiness, `isinstance` number tests, `float()`/`int()` |
| `Tasks`, `Flights`, `VehicleFixes`, `AircraftReports` | `task.dfy`, `flight.dfy`, `vehicle_gps.dfy`, `aircraft_adsb.dfy` | the four record types |
| `Grouping` | `grouping.dfy` | `defaultdict(list)` grouping of emitted (key, value) pairs; nested-loop joins |
| `DataMatching` | `data_matcher.dfy` | the join specifications and the `DataMatcher` class |
| `Ledger` | `ledger.dfy` | `Block`, chain validity, the `DataChannel` class |
| `Compliance` | `contracts.dfy` | the three rules and the `SmartContract` class |
| `Platform` | `platform.dfy` | payloads, alerts, the batch check specification, statistics, the `BlockchainPlatform` class |

Code that updates state is modelled as classes whose methods say what they
change:

- `DataChannel.blocks`;
- `SmartContract.rules` and `SmartContract.violations`;
- `BlockchainPlatform.alerts` and the channels and contracts it owns;
- the three maps of `DataMatcher`.

Each method is proved against a specification function: `NextBlock` and
`AppendAll` for the chain, `Evaluate` and `Records` for a check,
`ContractAlerts`, `BatchAlerts`, `BatchRisk` and `BatchLog` for the
platform, and `FlightTaskMap`, `FlightAdsbMap` and `TaskVehicleMap` for the
matcher. Lemmas state the promised properties of those functions.

Inputs the source takes from its environment are parameters here:

- the SHA-256 hash over the JSON form of a block is `hash: HashFn`;
- the current time is `now`;
- the great-circle distance is `greatCircle`;
- the random stand offsets are a stream of draws `rng`.

Where the code and the documentation disagree, the model follows the
code. The stand coordinates are recomputed on every call of
`match_task_vehicle`; they are not kept for the matcher's lifetime.

## Model

| member | source | states |
|---|---|---|
| Ledger.NewBlock | src/blockchain_platform.py:18-36 | A block's stored hash is the hash of its index, timestamp, data and previous hash, fixed at construction; the other four fields are as given. |
| Ledger.GenesisData | src/blockchain_platform.py:62 | The genesis payload has exactly the keys `type` and `channel`, holding `genesis` and the channel's name. |
| Ledger.NextBlock | src/blockchain_platform.py:67-72 | The block `add_data` builds: index is the old length, timestamp is now, previous hash is that of the former last block (`"0"` for an empty chain), and its hash is intact. |
| Ledger.AppendAll | src/blockchain_platform.py:67-74 | A sequence of `add_data` calls keeps every earlier block, adds one block per payload, and each new block holds its payload. |
| Ledger.AppendAllSnoc | src/blockchain_platform.py:67-74 | One more payload appends exactly one more block, linked to the chain built so far. |
| Ledger.AppendKeepsValid | src/blockchain_platform.py:67-87 | Appending with `add_data` keeps a chain that `verify_integrity` accepts accepted. |
| Ledger.AppendAllKeepsValid | src/blockchain_platform.py:67-87 | A valid chain stays valid after any sequence of `add_data` calls. |
| Ledger.GenesisContentsNotChecked | src/blockchain_platform.py:78-87 | Block 0's own hash is never re-checked: replacing block 0 by any block with the same stored hash does not change the verdict. |
| Ledger.EditedBlockDetected | src/blockchain_platform.py:82-83 | Editing block i ≥ 1 while keeping its stored hash makes `verify_integrity` false, provided the hash separates the old and the new contents. |
| Ledger.RehashedBlockDetected | src/blockchain_platform.py:85-86 | Re-hashing an edited block i ≥ 1 that has a successor breaks the successor's link, so `verify_integrity` is false. |
| Ledger.DataChannel.constructor | src/blockchain_platform.py:51-65 | A new channel holds exactly one block: index 0, previous hash `"0"`, data `{type: genesis, channel: name}`, and it is valid. |
| Ledger.DataChannel.AddData | src/blockchain_platform.py:67-74 | Appends exactly one block and returns it. Earlier blocks are unchanged. The new block is `NextBlock` of the old chain. Validity is preserved. |
| Ledger.DataChannel.VerifyIntegrity | src/blockchain_platform.py:76-87 | Returns true exactly when every block from index 1 on has an intact hash and stores its predecessor's hash. |
| Compliance.EvaluateShape | src/blockchain_platform.py:110-143 | At most one violation per rule, in the fixed order speed, distance, brake. Each has its rule's severity (high, critical, medium) and the check's time. |
| Compliance.EachRuleSeparately | src/blockchain_platform.py:112-143 | The violations of each rule in the result are exactly what that rule's own check finds. |
| Compliance.RulesMonotone | src/blockchain_platform.py:113-137 | A breach stays a breach at a higher speed or a lower `max_speed`, at a smaller distance or a larger `min_distance`, and with fewer brake tests or a larger requirement. |
| Compliance.CompliantMonotone | src/blockchain_platform.py:113-137 | A compliant sample stays compliant at a lower speed or a higher `max_speed`, at a larger distance or a smaller `min_distance`, and with more brake tests or a smaller requirement. |
| Compliance.RulesIndependent | src/blockchain_platform.py:112-143 | A rule's outcome depends only on its own sample key and its own threshold. |
| Compliance.NothingToCheck | src/blockchain_platform.py:113-137 | A sample with none of the three keys, or a contract with no thresholds, is compliant. |
| Compliance.ThresholdsAreStrict | src/blockchain_platform.py:115-137 | Values exactly at every threshold produce no violation. |
| Compliance.Threshold | src/blockchain_platform.py:114 | `rules.get(rule)` is present exactly when the rule is set. |
| Compliance.SplitByRule | src/blockchain_platform.py:110-143 | Concatenating the speed, distance and brake findings keeps each rule's findings recoverable from the result. |
| Compliance.Records | src/blockchain_platform.py:151-160 | The log entries of one check: one per violation, in order, each naming the contract and holding the original sample. |
| Compliance.SmartContract.constructor | src/blockchain_platform.py:97-100 | A contract starts with its name, its rules and an empty violation log. |
| Compliance.SmartContract.CheckCompliance | src/blockchain_platform.py:102-162 | The result lists `Evaluate`'s violations and is compliant exactly when there are none. The log grows by one record per violation and nothing else changes. |
| Platform.RegulatorOfSpec | src/blockchain_platform.py:305-311 | The first node whose type or organisation contains `监管` is chosen; without one, the last node; only an empty node list gives none. |
| Platform.FirstRegulator | src/blockchain_platform.py:307-309 | The index found is that of a regulator node with no regulator before it; none is found only when no node is a regulator. |
| Platform.DefaultRegulator | src/blockchain_platform.py:218-223 | Among the platform's four nodes, node_4 (the regional aviation authority) is the regulator. |
| Platform.DefaultNodesRoles | src/blockchain_platform.py:218-223 | Of the four default nodes only the fourth carries the regulator mark. |
| Platform.ChannelNamesDistinct | src/blockchain_platform.py:208-215 | The six channel names are pairwise different. |
| Platform.BlockchainPlatform.GetRegulatorNode | src/blockchain_platform.py:305-311 | The search loop returns `RegulatorOf(nodes)`. |
| Platform.WithMetaStamps | src/blockchain_platform.py:251-257 | The uploaded copy keeps every other field of the data and adds the upload time and the uploader. The uploader is the node's ID and organisation, or `anonymous` without a node. |
| Platform.ContractAlerts | src/blockchain_platform.py:288-298 | A failed single check raises exactly one alert per violation, in order, each naming the contract and holding the sample. |
| Platform.GpsAlerts | src/blockchain_platform.py:478-489 | A failed batch record raises exactly one alert per violation, in order, each naming the record's vehicle and holding the record. |
| Platform.VehicleIdOf | src/blockchain_platform.py:480 | The vehicle ID is `VEHICLENO` whenever that is truthy. |
| Platform.GpsAlertRow | src/blockchain_platform.py:491-496 | A batch alert as a result row has exactly the seven columns of the empty result table. |
| Platform.SelectedSpec | src/blockchain_platform.py:376 | The records checked are a prefix of the input: all of them when `max_records` is None or 0, else the first `max_records` (bounded by the input's length). |
| Platform.SliceTo | src/blockchain_platform.py:376 | `s[:stop]` with Python's slice reading: a prefix of at most `stop` elements, and for a negative stop all but the last `-stop`. |
| Platform.CheckSample | src/blockchain_platform.py:391-446 | The sample holds `speed`, `distance_to_aircraft` and `brake_test_count` exactly when each converts. Speed is `SPEED`, else `speed`. Distance is the given field, else the great-circle distance. The count comes from either spelling. No other key is present. |
| Platform.UpperCaseSpeedFirst | src/blockchain_platform.py:394-403 | A non-empty `SPEED` that does not convert hides the `speed` field: no speed is checked. |
| Platform.EffectiveRules | src/blockchain_platform.py:433-457 | The rules in force for one record: given thresholds replace `max_speed` or `min_distance`; every other rule is kept. |
| Platform.BatchSnoc | src/blockchain_platform.py:378-489 | Checking one more record extends the alerts, the risk payloads and the contract log by exactly what that record gives. |
| Platform.AlertsAndRiskBlocks | src/blockchain_platform.py:466-489 | Each failing record adds one risk block and one to three alerts, so risk blocks ≤ alerts ≤ 3 × risk blocks, and at most one risk block per record. |
| Platform.DemoRecord | src/blockchain_platform.py:515-526 | The demonstration record (4.2 km/h at 3.5 m) breaks the speed rule (high) and then the distance rule (critical), for vehicle 民航沪2456. |
| Platform.DemoWithSpeedOverride | src/blockchain_platform.py:433-460 | With a 5 km/h speed override the demonstration record breaks only the distance rule. |
| Platform.CheckWithOverrides | src/blockchain_platform.py:448-464 | Checks with the overridden rules, then puts the contract's original rules back. The log grows by that check's records. |
| Platform.RecentAlertsAsWrittenSpec | src/blockchain_platform.py:508-510 | As written, the slice is a suffix of the history. A positive limit gives the last `limit` alerts, 0 gives all of them, and a negative limit drops the first `-limit`. |
| Platform.ZeroLimitReturnsEverything | src/blockchain_platform.py:508-510 | Asking for the 0 most recent alerts returns the whole history. |
| Platform.RecentAlerts | src/blockchain_platform.py:508-510 | The last `min(limit, len)` alerts, and none for a limit of 0 or less. |
| Platform.BlockchainPlatform.ListAlerts | src/blockchain_platform.py:508-510 | `alerts[-limit:]` as written: always a suffix of the history; for a positive limit the last `limit` alerts (all if fewer), the same as `RecentAlerts`; for 0 the whole history; for a negative limit all but the first `-limit` alerts. |
| Platform.OneMoreCounted | src/blockchain_platform.py:328-330 | One more block (or log entry) under a listed name raises the total by exactly one. |
| Platform.BlockchainPlatform.StatisticsOfValid | src/blockchain_platform.py:325-334 | Every channel counts at least its genesis block, so the block total is at least the channel count. Both per-name maps have the platform's names as keys, and the alert count is the history's length. |
| Platform.InitialStructure | src/blockchain_platform.py:208-232 | The six channel names and the one contract name are listed once each, include `risk`, and name separate objects. |
| Platform.OpenChannels | src/blockchain_platform.py:208-215 | Opens exactly the six named channels, each under its own name and holding only its genesis block. |
| Platform.BlockchainPlatform.constructor | src/blockchain_platform.py:206-235 | Six distinct channel objects, named as in the source, each holding only its genesis block; the four default nodes, the towing-safety contract (3 km/h, 5 m, 2 brake tests) with an empty log, and no alerts. The platform is valid. |
| Platform.BlockchainPlatform.UploadData | src/blockchain_platform.py:243-262 | An unknown channel is an error and nothing changes. Otherwise exactly one block with the stamped copy of the data is appended to that channel, no other channel changes, and every chain stays valid. |
| Platform.BlockchainPlatform.RaiseRisk | src/blockchain_platform.py:284-285 | One risk block uploaded by the regulator node; the given alerts are appended; no other channel changes. |
| Platform.BlockchainPlatform.ReportViolations | src/blockchain_platform.py:275-298 | A failed single check adds one risk block (contract, violations, sample, time) and one alert per violation. |
| Platform.BlockchainPlatform.CheckCompliance | src/blockchain_platform.py:264-303 | An unknown contract is an error and changes nothing. Otherwise the result is the contract's verdict and its log grows. A non-compliant sample adds exactly one risk block and one alert per violation. A compliant one changes no channel and no alert. Rules are untouched. |
| Platform.BlockchainPlatform.ReportGpsViolations | src/blockchain_platform.py:466-489 | A failed batch record adds one risk block (contract, violations, the record) and one alert per violation, and returns the alerts added. |
| Platform.BlockchainPlatform.CheckGpsRecord | src/blockchain_platform.py:378-489 | An unconvertible element is skipped. A mapping is checked as its sample under the overridden rules, and on failure it is reported. The contract's rules are as before. |
| Platform.BlockchainPlatform.CheckNextGpsRecord | src/blockchain_platform.py:378-489 | After one more record the history, the contract log and the risk channel equal the batch specification of the longer prefix. |
| Platform.BlockchainPlatform.CheckGpsBatch | src/blockchain_platform.py:378-489 | The returned rows are exactly the alerts appended, in order. The log grows by `BatchLog`, the risk channel by one block per failing record, and the rules are restored. |
| Platform.BlockchainPlatform.RunComplianceCheckOnGps | src/blockchain_platform.py:348-496 | An unknown contract is an error and changes nothing. Otherwise only the selected records are checked. The rows equal the alerts this call appended. The contract's rules are equal before and after. Each failing record adds one risk block. Other contracts and channels are unchanged. |
| Platform.BlockchainPlatform.VerifyAllChannels | src/blockchain_platform.py:321-323 | One verdict per channel, equal to that channel's chain validity, and all true on a valid platform. |
| Platform.BlockchainPlatform.BlocksPerChannel | src/blockchain_platform.py:329 | One block count per channel name. |
| Platform.BlockchainPlatform.ViolationsPerContract | src/blockchain_platform.py:331 | One log length per contract name. |
| Values.AsNumber | src/blockchain_platform.py:113 | The number test accepts exactly booleans, integers and floats. |
| Values.Get | src/blockchain_platform.py:113 | A key lookup yields a value exactly when the key is present, and then the stored value. |
| Values.ParseDecimal | src/blockchain_platform.py:396 | `float()` of a string of ASCII digits is the number those digits denote. |
| Values.UnsignedWithFraction | src/blockchain_platform.py:396 | `float()` of `w.f` is `w` plus `f` over ten to the length of `f`. |
| Values.SignedWholeDecimals | src/blockchain_platform.py:396 | `float()` of `-w` is minus the number `w` denotes; of `+w` the number itself. |
| Values.SignedFractions | src/blockchain_platform.py:396 | `float()` of `-w.f` and `+w.f` is minus or plus the value of `w.f`. |
| Values.LeadingPoint | src/blockchain_platform.py:396 | `float()` of `.f` is the fraction `f` denotes. |
| Values.TrailingPoint | src/blockchain_platform.py:396 | `float()` of `w.` is the number `w` denotes. |
| Values.DecimalRejects | src/blockchain_platform.py:396 | `float()` rejects the empty string, a lone sign, a lone point and a sign followed by a point. |
| Values.ParseInteger | src/blockchain_platform.py:423 | `int()` of a string of ASCII digits is the number those digits denote. |
| Values.IntegerNumerals | src/blockchain_platform.py:423 | `int()` of `-w` is minus the number `w` denotes and of `+w` the number itself; `int()` rejects `w.f`, `-w.f`, a lone `-` and the empty string. |
| Values.AsInt | src/blockchain_platform.py:135 | The integer test accepts exactly booleans and integers, so a float brake count is not checked. |
| Values.ToFloat | src/blockchain_platform.py:396 | `float()` keeps integers and floats and refuses `None`, lists and dicts. |
| Values.ToInt | src/blockchain_platform.py:423 | `int()` keeps integers and refuses `None`, lists and dicts. |
| Values.Truncate | src/blockchain_platform.py:423 | `int()` of a float truncates toward zero. |
| Values.NumbersConvert | src/blockchain_platform.py:394-430 | A value that passes the number test converts to the same number. |
| Values.ConversionsOnNumerals | src/blockchain_platform.py:394-430 | `float()` and `int()` agree on a plain digit string; `int()` refuses a numeral with a fractional part that `float()` reads. |
| Timestamps.ParseDate | src/data_matcher.py:79 | A parsed `%Y/%m/%d` date is a valid calendar date. |
| Timestamps.ParseDateFields | src/data_matcher.py:79 | A four-digit year, a one- or two-digit month and day, separated by `/`, parse to the date they denote exactly when it is a calendar date, and to nothing otherwise. |
| Timestamps.ParseUnpaddedDate | src/data_matcher.py:79 | A date written without zero padding, as in `2025/9/19`, parses back to itself. |
| Timestamps.ParseDateExample | src/data_matcher.py:79 | `2025/9/19` parses to 19 September 2025. |
| Timestamps.ParseFormatDate | src/data_matcher.py:79 | Every valid date written as `YYYY/MM/DD` parses back to itself. |
| Timestamps.ParseMinuteTime | src/models/task.py:43-46 | A parsed `%Y/%m/%d %H:%M` time is valid, and the empty string does not parse. |
| Timestamps.ParseMinuteTimeFields | src/models/task.py:43-46 | A date, a space and one- or two-digit hour and minute fields parse to the time they denote exactly when the date parses, the hour is at most 23 and the minute at most 59, and to nothing otherwise. |
| Timestamps.ParseUnpaddedMinuteTime | src/models/task.py:43-46 | A time written without zero padding parses back to itself. |
| Timestamps.ParseFormatMinuteTime | src/models/task.py:43-46 | Every valid time written as `YYYY/MM/DD HH:MM` parses back to itself. |
| Timestamps.SecondsFieldRejected | src/models/vehicle_gps.py:35-38 | A time written with a seconds field never parses. |
| Timestamps.FirstWordOfMinuteTime | src/data_matcher.py:91 | The first word of a canonical report time is its date. |
| Timestamps.MinutesApart | src/data_matcher.py:156 | The minutes between two times; zero for equal times. |
| Timestamps.FirstDayNumber | src/data_matcher.py:156 | The day count is 0 on 0001/01/01, the first day `datetime` knows. |
| Timestamps.DayNumberOfNextDay | src/data_matcher.py:156 | The next calendar day, within a month, across a month end or across a year end (leap years included), counts one more. |
| Timestamps.MinuteNumberOfNextMinute | src/data_matcher.py:156 | The next minute, across an hour or midnight, counts one more. |
| Timestamps.MinutesApartProperties | src/data_matcher.py:156 | The distance in minutes is symmetric, and consecutive minutes are one apart. |
| Timestamps.MinutesAcrossMidnight | src/data_matcher.py:156 | 23:50 is 30 minutes before 00:20 of the next day, 23:49 is 31. |
| Tasks.GetActualEndTime | src/models/task.py:40-47 | None when the field is missing or empty; otherwise exactly `ParseMinuteTime` of the field, so any spelling `strptime` accepts (padded or not) is read, and the result is a valid time. |
| Tasks.TowingCodeIsCaseSensitive | src/models/task.py:36-38 | `tract`, `Tract` and `TRACT ` are not towing task codes. |
| Tasks.ActualEndTimeOfCanonical | src/models/task.py:44 | A canonical end time is read as the time it denotes. |
| Tasks.ActualEndTimeWithSeconds | src/models/task.py:43-46 | An end time with a seconds field is read as None. |
| Flights.DirectionsExclusive | src/models/flight.py:30-36 | A flight is never both arrival and departure, and any other direction is neither. |
| Flights.ActualTimeField | src/models/flight.py:40 | Arrivals read the on-block field; every other flight, an unknown direction included, reads the off-block field. |
| Flights.GetActualTime | src/models/flight.py:38-47 | None when the field read is missing or empty; otherwise exactly `ParseMinuteTime` of that field, a valid time when present. |
| Flights.ActualTimeIgnoresOtherField | src/models/flight.py:40 | The field not read has no influence on the result. |
| Flights.ActualTimeOfCanonical | src/models/flight.py:41-44 | A canonical time in the field read is the time returned. |
| VehicleFixes.GetTimestamp | src/models/vehicle_gps.py:32-39 | None for an empty `LOCATIONTIME`; otherwise exactly `ParseMinuteTime` of it, a valid time when present. |
| VehicleFixes.GetPosition | src/models/vehicle_gps.py:41-43 | The position is (latitude, longitude), latitude first. |
| VehicleFixes.TowingTypeNameIgnoresCase | src/models/vehicle_gps.py:45-47 | Two type names equal after ASCII upper-casing are classified alike. |
| VehicleFixes.TowingTypeNames | src/models/vehicle_gps.py:45-47 | `tract`, `Tractor` and `牵引车` are towing vehicle types. |
| VehicleFixes.TimestampOfCanonical | src/models/vehicle_gps.py:36 | A canonical fix time is read as the time it denotes. |
| VehicleFixes.TimestampWithSeconds | src/models/vehicle_gps.py:35-38 | A fix time with a seconds field is read as None, so the fix never matches. |
| AircraftReports.NewAdsb | src/models/aircraft_adsb.py:20-25 | A report built without FN2 and TE has neither, and so has no timestamp. |
| AircraftReports.GetTimestamp | src/models/aircraft_adsb.py:31-38 | None when TE is missing or empty; otherwise exactly `ParseMinuteTime` of TE, a valid time when present. |
| AircraftReports.GetPosition | src/models/aircraft_adsb.py:40-42 | The position is (LA, LO), latitude first. |
| AircraftReports.TimestampOfCanonical | src/models/aircraft_adsb.py:34-35 | A canonical TE is read as the time it denotes. |
| DataMatching.TaskPairs | src/data_matcher.py:33-34 | The grouping loop files each task under its own FUUID, in input order. |
| DataMatching.TaskGroupIsSubsequence | src/data_matcher.py:32-36 | The group of a FUUID is the tasks carrying it, in input order. |
| DataMatching.FlightTaskGroups | src/data_matcher.py:32-36 | A FUUID is a key exactly when some task carries it, and its group is those tasks in input order. |
| DataMatching.TaskInExactlyOneGroup | src/data_matcher.py:32-36 | Every task is in exactly one group, the one of its own FUUID. |
| DataMatching.TaskGroupSizesSum | src/data_matcher.py:32-36 | The group sizes add up to the number of tasks. |
| DataMatching.TaskGroupsNonEmpty | src/data_matcher.py:32-36 | No group is empty. |
| Grouping.GroupPairs | src/data_matcher.py:32-36 | The keys of a `defaultdict(list)` filled by appends are exactly the keys appended under. |
| DataMatching.AdsbJoinsOnceDated | src/data_matcher.py:85-94 | For a dated flight, a report joins exactly when FN or FN2 equals the stripped flight number, TE is non-empty, and TE's first word parses to the flight's date. |
| DataMatching.FlightAdsbMembership | src/data_matcher.py:70-102 | A report is listed under a FUUID exactly when it is in the ADS-B table and joins some flight with that FUUID. |
| DataMatching.UndatedFlightAddsNothing | src/data_matcher.py:72-81 | A flight whose scheduled date is empty or does not parse contributes nothing, wherever it stands. |
| DataMatching.EmptyDateDoesNotParse | src/data_matcher.py:74-75 | An empty scheduled date does not parse. |
| DataMatching.FlightNumberLeadingSpaceIgnored | src/data_matcher.py:71 | Leading whitespace of the flight number does not affect the join. |
| Text.Strip | src/data_matcher.py:71 | `strip()` is the text between the leading and the trailing whitespace runs, empty when the text is all whitespace, and has no whitespace at either end. |
| Text.LeadingSpaces | src/data_matcher.py:71 | The leading whitespace run is maximal: whitespace up to it, none at it. |
| Text.TrailingSpaces | src/data_matcher.py:71 | The trailing whitespace run is maximal: whitespace from it on, none just before it. |
| Text.StripLeadingSpace | src/data_matcher.py:71 | A whitespace character added in front does not change `strip()`. |
| Text.StripUnpadded | src/blockchain_platform.py:396 | `strip()` leaves a non-empty text with non-whitespace ends unchanged. |
| Text.FirstWord | src/data_matcher.py:91 | `split()[0]` is the first maximal run of non-whitespace: it starts after the leading whitespace and ends at the end of the text or at whitespace. It is missing exactly when the text is all whitespace. |
| Text.FirstWordOfSpaced | src/data_matcher.py:91 | The first word of a word, a space and anything is that word. |
| DataMatching.ReportOnScheduledDayJoins | src/data_matcher.py:89-94 | A report with the flight's number, stamped at any minute of the scheduled day, joins the flight. |
| DataMatching.DistinctStands | src/data_matcher.py:190-191 | The non-empty stand IDs, each once, exactly those some flight has. |
| DataMatching.StandCoordinatesSpec | src/data_matcher.py:187-197 | One coordinate per distinct non-empty stand ID, each within ±0.015° of (31.145, 121.805). |
| DataMatching.DistinctStandsSnoc | src/data_matcher.py:190-195 | A flight with a new non-empty stand adds it at the end; otherwise nothing changes. |
| DataMatching.StandCoordinatesSnoc | src/data_matcher.py:190-195 | The first occurrence of a stand wins: a new stand gets the next two draws, and a stand met before keeps its coordinate. |
| DataMatching.FoundStandHasCoordinates | src/data_matcher.py:132-139 | The stand of any flight found by FUUID has a coordinate, so the missing-coordinate skip never fires. |
| DataMatching.FlightByFuuid | src/data_matcher.py:176-181 | None exactly when no flight has the FUUID; otherwise a flight of the table with that FUUID. |
| DataMatching.FlightByFuuidFirst | src/data_matcher.py:176-181 | The first flight with the FUUID is the one returned. |
| DataMatching.SquaredDistance | src/data_matcher.py:199-203 | The squared planar distance in degrees is non-negative. |
| DataMatching.WithinDistanceIsRootCompare | src/data_matcher.py:162-164 | Comparing squared distances is the same as comparing the distance itself with the threshold. |
| DataMatching.TaskAnchor | src/data_matcher.py:127-144 | A task is anchored exactly when it is a towing task, a flight with its FUUID is found, that flight has a non-empty STANDID with a coordinate, and the task's end time reads. The anchor is that stand's coordinate and that end time. |
| DataMatching.SkippedTask | src/data_matcher.py:127-144 | A task that is skipped adds no entry. |
| DataMatching.AnchoredTask | src/data_matcher.py:147-165 | For an anchored task the join is exactly towing vehicle, parsed time, at most 30 minutes apart, within the threshold. |
| DataMatching.TaskVehicleMembership | src/data_matcher.py:127-165 | A fix is listed under a task ID exactly when it is in the GPS table and some anchored task with that ID joins it. |
| DataMatching.NonTowingTaskAddsNothing | src/data_matcher.py:128-129 | A non-towing task contributes nothing, wherever it stands. |
| DataMatching.TimeWindowIsInclusive | src/data_matcher.py:155-158 | For a task ending at 00:20, a towing fix near its stand at 23:50 of the day before (30 minutes across midnight) joins; one at 23:49 does not. |
| DataMatching.DistanceBoundIsInclusive | src/data_matcher.py:160-164 | A fix exactly at the threshold distance joins; one beyond it does not. |
| DataMatching.DataMatcher.constructor | src/data_matcher.py:18-22 | The three maps start empty. |
| DataMatching.DataMatcher.MatchFlightTasks | src/data_matcher.py:24-45 | The map is replaced (not accumulated) by `FlightTaskMap` of the loaded tasks and returned, so a second call gives the same map. |
| DataMatching.DataMatcher.MatchFlightAdsb | src/data_matcher.py:47-109 | The map is replaced by `FlightAdsbMap` of the loaded flights and reports and returned, whatever the time window. |
| DataMatching.DataMatcher.GetFlightByFuuid | src/data_matcher.py:176-181 | The linear search returns `FlightByFuuid`. |
| DataMatching.DataMatcher.EstimateStandCoordinates | src/data_matcher.py:183-197 | The loop builds `StandCoordinates` of the flights from the draws. |
| DataMatching.DataMatcher.MatchTaskVehicle | src/data_matcher.py:111-174 | The map is replaced by `TaskVehicleMap` under freshly estimated stand coordinates and returned. |
| DataMatching.DataMatcher.MatchAll | src/data_matcher.py:205-213 | All three maps are their specifications, with the default window and threshold. |

## Left out

- SHA-256 over the JSON form of a block is the parameter `hash`. Tamper detection (`Ledger.EditedBlockDetected`) is stated under an explicit no-collision premise at the edited block.
- `datetime.now()` is the parameter `now`. One call uses one time, whereas the source may read the clock several times within a call.
- `haversine` is the parameter `greatCircle`. The stand offsets from `np.random.uniform` are the stream `rng`, each draw in [-0.015, 0.015).
- The square root in `_calculate_distance` is not computed. The comparison is made between squared values, which is equivalent for a non-negative threshold (`DataMatching.WithinDistanceIsRootCompare`).
- Floating point is modelled by exact reals, and Python integers by unbounded integers.
- Printing is not modelled: the console messages, `_send_alert` and `print_platform_status`.
- pandas is not modelled. `to_dataframe`, `export_channel_df` and `Block.to_dict` are export helpers and are left out. The batch result table is the sequence of alerts; `Platform.GpsAlertRow` gives the row of each.
- The text of a violation message is represented by the observed value and the limit it is built from.
- Platform.BlockchainPlatform.UploadData: an unknown channel gives a `Failure` result instead of raising `ValueError`. Likewise `Platform.BlockchainPlatform.RunComplianceCheckOnGps` gives a `Failure` for an unknown contract instead of raising.
- Thresholds are numbers. Python's `TypeError` on a non-numeric threshold is not modelled.
- Duck typing of batch elements is reduced to a mapping or an element that `dict()` rejects. Sample values are a small value datatype.
- `float()` and `int()` on strings accept ASCII decimal numerals only. Exponents, `inf`, `nan`, underscores and non-ASCII digits are not read.
- `strptime` is modelled only for the two fixed formats the records use. Each field has at most its full width, a four-digit year, and no whitespace or locale handling.
- Upper-casing affects ASCII letters only.
- Python aliasing is not modelled. The rules dictionary is a value, so an override cannot be seen through another reference to it, and a sample shared with its alerts is a copy.
- `Node.data_permissions` is never filled in by the source and is not modelled.
- Platform.BlockchainPlatform.constructor: does not state that its channel objects are newly allocated. It states their contents, their names and that they are distinct objects.
- CSV loading (`src/data_loader.py`), the Streamlit front end (`main.py`), charts (`src/visualizer.py`) and the maintenance scripts (`deldata.py`, `explore_data.py`) are not part of this model.
- Threads are not modelled; the code uses none.

## Findings

| source | as written | input that shows it | evidently intended | confidence | as-written member | corrected member |
|---|---|---|---|---|---|---|
| src/blockchain_platform.py:508-510 | `list_alerts(limit)` slices the history from `-limit`, so a limit of 0 returns every alert and a negative limit returns all but the first alerts | one alert on record and `limit = 0`: the one alert is returned | the last `limit` alerts, none for a limit of 0 or less | low (a caller may rely on it); not executed | Platform.ZeroLimitReturnsEverything | Platform.RecentAlerts |

`Platform.RecentAlertsAsWritten` is the slice as written; `Platform.RecentAlertsAsWrittenSpec` states its behaviour. `Platform.BlockchainPlatform.ListAlerts` follows the code as written. `Platform.RecentAlerts` is the corrected definition, and `ListAlerts` agrees with it for every positive limit.
