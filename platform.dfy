/** The consortium platform: six data channels, the participating nodes, the
    smart contracts, and the alert history. Uploads append to a channel;
    a failed compliance check is put on the risk channel by the regulator
    node and added to the alerts; a batch check normalises vehicle GPS
    records into samples for a contract. */
module Platform {
  import opened Wrappers
  import opened Text
  import opened Values
  import opened Grouping
  import opened Ledger
  import opened Compliance

  /** A consortium participant. Its permission list is never filled in and
      is not modelled. */
  datatype Node = Node(nodeId: string, nodeType: string, organization: string)

  const RiskChannel := "risk"
  const TowingSafety := "towing_safety"
  const RegulatorMark := "监管"

  /** The channels in the order the platform creates them. */
  const ChannelNames: seq<string> := ["vehicle", "personnel", "schedule", "regulation", "flight_info", "risk"]

  lemma ChannelNamesDistinct()
    ensures NoDuplicates(ChannelNames)
  {
  }

  /** The thresholds of the default towing-safety contract: 3 km/h, 5 m and
      two brake tests. */
  const TowingSafetyRules: Rules := map[MaxSpeed := 3.0, MinDistance := 5.0, RequiredBrakeTests := 2.0]

  function DefaultNodes(): seq<Node> {
    [Node("node_1", "地服公司", "上海吉祥航空地服"),
     Node("node_2", "航空公司", "中国东方航空"),
     Node("node_3", "机场", "上海浦东国际机场"),
     Node("node_4", "监管局", "华东地区民航管理局")]
  }

  // ---------------------------------------------------------------------
  // The regulator node
  // ---------------------------------------------------------------------

  predicate IsRegulator(n: Node) {
    Contains(n.nodeType, RegulatorMark) || Contains(n.organization, RegulatorMark)
  }

  /** The node that puts risk records on the chain: the first regulator,
      else the last node, else none. */
  function RegulatorOf(nodes: seq<Node>): Option<Node> {
    match FirstRegulator(nodes)
    case Some(i) => Some(nodes[i])
    case None => if nodes == [] then None else Some(nodes[|nodes| - 1])
  }

  /** The index of the first regulator node. */
  function FirstRegulator(nodes: seq<Node>): (r: Option<nat>)
    ensures r.Some? ==>
      (r.value < |nodes| && IsRegulator(nodes[r.value]) && forall j :: 0 <= j < r.value ==> !IsRegulator(nodes[j]))
    ensures r.None? ==> forall j :: 0 <= j < |nodes| ==> !IsRegulator(nodes[j])
  {
    if nodes == [] then None
    else if IsRegulator(nodes[0]) then Some(0)
    else match FirstRegulator(nodes[1..])
      case Some(i) => Some(i + 1)
      case None => None
  }

  /** A regulator anywhere in the list is chosen over the last node, and
      the first one wins; only an empty list gives no node. */
  lemma RegulatorOfSpec(nodes: seq<Node>)
    ensures RegulatorOf(nodes).None? <==> nodes == []
    ensures forall i ::
      (0 <= i < |nodes| && IsRegulator(nodes[i]) && forall j :: 0 <= j < i ==> !IsRegulator(nodes[j]))
      ==> RegulatorOf(nodes) == Some(nodes[i])
    ensures (forall j :: 0 <= j < |nodes| ==> !IsRegulator(nodes[j])) && nodes != []
      ==> RegulatorOf(nodes) == Some(nodes[|nodes| - 1])
  {
    var r := FirstRegulator(nodes);
    forall i | 0 <= i < |nodes| && IsRegulator(nodes[i]) && (forall j :: 0 <= j < i ==> !IsRegulator(nodes[j]))
      ensures RegulatorOf(nodes) == Some(nodes[i])
    {
      assert r.Some? && r.value == i;
    }
  }

  /** Of the platform's own nodes the aviation regulator is chosen. */
  lemma DefaultRegulator()
    ensures RegulatorOf(DefaultNodes()) == Some(DefaultNodes()[3])
  {
    var nodes := DefaultNodes();
    DefaultNodesRoles();
    RegulatorOfSpec(nodes);
  }

  /** Only the fourth default node carries the regulator mark. */
  lemma DefaultNodesRoles()
    ensures IsRegulator(DefaultNodes()[3])
    ensures forall j :: 0 <= j < 3 ==> !IsRegulator(DefaultNodes()[j])
  {
    var nodes := DefaultNodes();
    assert RegulatorMark <= nodes[3].nodeType;
    forall j | 0 <= j < 3 ensures !IsRegulator(nodes[j]) {
      NoMark(nodes[j].nodeType);
      NoMark(nodes[j].organization);
    }
  }

  /** A string without the mark's first character does not contain it. */
  lemma {:induction false} NoMark(s: string)
    requires '监' !in s
    ensures !Contains(s, RegulatorMark)
  {
    if s != [] {
      assert s[0] != '监';
      NoMark(s[1..]);
    }
  }

  // ---------------------------------------------------------------------
  // Payloads
  // ---------------------------------------------------------------------

  /** Who uploaded a record: the uploader metadata added to a copy of the
      data. */
  function WithMeta(data: Fields, node: Option<Node>, now: string): Fields {
    var stamped := data["_uploaded_at" := VStr(now)];
    match node
    case Some(n) => stamped["_uploaded_by" := VStr(n.nodeId)]["_organization" := VStr(n.organization)]
    case None => stamped["_uploaded_by" := VStr("anonymous")]
  }

  /** The stamped copy keeps every other field, adds the upload time and
      the uploader's id ("anonymous" without a node), and the uploader's
      organisation when there is a node. */
  lemma WithMetaStamps(data: Fields, node: Option<Node>, now: string)
    ensures var r := WithMeta(data, node, now);
      && r.Keys == data.Keys + {"_uploaded_at", "_uploaded_by"} + (if node.Some? then {"_organization"} else {})
      && (forall k :: k in data && k !in {"_uploaded_at", "_uploaded_by", "_organization"} ==> r[k] == data[k])
      && r["_uploaded_at"] == VStr(now)
      && r["_uploaded_by"] == VStr(if node.Some? then node.value.nodeId else "anonymous")
      && (node.Some? ==> r["_organization"] == VStr(node.value.organization))
  {
  }

  function SeverityName(s: Severity): string {
    match s
    case High => "high"
    case Critical => "critical"
    case Medium => "medium"
  }

  /** A violation as stored in a block. */
  function ViolationValue(v: Violation): Value {
    VDict(map["rule" := VStr(v.rule.Name()), "severity" := VStr(SeverityName(v.severity)),
              "observed" := VFloat(v.observed), "limit" := VFloat(v.limit), "timestamp" := VStr(v.timestamp)])
  }

  function ViolationList(vs: seq<Violation>): (r: Value)
    ensures r.VList? && |r.items| == |vs|
  {
    VList(seq(|vs|, i requires 0 <= i < |vs| => ViolationValue(vs[i])))
  }

  /** The risk record of a failed single check. */
  function RiskPayload(contractName: string, vs: seq<Violation>, data: Fields, now: string): Fields {
    map["contract" := VStr(contractName), "violations" := ViolationList(vs),
        "sample_data" := VDict(data), "reported_at" := VStr(now)]
  }

  /** The risk record of a failed record of a batch check. */
  function GpsRiskPayload(contractName: string, vs: seq<Violation>, record: Fields, now: string): Fields {
    map["contract" := VStr(contractName), "violations" := ViolationList(vs),
        "sample_meta" := VDict(map["vehicle_record" := VDict(record), "checked_at" := VStr(now)])]
  }

  // ---------------------------------------------------------------------
  // Alerts
  // ---------------------------------------------------------------------

  /** An entry of the alert history. Rule, severity and violation time are
      those of `violation`. */
  datatype Alert =
    | ContractAlert(contract: string, violation: Violation, sampleData: Fields, reportedAt: string)
    | GpsAlert(vehicleId: Value, violation: Violation, sample: Fields, checkedAt: string)

  /** The alerts of a failed single check, one per violation. */
  function ContractAlerts(contractName: string, vs: seq<Violation>, data: Fields, now: string): (r: seq<Alert>)
    ensures |r| == |vs|
    ensures forall i :: 0 <= i < |vs| ==> r[i] == ContractAlert(contractName, vs[i], data, now)
  {
    seq(|vs|, i requires 0 <= i < |vs| => ContractAlert(contractName, vs[i], data, now))
  }

  lemma ContractAlertsSnoc(contractName: string, vs: seq<Violation>, i: nat, data: Fields, now: string)
    requires i < |vs|
    ensures ContractAlerts(contractName, vs[..i + 1], data, now)
         == ContractAlerts(contractName, vs[..i], data, now) + [ContractAlert(contractName, vs[i], data, now)]
  {
  }

  /** The vehicle a record is about: the first truthy of `VEHICLENO` and
      `vehicleno`, else whatever `vehicle_no` holds (`None` if absent). */
  function VehicleIdOf(record: Fields): (r: Value)
    ensures Truthy(Get(record, "VEHICLENO").GetOr(VNone)) ==> r == record["VEHICLENO"]
  {
    var first := Get(record, "VEHICLENO").GetOr(VNone);
    var second := Get(record, "vehicleno").GetOr(VNone);
    if Truthy(first) then first
    else if Truthy(second) then second
    else Get(record, "vehicle_no").GetOr(VNone)
  }

  /** The alerts of a failed record of a batch check. */
  function GpsAlerts(record: Fields, vs: seq<Violation>, now: string): (r: seq<Alert>)
    ensures |r| == |vs|
    ensures forall i :: 0 <= i < |vs| ==> r[i] == GpsAlert(VehicleIdOf(record), vs[i], record, now)
  {
    seq(|vs|, i requires 0 <= i < |vs| => GpsAlert(VehicleIdOf(record), vs[i], record, now))
  }

  lemma GpsAlertsSnoc(record: Fields, vs: seq<Violation>, i: nat, now: string)
    requires i < |vs|
    ensures GpsAlerts(record, vs[..i + 1], now)
         == GpsAlerts(record, vs[..i], now) + [GpsAlert(VehicleIdOf(record), vs[i], record, now)]
  {
  }

  /** The columns of the batch check's result table. */
  const GpsAlertColumns: seq<string> := ["vehicle_id", "rule", "violation", "severity", "violation_time", "sample", "checked_at"]

  /** A batch-check alert as a row of the result table. */
  function GpsAlertRow(a: Alert): (row: Fields)
    requires a.GpsAlert?
    ensures forall k :: k in row <==> k in GpsAlertColumns
  {
    map["vehicle_id" := a.vehicleId, "rule" := VStr(a.violation.rule.Name()),
        "violation" := ViolationValue(a.violation), "severity" := VStr(SeverityName(a.violation.severity)),
        "violation_time" := VStr(a.violation.timestamp), "sample" := VDict(a.sample),
        "checked_at" := VStr(a.checkedAt)]
  }

  /** `s[start:]`, with Python's reading of a negative start. */
  function SliceFrom<T>(s: seq<T>, start: int): (r: seq<T>)
    ensures start >= 0 ==> r == s[if start <= |s| then start else |s|..]
    ensures start < 0 ==> r == s[if |s| + start >= 0 then |s| + start else 0..]
  {
    if start >= 0 then s[if start <= |s| then start else |s|..]
    else s[if |s| + start >= 0 then |s| + start else 0..]
  }

  /** `s[:stop]`, with Python's reading of a negative stop. */
  function SliceTo<T>(s: seq<T>, stop: int): (r: seq<T>)
    ensures stop >= 0 ==> r == s[..if stop <= |s| then stop else |s|]
    ensures stop < 0 ==> r == s[..if |s| + stop >= 0 then |s| + stop else 0]
  {
    if stop >= 0 then s[..if stop <= |s| then stop else |s|]
    else s[..if |s| + stop >= 0 then |s| + stop else 0]
  }

  /** `alerts[-limit:]`: the last `limit` alerts for a positive limit, but
      all of them for 0 and all but the first `-limit` for a negative one. */
  function RecentAlertsAsWritten(alerts: seq<Alert>, limit: int): seq<Alert> {
    SliceFrom(alerts, -limit)
  }

  lemma RecentAlertsAsWrittenSpec(alerts: seq<Alert>, limit: int)
    ensures var r := RecentAlertsAsWritten(alerts, limit);
      && r == alerts[|alerts| - |r|..]
      && (limit > 0 ==> |r| == if limit <= |alerts| then limit else |alerts|)
      && (limit == 0 ==> r == alerts)
      && (limit < 0 ==> |r| == if -limit <= |alerts| then |alerts| + limit else 0)
  {
  }

  /** With one alert on record, asking for the 0 most recent returns it. */
  lemma ZeroLimitReturnsEverything(a: Alert)
    ensures RecentAlertsAsWritten([a], 0) == [a]
  {
  }

  /** The most recent `limit` alerts, none for a limit of 0 or less. */
  function RecentAlerts(alerts: seq<Alert>, limit: int): (r: seq<Alert>)
    ensures |r| == if limit <= 0 then 0 else if limit <= |alerts| then limit else |alerts|
    ensures r == alerts[|alerts| - |r|..]
  {
    if limit <= 0 then [] else SliceFrom(alerts, -limit)
  }

  // ---------------------------------------------------------------------
  // The batch check on vehicle GPS records
  // ---------------------------------------------------------------------

  /** The great-circle distance in metres between two (latitude, longitude)
      points. */
  type GreatCircle = (real, real, real, real) -> real

  /** An element of a batch: a mapping (a dict, an object's attributes, or
      whatever `dict()` converts), or something `dict()` rejects. */
  datatype GpsRecord = Mapping(fields: Fields) | Unconvertible

  /** The records a batch checks: all of them when `max_records` is `None`
      or 0, else `records[:max_records]`. */
  function Selected(records: seq<GpsRecord>, maxRecords: Option<int>): seq<GpsRecord> {
    if maxRecords.None? || maxRecords.value == 0 then records else SliceTo(records, maxRecords.value)
  }

  lemma SelectedSpec(records: seq<GpsRecord>, maxRecords: Option<int>)
    ensures var r := Selected(records, maxRecords);
      && r == records[..|r|]
      && (maxRecords.None? || maxRecords == Some(0) ==> r == records)
      && (maxRecords.Some? && maxRecords.value > 0 ==>
            |r| == if maxRecords.value <= |records| then maxRecords.value else |records|)
  {
  }

  /** The speed a record reports: `SPEED` unless absent or "", in which case
      `speed`; an unconvertible value gives none. */
  function RecordSpeed(record: Fields): Option<real> {
    if "SPEED" in record && record["SPEED"] != VStr("") then ToFloat(record["SPEED"])
    else if "speed" in record then ToFloat(record["speed"])
    else None
  }

  /** The distance to the aircraft: `distance_to_aircraft` if present,
      else the great-circle distance between the vehicle's and the plane's
      positions when all four coordinates are present and convert. */
  function RecordDistance(record: Fields, greatCircle: GreatCircle): Option<real> {
    if "distance_to_aircraft" in record then ToFloat(record["distance_to_aircraft"])
    else if "plane_lat" in record && "plane_lon" in record && "LATITUDE" in record && "LONGITUDE" in record then
      var lat, lon := ToFloat(record["LATITUDE"]), ToFloat(record["LONGITUDE"]);
      var planeLat, planeLon := ToFloat(record["plane_lat"]), ToFloat(record["plane_lon"]);
      if lat.Some? && lon.Some? && planeLat.Some? && planeLon.Some?
      then Some(greatCircle(lat.value, lon.value, planeLat.value, planeLon.value))
      else None
    else None
  }

  /** The brake-test count: `brake_test_count`, else `BRAKE_TEST_COUNT`,
      through `int()`. */
  function RecordBrakeTests(record: Fields): Option<int> {
    if "brake_test_count" in record then ToInt(record["brake_test_count"])
    else if "BRAKE_TEST_COUNT" in record then ToInt(record["BRAKE_TEST_COUNT"])
    else None
  }

  /** The sample a record is checked as: the speed and distance as floats and
      the count as an int, each only when found. */
  function CheckSample(record: Fields, greatCircle: GreatCircle): (sample: Fields)
    ensures SpeedKey in sample <==> RecordSpeed(record).Some?
    ensures SpeedKey in sample ==> sample[SpeedKey] == VFloat(RecordSpeed(record).value)
    ensures DistanceKey in sample <==> RecordDistance(record, greatCircle).Some?
    ensures DistanceKey in sample ==> sample[DistanceKey] == VFloat(RecordDistance(record, greatCircle).value)
    ensures BrakeKey in sample <==> RecordBrakeTests(record).Some?
    ensures BrakeKey in sample ==> sample[BrakeKey] == VInt(RecordBrakeTests(record).value)
    ensures sample.Keys <= {SpeedKey, DistanceKey, BrakeKey}
  {
    var speed := RecordSpeed(record);
    var distance := RecordDistance(record, greatCircle);
    var brakes := RecordBrakeTests(record);
    var withSpeed: Fields := if speed.Some? then map[SpeedKey := VFloat(speed.value)] else map[];
    var withDistance := if distance.Some? then withSpeed[DistanceKey := VFloat(distance.value)] else withSpeed;
    if brakes.Some? then withDistance[BrakeKey := VInt(brakes.value)] else withDistance
  }

  /** An unconvertible `SPEED` hides `speed`: the fallback is taken only
      when `SPEED` is absent or the empty string. */
  lemma UpperCaseSpeedFirst(record: Fields)
    requires "SPEED" in record && record["SPEED"] != VStr("") && ToFloat(record["SPEED"]).None?
    ensures RecordSpeed(record).None?
  {
  }

  /** The contract's rules with the call's overrides put in. */
  function EffectiveRules(rules: Rules, speedThreshold: Option<real>, distanceThreshold: Option<real>): (r: Rules)
    ensures r.Keys == rules.Keys + (if speedThreshold.Some? then {MaxSpeed} else {})
                                 + (if distanceThreshold.Some? then {MinDistance} else {})
    ensures speedThreshold.Some? ==> r[MaxSpeed] == speedThreshold.value
    ensures distanceThreshold.Some? ==> r[MinDistance] == distanceThreshold.value
    ensures RequiredBrakeTests in rules ==> r[RequiredBrakeTests] == rules[RequiredBrakeTests]
    ensures speedThreshold.None? && MaxSpeed in rules ==> r[MaxSpeed] == rules[MaxSpeed]
    ensures distanceThreshold.None? && MinDistance in rules ==> r[MinDistance] == rules[MinDistance]
  {
    var withSpeed := if speedThreshold.Some? then rules[MaxSpeed := speedThreshold.value] else rules;
    if distanceThreshold.Some? then withSpeed[MinDistance := distanceThreshold.value] else withSpeed
  }

  /** What one batch call holds fixed for every record: the contract's key
      and name, the rules in force, the uploading node, the distance
      function and the time. */
  datatype BatchContext = BatchContext(contractName: string, contractLabel: string, rules: Rules,
                                       regulator: Option<Node>, greatCircle: GreatCircle, now: string)

  /** The violations one record shows. */
  function RecordViolations(ctx: BatchContext, record: Fields): seq<Violation> {
    Evaluate(ctx.rules, CheckSample(record, ctx.greatCircle), ctx.now)
  }

  /** The alerts a batch raises, record by record. */
  function BatchAlerts(ctx: BatchContext, recs: seq<GpsRecord>): seq<Alert> {
    if recs == [] then []
    else
      var last := recs[|recs| - 1];
      BatchAlerts(ctx, recs[..|recs| - 1])
      + (if last.Mapping? then GpsAlerts(last.fields, RecordViolations(ctx, last.fields), ctx.now) else [])
  }

  /** The data of the risk blocks a batch uploads: one per failing record. */
  function BatchRisk(ctx: BatchContext, recs: seq<GpsRecord>): seq<Fields> {
    if recs == [] then []
    else
      var last := recs[|recs| - 1];
      var vs := if last.Mapping? then RecordViolations(ctx, last.fields) else [];
      BatchRisk(ctx, recs[..|recs| - 1])
      + (if vs != [] then [WithMeta(GpsRiskPayload(ctx.contractName, vs, last.fields, ctx.now), ctx.regulator, ctx.now)] else [])
  }

  /** The entries a batch adds to the contract's violation log. */
  function BatchLog(ctx: BatchContext, recs: seq<GpsRecord>): seq<ViolationRecord> {
    if recs == [] then []
    else
      var last := recs[|recs| - 1];
      BatchLog(ctx, recs[..|recs| - 1])
      + (if last.Mapping? then
           Records(ctx.contractLabel, RecordViolations(ctx, last.fields), CheckSample(last.fields, ctx.greatCircle), ctx.now)
         else [])
  }

  /** Checking one more record extends the alerts, the risk blocks and the
      log by what that record gives. */
  lemma BatchSnoc(ctx: BatchContext, recs: seq<GpsRecord>, i: nat)
    requires i < |recs|
    ensures var vs := if recs[i].Mapping? then RecordViolations(ctx, recs[i].fields) else [];
      && BatchAlerts(ctx, recs[..i + 1])
         == BatchAlerts(ctx, recs[..i]) + (if recs[i].Mapping? then GpsAlerts(recs[i].fields, vs, ctx.now) else [])
      && BatchRisk(ctx, recs[..i + 1])
         == BatchRisk(ctx, recs[..i])
            + (if vs != [] then [WithMeta(GpsRiskPayload(ctx.contractName, vs, recs[i].fields, ctx.now), ctx.regulator, ctx.now)] else [])
      && BatchLog(ctx, recs[..i + 1])
         == BatchLog(ctx, recs[..i])
            + (if recs[i].Mapping? then Records(ctx.contractLabel, vs, CheckSample(recs[i].fields, ctx.greatCircle), ctx.now) else [])
  {
    TakeOneMore(recs, i);
    assert recs[..i + 1][..i] == recs[..i];
  }

  /** Every failing record puts exactly one block on the risk channel and
      raises between one and three alerts; a batch with no alert uploads
      nothing. */
  lemma {:induction false} AlertsAndRiskBlocks(ctx: BatchContext, recs: seq<GpsRecord>)
    ensures |BatchRisk(ctx, recs)| <= |BatchAlerts(ctx, recs)| <= 3 * |BatchRisk(ctx, recs)|
    ensures |BatchRisk(ctx, recs)| <= |recs|
  {
    if recs != [] {
      AlertsAndRiskBlocks(ctx, recs[..|recs| - 1]);
      var last := recs[|recs| - 1];
      if last.Mapping? {
        EvaluateShape(ctx.rules, CheckSample(last.fields, ctx.greatCircle), ctx.now);
      }
    }
  }

  lemma AppendAssoc<T>(a: seq<T>, b: seq<T>, c: seq<T>)
    ensures (a + b) + c == a + (b + c)
  {
  }

  /** The sample record of the module's demonstration, with the platform's
      default rules: too fast and too close, so two alerts, high then
      critical, about vehicle 民航沪2456. */
  lemma DemoRecord(greatCircle: GreatCircle, regulator: Option<Node>, now: string)
    ensures var record := map["VEHICLENO" := VStr("民航沪2456"), "LATITUDE" := VFloat(31.145),
                              "LONGITUDE" := VFloat(121.805), "SPEED" := VFloat(4.2),
                              "distance_to_aircraft" := VFloat(3.5),
                              "LOCATIONTIME" := VStr("2025-09-15 00:12:00")];
      var ctx := BatchContext(TowingSafety, "牵引作业安全合约", TowingSafetyRules, regulator, greatCircle, now);
      && RecordViolations(ctx, record) == [Violation(MaxSpeed, High, 4.2, 3.0, now), Violation(MinDistance, Critical, 3.5, 5.0, now)]
      && VehicleIdOf(record) == VStr("民航沪2456")
  {
  }

  /** A speed override above the observed speed clears the speed rule for
      the demonstration record, leaving the distance violation. */
  lemma DemoWithSpeedOverride(greatCircle: GreatCircle, regulator: Option<Node>, now: string)
    ensures var record := map["SPEED" := VFloat(4.2), "distance_to_aircraft" := VFloat(3.5)];
      var ctx := BatchContext(TowingSafety, "牵引作业安全合约", EffectiveRules(TowingSafetyRules, Some(5.0), None),
                              regulator, greatCircle, now);
      RecordViolations(ctx, record) == [Violation(MinDistance, Critical, 3.5, 5.0, now)]
  {
  }

  /** Checks `sample` with `contract`'s rules, the given thresholds put in
      for the one check and the original rules put back afterwards. */
  method CheckWithOverrides(contract: SmartContract, speedThreshold: Option<real>, distanceThreshold: Option<real>,
                            sample: Fields, now: string)
    returns (result: CheckResult)
    modifies contract
    ensures result.violations == Evaluate(EffectiveRules(old(contract.rules), speedThreshold, distanceThreshold), sample, now)
    ensures result.compliant <==> result.violations == []
    ensures contract.rules == old(contract.rules)
    ensures contract.violations == old(contract.violations) + Records(contract.name, result.violations, sample, now)
  {
    var originalRules := contract.rules;
    var modified := false;
    if speedThreshold.Some? {
      contract.rules := contract.rules[MaxSpeed := speedThreshold.value];
      modified := true;
    }
    if distanceThreshold.Some? {
      contract.rules := contract.rules[MinDistance := distanceThreshold.value];
      modified := true;
    }
    result := contract.CheckCompliance(sample, now);
    if modified {
      contract.rules := originalRules;
    }
  }

  // ---------------------------------------------------------------------
  // Statistics
  // ---------------------------------------------------------------------

  /** The sum of `counts` over `keys`. */
  function SumOver(counts: map<string, nat>, keys: seq<string>): nat
    requires forall i :: 0 <= i < |keys| ==> keys[i] in counts
  {
    if keys == [] then 0 else counts[keys[0]] + SumOver(counts, keys[1..])
  }

  /** Changing one count changes the sum by the same amount, when the key
      is listed once. */
  lemma {:induction false} SumOverUpdate(counts: map<string, nat>, keys: seq<string>, k: string, v: nat)
    requires forall i :: 0 <= i < |keys| ==> keys[i] in counts
    requires NoDuplicates(keys) && k in counts
    ensures SumOver(counts[k := v], keys) + (if k in keys then counts[k] else 0)
         == SumOver(counts, keys) + (if k in keys then v else 0)
  {
    if keys != [] {
      assert NoDuplicates(keys[1..]);
      SumOverUpdate(counts, keys[1..], k, v);
      if keys[0] == k {
        assert k !in keys[1..] by {
          forall j | 0 <= j < |keys[1..]| ensures keys[1..][j] != k {
            assert keys[1..][j] == keys[j + 1];
          }
        }
      }
    }
  }

  /** One more block (or log entry) under a listed key adds exactly one to
      the total. */
  lemma OneMoreCounted(counts: map<string, nat>, keys: seq<string>, k: string)
    requires forall i :: 0 <= i < |keys| ==> keys[i] in counts
    requires NoDuplicates(keys) && k in keys
    ensures SumOver(counts[k := counts[k] + 1], keys) == SumOver(counts, keys) + 1
  {
    SumOverUpdate(counts, keys, k, counts[k] + 1);
  }

  /** Counts of at least `low` under every key sum to at least `low` per key. */
  lemma {:induction false} SumOverAtLeast(counts: map<string, nat>, keys: seq<string>, low: nat)
    requires forall i :: 0 <= i < |keys| ==> keys[i] in counts && counts[keys[i]] >= low
    ensures SumOver(counts, keys) >= low * |keys|
  {
    if keys != [] {
      SumOverAtLeast(counts, keys[1..], low);
    }
  }

  /** What `get_statistics` reports. */
  datatype Statistics = Statistics(totalBlocks: nat, blocksPerChannel: map<string, nat>,
                                   totalViolations: nat, violationsPerContract: map<string, nat>,
                                   alertsCached: nat)

  /** The platform's fixed structure: a risk channel, each channel and
      contract name listed once in its order, and a separate object behind
      every name. */
  ghost predicate Structured(channelOrder: seq<string>, channels: map<string, DataChannel>,
                             contractOrder: seq<string>, contracts: map<string, SmartContract>) {
    && RiskChannel in channels
    && NoDuplicates(channelOrder) && (forall k :: k in channels <==> k in channelOrder)
    && NoDuplicates(contractOrder) && (forall k :: k in contracts <==> k in contractOrder)
    && (forall a, b :: a in channels && b in channels && a != b ==> channels[a] != channels[b])
    && (forall a, b :: a in contracts && b in contracts && a != b ==> contracts[a] != contracts[b])
  }

  /** The six channels under their own names and the one towing-safety
      contract make up a structured platform. */
  lemma InitialStructure(chans: map<string, DataChannel>, towing: SmartContract)
    requires forall k :: k in chans <==> k in ChannelNames
    requires forall k :: k in chans ==> chans[k].name == k
    ensures Structured(ChannelNames, chans, [TowingSafety], map[TowingSafety := towing])
  {
    ChannelNamesDistinct();
    assert RiskChannel == ChannelNames[5];
  }

  /** Every channel in `chans` sits under its own name and holds only its
      genesis block. */
  ghost predicate Opened(chans: map<string, DataChannel>, hash: HashFn, now: string)
    reads chans.Values
  {
    forall k :: k in chans ==>
      && chans[k].name == k && chans[k].hash == hash && chans[k].blocks == [chans[k].genesis]
      && chans[k].genesis == NewBlock(hash, 0, now, GenesisData(k), "0")
  }

  /** Channels holding only their genesis blocks are valid. */
  lemma OpenedValid(chans: map<string, DataChannel>, hash: HashFn, now: string)
    requires Opened(chans, hash, now)
    ensures forall k :: k in chans ==> chans[k].Valid()
  {
    forall k | k in chans ensures chans[k].Valid() {
      assert chans[k].blocks == [chans[k].genesis];
    }
  }

  /** `chans` with one more channel opened under `name`. */
  method OpenChannel(chans: map<string, DataChannel>, name: string, description: string, hash: HashFn, now: string)
    returns (r: map<string, DataChannel>)
    requires Opened(chans, hash, now)
    ensures Opened(r, hash, now)
    ensures name in r && r == chans[name := r[name]]
  {
    var c := new DataChannel(name, description, hash, now);
    r := chans[name := c];
  }

  /** The six channels the platform opens, each with its description. */
  method OpenChannels(hash: HashFn, now: string) returns (chans: map<string, DataChannel>)
    ensures forall k :: k in chans <==> k in ChannelNames
    ensures Opened(chans, hash, now)
  {
    chans := OpenChannel(map[], "vehicle", "车辆通道：存储车辆实时路线、出库/停车时间等", hash, now);
    chans := OpenChannel(chans, "personnel", "人员通道：驾驶员/指挥员身份、资质等", hash, now);
    chans := OpenChannel(chans, "schedule", "计划通道：地服排班、航班计划、路线规划等", hash, now);
    chans := OpenChannel(chans, "regulation", "法规通道：民航局SID、企业手册等", hash, now);
    chans := OpenChannel(chans, "flight_info", "航班信息通道：实际进/离港时间、停机位等", hash, now);
    chans := OpenChannel(chans, "risk", "风险信息通道：违规报警、风险事件记录等", hash, now);
  }

  /** The platform: channels, nodes and contracts fixed at construction, and
      the alert history. */
  class BlockchainPlatform {
    /** The channel and contract names in the order the dictionaries list
        them. */
    const channelOrder: seq<string>
    const channels: map<string, DataChannel>
    const nodes: seq<Node>
    const contractOrder: seq<string>
    const contracts: map<string, SmartContract>
    var alerts: seq<Alert>

    /** The fixed structure: a risk channel, each name listed once, and a
        separate object behind every name. */
    ghost predicate Wellformed() {
      Structured(channelOrder, channels, contractOrder, contracts)
    }

    /** Wellformed, and every channel a valid chain from its genesis block. */
    ghost predicate Valid()
      reads channels.Values
    {
      Wellformed() && forall k :: k in channels ==> channels[k].Valid()
    }

    constructor (hash: HashFn, now: string)
      ensures Valid()
      ensures channelOrder == ChannelNames
      ensures Opened(channels, hash, now)
      ensures nodes == DefaultNodes()
      ensures contractOrder == [TowingSafety]
      ensures contracts[TowingSafety].name == "牵引作业安全合约"
      ensures contracts[TowingSafety].rules == TowingSafetyRules && contracts[TowingSafety].violations == []
      ensures alerts == []
    {
      var towing := new SmartContract("牵引作业安全合约", TowingSafetyRules);
      var chans := OpenChannels(hash, now);
      channelOrder := ChannelNames;
      channels := chans;
      nodes := DefaultNodes();
      contractOrder := [TowingSafety];
      contracts := map[TowingSafety := towing];
      alerts := [];
      new;
      InitialStructure(chans, towing);
      OpenedValid(chans, hash, now);
    }

    /** The regulator node: the first whose type or organisation contains
        the regulator mark, else the last node, else none. */
    method GetRegulatorNode() returns (r: Option<Node>)
      ensures r == RegulatorOf(nodes)
    {
      RegulatorOfSpec(nodes);
      for i := 0 to |nodes|
        invariant forall j :: 0 <= j < i ==> !IsRegulator(nodes[j])
      {
        if Contains(nodes[i].nodeType, RegulatorMark) || Contains(nodes[i].organization, RegulatorMark) {
          return Some(nodes[i]);
        }
      }
      r := if nodes != [] then Some(nodes[|nodes| - 1]) else None;
    }

    /** Appends `data`, stamped with the time and the uploader, to the named
        channel; an unknown channel is an error and changes nothing. */
    method UploadData(channelName: string, data: Fields, node: Option<Node>, now: string) returns (r: Result<Block, string>)
      requires Valid()
      modifies channels.Values
      ensures Valid()
      ensures channelName !in channels ==> r == Failure("通道 " + channelName + " 不存在")
      ensures channelName in channels ==>
        && r.Success?
        && r.value == NextBlock(channels[channelName].hash, old(channels[channelName].blocks), WithMeta(data, node, now), now)
        && channels[channelName].blocks == old(channels[channelName].blocks) + [r.value]
      ensures forall k :: k in channels && k != channelName ==> channels[k].blocks == old(channels[k].blocks)
    {
      if channelName !in channels {
        return Failure("通道 " + channelName + " 不存在");
      }
      var dataWithMeta := WithMeta(data, node, now);
      var block := channels[channelName].AddData(dataWithMeta, now);
      r := Success(block);
    }

    /** Puts `payload` on the risk channel, uploaded by the regulator node,
        and adds `added` to the alert history. */
    method RaiseRisk(payload: Fields, added: seq<Alert>, now: string)
      requires Valid()
      modifies channels.Values, this`alerts
      ensures Valid()
      ensures alerts == old(alerts) + added
      ensures channels[RiskChannel].blocks
           == old(channels[RiskChannel].blocks)
              + [NextBlock(channels[RiskChannel].hash, old(channels[RiskChannel].blocks),
                           WithMeta(payload, RegulatorOf(nodes), now), now)]
      ensures forall k :: k in channels && k != RiskChannel ==> channels[k].blocks == old(channels[k].blocks)
    {
      var regulator := GetRegulatorNode();
      var _ := UploadData(RiskChannel, payload, regulator, now);
      alerts := alerts + added;
    }

    /** The response to a failed check: one risk record on the risk channel
        and one alert per violation. */
    method ReportViolations(contractName: string, found: seq<Violation>, data: Fields, now: string)
      requires Valid()
      modifies channels.Values, this`alerts
      ensures Valid()
      ensures alerts == old(alerts) + ContractAlerts(contractName, found, data, now)
      ensures channels[RiskChannel].blocks
           == old(channels[RiskChannel].blocks)
              + [NextBlock(channels[RiskChannel].hash, old(channels[RiskChannel].blocks),
                           WithMeta(RiskPayload(contractName, found, data, now), RegulatorOf(nodes), now), now)]
      ensures forall k :: k in channels && k != RiskChannel ==> channels[k].blocks == old(channels[k].blocks)
    {
      var riskPayload := RiskPayload(contractName, found, data, now);
      var added := [];
      for i := 0 to |found|
        invariant added == ContractAlerts(contractName, found[..i], data, now)
        modifies {}
      {
        ContractAlertsSnoc(contractName, found, i, data, now);
        added := added + [ContractAlert(contractName, found[i], data, now)];
      }
      assert found[..|found|] == found;
      RaiseRisk(riskPayload, added, now);
    }

    /** Checks `data` with the named contract. A failed check puts one risk
        record on the risk channel, uploaded by the regulator node, and
        adds one alert per violation; a passed check changes no channel and
        no alert; an unknown contract is an error and changes nothing. */
    method CheckCompliance(contractName: string, data: Fields, now: string) returns (r: Result<CheckResult, string>)
      requires Valid()
      modifies channels.Values, contracts.Values, this`alerts
      ensures Valid()
      ensures forall k :: k in contracts ==> contracts[k].rules == old(contracts[k].rules)
      ensures forall k :: k in contracts && k != contractName ==> contracts[k].violations == old(contracts[k].violations)
      ensures forall k :: k in channels && k != RiskChannel ==> channels[k].blocks == old(channels[k].blocks)
      ensures contractName !in contracts ==>
        && r == Failure("合约 " + contractName + " 不存在")
        && alerts == old(alerts)
        && channels[RiskChannel].blocks == old(channels[RiskChannel].blocks)
      ensures contractName in contracts ==>
        var c := contracts[contractName];
        var found := Evaluate(c.rules, data, now);
        && r == Success(CheckResult(found == [], found, now))
        && c.violations == old(c.violations) + Records(c.name, found, data, now)
        && (found == [] ==>
              alerts == old(alerts) && channels[RiskChannel].blocks == old(channels[RiskChannel].blocks))
        && (found != [] ==>
              && alerts == old(alerts) + ContractAlerts(contractName, found, data, now)
              && channels[RiskChannel].blocks
                 == old(channels[RiskChannel].blocks)
                    + [NextBlock(channels[RiskChannel].hash, old(channels[RiskChannel].blocks),
                                 WithMeta(RiskPayload(contractName, found, data, now), RegulatorOf(nodes), now), now)])
    {
      if contractName !in contracts {
        return Failure("合约 " + contractName + " 不存在");
      }
      var contract := contracts[contractName];
      var result := contract.CheckCompliance(data, now);
      assert forall k :: k in contracts ==> contracts[k].rules == old(contracts[k].rules);
      assert forall k :: k in contracts && k != contractName ==> contracts[k].violations == old(contracts[k].violations);
      assert forall k :: k in channels ==> channels[k].blocks == old(channels[k].blocks);
      if !result.compliant {
        ReportViolations(contractName, result.violations, data, now);
      }
      r := Success(result);
    }

    /** The response to a failed record of a batch: one risk record on the
        risk channel and one alert per violation. */
    method ReportGpsViolations(contractName: string, found: seq<Violation>, record: Fields, now: string)
      returns (added: seq<Alert>)
      requires Valid()
      modifies channels.Values, this`alerts
      ensures Valid()
      ensures added == GpsAlerts(record, found, now)
      ensures alerts == old(alerts) + added
      ensures channels[RiskChannel].blocks
           == old(channels[RiskChannel].blocks)
              + [NextBlock(channels[RiskChannel].hash, old(channels[RiskChannel].blocks),
                           WithMeta(GpsRiskPayload(contractName, found, record, now), RegulatorOf(nodes), now), now)]
      ensures forall k :: k in channels && k != RiskChannel ==> channels[k].blocks == old(channels[k].blocks)
    {
      var riskPayload := GpsRiskPayload(contractName, found, record, now);
      added := [];
      for i := 0 to |found|
        invariant added == GpsAlerts(record, found[..i], now)
        modifies {}
      {
        GpsAlertsSnoc(record, found, i, now);
        added := added + [GpsAlert(VehicleIdOf(record), found[i], record, now)];
      }
      assert found[..|found|] == found;
      RaiseRisk(riskPayload, added, now);
    }

    /** One element of a batch: an unconvertible one is skipped; a mapping
        is checked as its sample under the overridden rules, and a failure
        is reported. */
    method CheckGpsRecord(contract: SmartContract, ctx: BatchContext, speedThreshold: Option<real>,
                          distanceThreshold: Option<real>, rec: GpsRecord)
      returns (added: seq<Alert>)
      requires Valid()
      requires ctx.rules == EffectiveRules(contract.rules, speedThreshold, distanceThreshold)
      requires ctx.contractLabel == contract.name && ctx.regulator == RegulatorOf(nodes)
      modifies channels.Values, contract, this`alerts
      ensures Valid()
      ensures contract.rules == old(contract.rules)
      ensures var vs := if rec.Mapping? then RecordViolations(ctx, rec.fields) else [];
        && contract.violations
           == old(contract.violations)
              + (if rec.Mapping? then Records(ctx.contractLabel, vs, CheckSample(rec.fields, ctx.greatCircle), ctx.now) else [])
        && added == (if rec.Mapping? then GpsAlerts(rec.fields, vs, ctx.now) else [])
        && alerts == old(alerts) + added
        && channels[RiskChannel].blocks
           == old(channels[RiskChannel].blocks)
              + (if vs != [] then
                   [NextBlock(channels[RiskChannel].hash, old(channels[RiskChannel].blocks),
                              WithMeta(GpsRiskPayload(ctx.contractName, vs, rec.fields, ctx.now), ctx.regulator, ctx.now),
                              ctx.now)]
                 else [])
      ensures forall k :: k in channels && k != RiskChannel ==> channels[k].blocks == old(channels[k].blocks)
    {
      added := [];
      if rec.Unconvertible? {
        return;
      }
      var sample := CheckSample(rec.fields, ctx.greatCircle);
      var result := CheckWithOverrides(contract, speedThreshold, distanceThreshold, sample, ctx.now);
      if !result.compliant {
        added := ReportGpsViolations(ctx.contractName, result.violations, rec.fields, ctx.now);
      }
    }

    /** The batch after one more of `checked` is checked: the history,
        the log and the risk channel extended by what `checked[i]` gives. */
    method CheckNextGpsRecord(contract: SmartContract, ctx: BatchContext, speedThreshold: Option<real>,
                              distanceThreshold: Option<real>, checked: seq<GpsRecord>, i: nat,
                              ghost log0: seq<ViolationRecord>, ghost blocks0: seq<Block>)
      returns (added: seq<Alert>)
      requires Valid()
      requires i < |checked|
      requires ctx.rules == EffectiveRules(contract.rules, speedThreshold, distanceThreshold)
      requires ctx.contractLabel == contract.name && ctx.regulator == RegulatorOf(nodes)
      requires contract.violations == log0 + BatchLog(ctx, checked[..i])
      requires channels[RiskChannel].blocks == AppendAll(channels[RiskChannel].hash, blocks0, BatchRisk(ctx, checked[..i]), ctx.now)
      modifies channels.Values, contract, this`alerts
      ensures Valid()
      ensures contract.rules == old(contract.rules)
      ensures alerts == old(alerts) + added
      ensures BatchAlerts(ctx, checked[..i + 1]) == BatchAlerts(ctx, checked[..i]) + added
      ensures contract.violations == log0 + BatchLog(ctx, checked[..i + 1])
      ensures channels[RiskChannel].blocks == AppendAll(channels[RiskChannel].hash, blocks0, BatchRisk(ctx, checked[..i + 1]), ctx.now)
      ensures forall k :: k in channels && k != RiskChannel ==> channels[k].blocks == old(channels[k].blocks)
    {
      BatchSnoc(ctx, checked, i);
      var rec := checked[i];
      ghost var vs := if rec.Mapping? then RecordViolations(ctx, rec.fields) else [];
      ghost var logged := if rec.Mapping? then Records(ctx.contractLabel, vs, CheckSample(rec.fields, ctx.greatCircle), ctx.now) else [];
      ghost var log1 := contract.violations;
      ghost var risk := channels[RiskChannel];
      ghost var blocks1 := risk.blocks;
      added := CheckGpsRecord(contract, ctx, speedThreshold, distanceThreshold, rec);
      assert contract.violations == log1 + logged;
      AppendAssoc(log0, BatchLog(ctx, checked[..i]), logged);
      if vs != [] {
        var p := WithMeta(GpsRiskPayload(ctx.contractName, vs, rec.fields, ctx.now), ctx.regulator, ctx.now);
        assert risk.blocks == blocks1 + [NextBlock(risk.hash, blocks1, p, ctx.now)];
        AppendAllSnoc(risk.hash, blocks0, BatchRisk(ctx, checked[..i]), p, ctx.now);
      } else {
        assert risk.blocks == blocks1;
        assert BatchRisk(ctx, checked[..i + 1]) == BatchRisk(ctx, checked[..i]);
      }
    }

    /** Checks each of `checked` in turn: the result is the alerts added,
        and the log and the risk channel grow by what the batch gives. */
    method CheckGpsBatch(contract: SmartContract, ctx: BatchContext, speedThreshold: Option<real>,
                         distanceThreshold: Option<real>, checked: seq<GpsRecord>)
      returns (rows: seq<Alert>)
      requires Valid()
      requires ctx.rules == EffectiveRules(contract.rules, speedThreshold, distanceThreshold)
      requires ctx.contractLabel == contract.name && ctx.regulator == RegulatorOf(nodes)
      modifies channels.Values, contract, this`alerts
      ensures Valid()
      ensures contract.rules == old(contract.rules)
      ensures rows == BatchAlerts(ctx, checked)
      ensures alerts == old(alerts) + rows
      ensures contract.violations == old(contract.violations) + BatchLog(ctx, checked)
      ensures channels[RiskChannel].blocks
           == AppendAll(channels[RiskChannel].hash, old(channels[RiskChannel].blocks), BatchRisk(ctx, checked), ctx.now)
      ensures forall k :: k in channels && k != RiskChannel ==> channels[k].blocks == old(channels[k].blocks)
    {
      ghost var risk := channels[RiskChannel];
      rows := [];
      for i := 0 to |checked|
        invariant Valid()
        invariant contract.rules == old(contract.rules)
        invariant rows == BatchAlerts(ctx, checked[..i])
        invariant alerts == old(alerts) + rows
        invariant contract.violations == old(contract.violations) + BatchLog(ctx, checked[..i])
        invariant risk.blocks == AppendAll(risk.hash, old(risk.blocks), BatchRisk(ctx, checked[..i]), ctx.now)
        invariant forall k :: k in channels && k != RiskChannel ==> channels[k].blocks == old(channels[k].blocks)
      {
        var added := CheckNextGpsRecord(contract, ctx, speedThreshold, distanceThreshold, checked, i,
                                        old(contract.violations), old(risk.blocks));
        AppendAssoc(old(alerts), rows, added);
        rows := rows + added;
      }
      assert checked[..|checked|] == checked;
    }

    /** Checks a batch of vehicle GPS records with the named contract, the
        given thresholds overriding its rules for the run. Each failing
        record puts one risk record on the risk channel and one alert per
        violation in the history; the result is exactly the alerts this
        call added. The contract's rules are as before; an unknown contract
        is an error and changes nothing. */
    method RunComplianceCheckOnGps(records: seq<GpsRecord>, contractName: string, distanceThreshold: Option<real>,
                                   speedThreshold: Option<real>, maxRecords: Option<int>,
                                   greatCircle: GreatCircle, now: string)
      returns (r: Result<seq<Alert>, string>)
      requires Valid()
      modifies channels.Values, contracts.Values, this`alerts
      ensures Valid()
      ensures forall k :: k in contracts ==> contracts[k].rules == old(contracts[k].rules)
      ensures forall k :: k in contracts && k != contractName ==> contracts[k].violations == old(contracts[k].violations)
      ensures forall k :: k in channels && k != RiskChannel ==> channels[k].blocks == old(channels[k].blocks)
      ensures contractName !in contracts ==>
        && r == Failure("合约 " + contractName + " 不存在")
        && alerts == old(alerts)
        && channels[RiskChannel].blocks == old(channels[RiskChannel].blocks)
      ensures contractName in contracts ==>
        var c := contracts[contractName];
        var ctx := BatchContext(contractName, c.name, EffectiveRules(c.rules, speedThreshold, distanceThreshold),
                                RegulatorOf(nodes), greatCircle, now);
        var checked := Selected(records, maxRecords);
        && r == Success(BatchAlerts(ctx, checked))
        && alerts == old(alerts) + BatchAlerts(ctx, checked)
        && c.violations == old(c.violations) + BatchLog(ctx, checked)
        && channels[RiskChannel].blocks
           == AppendAll(channels[RiskChannel].hash, old(channels[RiskChannel].blocks), BatchRisk(ctx, checked), now)
    {
      if contractName !in contracts {
        return Failure("合约 " + contractName + " 不存在");
      }
      var contract := contracts[contractName];
      var checked := if maxRecords.Some? && maxRecords.value != 0 then SliceTo(records, maxRecords.value) else records;
      var ctx := BatchContext(contractName, contract.name, EffectiveRules(contract.rules, speedThreshold, distanceThreshold),
                              RegulatorOf(nodes), greatCircle, now);
      var rows := CheckGpsBatch(contract, ctx, speedThreshold, distanceThreshold, checked);
      r := Success(rows);
    }

    /** Whether each channel's chain verifies. */
    method VerifyAllChannels() returns (m: map<string, bool>)
      requires Wellformed()
      ensures m.Keys == channels.Keys
      ensures forall k :: k in m ==> m[k] == ChainValid(channels[k].hash, channels[k].blocks)
      ensures Valid() ==> forall k :: k in m ==> m[k]
    {
      m := map[];
      for i := 0 to |channelOrder|
        invariant forall k :: k in m <==> k in channelOrder[..i]
        invariant forall k :: k in m ==> k in channels && m[k] == ChainValid(channels[k].hash, channels[k].blocks)
      {
        var name := channelOrder[i];
        var ok := channels[name].VerifyIntegrity();
        m := m[name := ok];
      }
      assert channelOrder[..|channelOrder|] == channelOrder;
    }

    /** The block count of every channel. */
    function BlocksPerChannel(): (m: map<string, nat>)
      reads this, channels.Values
      ensures m.Keys == channels.Keys
    {
      map k | k in channels :: |channels[k].blocks|
    }

    /** The log length of every contract. */
    function ViolationsPerContract(): (m: map<string, nat>)
      reads this, contracts.Values
      ensures m.Keys == contracts.Keys
    {
      map k | k in contracts :: |contracts[k].violations|
    }

    /** Block, violation and alert counts, read without changing anything. */
    function GetStatistics(): Statistics
      requires Wellformed()
      reads this, channels.Values, contracts.Values
    {
      Statistics(SumOver(BlocksPerChannel(), channelOrder), BlocksPerChannel(),
                 SumOver(ViolationsPerContract(), contractOrder), ViolationsPerContract(),
                 |alerts|)
    }

    /** On a valid platform every channel holds at least its genesis block,
        so the total is at least the number of channels; the alert count
        is the length of the history. */
    lemma StatisticsOfValid()
      requires Valid()
      ensures var stats := GetStatistics();
        && stats.blocksPerChannel.Keys == channels.Keys
        && (forall k :: k in stats.blocksPerChannel ==> stats.blocksPerChannel[k] >= 1)
        && stats.totalBlocks >= |channelOrder|
        && stats.violationsPerContract.Keys == contracts.Keys
        && stats.alertsCached == |alerts|
    {
      SumOverAtLeast(BlocksPerChannel(), channelOrder, 1);
    }

    /** `alerts[-limit:]`: the end of the history, most recent last. A
        positive limit gives the last `limit` alerts, as the corrected
        `RecentAlerts` does; 0 gives the whole history, and a negative
        limit all but the first `-limit` alerts. */
    function ListAlerts(limit: int): (r: seq<Alert>)
      reads this
      ensures |r| <= |alerts| && r == alerts[|alerts| - |r|..]
      ensures limit > 0 ==> r == RecentAlerts(alerts, limit)
      ensures limit == 0 ==> r == alerts
      ensures limit < 0 ==> |r| == if -limit <= |alerts| then |alerts| + limit else 0
    {
      RecentAlertsAsWritten(alerts, limit)
    }
  }
}
