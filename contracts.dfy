/** The rule engine: a smart contract holds numeric thresholds and checks one
    sample against them, logging every violation it finds. */
module Compliance {
  import opened Wrappers
  import opened Values

  /** The three rules, in the order they are checked. */
  datatype Rule = MaxSpeed | MinDistance | RequiredBrakeTests {
    /** The rule's key in a contract's rules and in a violation. */
    function Name(): string {
      match this
      case MaxSpeed => "max_speed"
      case MinDistance => "min_distance"
      case RequiredBrakeTests => "required_brake_tests"
    }
  }

  /** The sample keys the three rules read. */
  const SpeedKey := "speed"
  const DistanceKey := "distance_to_aircraft"
  const BrakeKey := "brake_test_count"

  datatype Severity = High | Critical | Medium

  /** One violation: the rule broken, its severity, the observed value and
      the limit the message is built from, and the time it was found. */
  datatype Violation = Violation(rule: Rule, severity: Severity, observed: real, limit: real, timestamp: string)

  /** What `check_compliance` returns. */
  datatype CheckResult = CheckResult(compliant: bool, violations: seq<Violation>, checkedAt: string)

  /** An entry of a contract's violation log. */
  datatype ViolationRecord = ViolationRecord(contract: string, violation: Violation, originalData: Fields, recordedAt: string)

  /** Rule to threshold; a missing rule (or one set to `None`) is
      skipped. */
  type Rules = map<Rule, real>

  /** The severity each rule reports. */
  function SeverityOf(rule: Rule): Severity {
    match rule
    case MaxSpeed => High
    case MinDistance => Critical
    case RequiredBrakeTests => Medium
  }

  /** The position of a rule in the order the rules are checked. */
  function Rank(rule: Rule): nat {
    match rule
    case MaxSpeed => 0
    case MinDistance => 1
    case RequiredBrakeTests => 2
  }

  /** The speed rule: a numeric speed strictly above `max_speed`. */
  function SpeedViolations(rules: Rules, data: Fields, now: string): seq<Violation> {
    if SpeedKey in data && AsNumber(data[SpeedKey]).Some? && MaxSpeed in rules
       && AsNumber(data[SpeedKey]).value > rules[MaxSpeed]
    then [Violation(MaxSpeed, High, AsNumber(data[SpeedKey]).value, rules[MaxSpeed], now)]
    else []
  }

  /** The distance rule: a numeric distance strictly below `min_distance`. */
  function DistanceViolations(rules: Rules, data: Fields, now: string): seq<Violation> {
    if DistanceKey in data && AsNumber(data[DistanceKey]).Some? && MinDistance in rules
       && AsNumber(data[DistanceKey]).value < rules[MinDistance]
    then [Violation(MinDistance, Critical, AsNumber(data[DistanceKey]).value, rules[MinDistance], now)]
    else []
  }

  /** The brake rule: an integer count strictly below
      `required_brake_tests`. A float count is not checked. */
  function BrakeViolations(rules: Rules, data: Fields, now: string): seq<Violation> {
    if BrakeKey in data && AsInt(data[BrakeKey]).Some? && RequiredBrakeTests in rules
       && (AsInt(data[BrakeKey]).value as real) < rules[RequiredBrakeTests]
    then [Violation(RequiredBrakeTests, Medium, AsInt(data[BrakeKey]).value as real, rules[RequiredBrakeTests], now)]
    else []
  }

  /** The violations found in `data`, in the order the rules are checked. */
  function Evaluate(rules: Rules, data: Fields, now: string): seq<Violation> {
    SpeedViolations(rules, data, now) + DistanceViolations(rules, data, now) + BrakeViolations(rules, data, now)
  }

  /** The violations of one rule, in order. */
  function OfRule(vs: seq<Violation>, rule: Rule): (r: seq<Violation>)
    ensures |r| <= |vs|
  {
    if vs == [] then []
    else OfRule(vs[..|vs| - 1], rule) + (if vs[|vs| - 1].rule == rule then [vs[|vs| - 1]] else [])
  }

  /** The log entries one check appends: one per violation, in order. */
  function Records(contract: string, vs: seq<Violation>, data: Fields, now: string): (r: seq<ViolationRecord>)
    ensures |r| == |vs|
    ensures forall i :: 0 <= i < |vs| ==> r[i].violation == vs[i] && r[i].contract == contract && r[i].originalData == data
  {
    seq(|vs|, i requires 0 <= i < |vs| => ViolationRecord(contract, vs[i], data, now))
  }

  lemma RecordsSnoc(contract: string, vs: seq<Violation>, i: int, data: Fields, now: string)
    requires 0 <= i < |vs|
    ensures Records(contract, vs[..i + 1], data, now)
         == Records(contract, vs[..i], data, now) + [ViolationRecord(contract, vs[i], data, now)]
  {
  }

  /** At most one violation per rule, in the fixed order speed, distance,
      brake, each with its rule's severity and the time of the check. */
  lemma EvaluateShape(rules: Rules, data: Fields, now: string)
    ensures var r := Evaluate(rules, data, now);
      && |r| <= 3
      && (forall i, j :: 0 <= i < j < |r| ==> Rank(r[i].rule) < Rank(r[j].rule))
      && (forall v :: v in r ==> v.severity == SeverityOf(v.rule) && v.timestamp == now)
  {
  }

  /** Each rule reports exactly what its own check finds: the rules do not
      interfere with one another. */
  lemma {:induction false} EachRuleSeparately(rules: Rules, data: Fields, now: string)
    ensures OfRule(Evaluate(rules, data, now), MaxSpeed) == SpeedViolations(rules, data, now)
    ensures OfRule(Evaluate(rules, data, now), MinDistance) == DistanceViolations(rules, data, now)
    ensures OfRule(Evaluate(rules, data, now), RequiredBrakeTests) == BrakeViolations(rules, data, now)
  {
    SplitByRule(SpeedViolations(rules, data, now), DistanceViolations(rules, data, now), BrakeViolations(rules, data, now));
  }

  /** Three pieces of at most one violation each, of the three rules in
      turn, filter back into the pieces. */
  lemma {:induction false} SplitByRule(s: seq<Violation>, d: seq<Violation>, b: seq<Violation>)
    requires |s| <= 1 && forall v :: v in s ==> v.rule == MaxSpeed
    requires |d| <= 1 && forall v :: v in d ==> v.rule == MinDistance
    requires |b| <= 1 && forall v :: v in b ==> v.rule == RequiredBrakeTests
    ensures OfRule(s + d + b, MaxSpeed) == s
    ensures OfRule(s + d + b, MinDistance) == d
    ensures OfRule(s + d + b, RequiredBrakeTests) == b
  {
    OfRuleOfPieces(s, d, b, MaxSpeed);
    OfRuleOfPieces(s, d, b, MinDistance);
    OfRuleOfPieces(s, d, b, RequiredBrakeTests);
    OfRuleSingle(s, MaxSpeed);
    OfRuleSingle(d, MaxSpeed);
    OfRuleSingle(b, MaxSpeed);
    OfRuleSingle(s, MinDistance);
    OfRuleSingle(d, MinDistance);
    OfRuleSingle(b, MinDistance);
    OfRuleSingle(s, RequiredBrakeTests);
    OfRuleSingle(d, RequiredBrakeTests);
    OfRuleSingle(b, RequiredBrakeTests);
  }

  lemma {:induction false} OfRuleOfPieces(s: seq<Violation>, d: seq<Violation>, b: seq<Violation>, rule: Rule)
    ensures OfRule(s + d + b, rule) == OfRule(s, rule) + OfRule(d, rule) + OfRule(b, rule)
  {
    OfRuleAppend(s + d, b, rule);
    OfRuleAppend(s, d, rule);
  }

  lemma {:induction false} OfRuleAppend(a: seq<Violation>, b: seq<Violation>, rule: Rule)
    ensures OfRule(a + b, rule) == OfRule(a, rule) + OfRule(b, rule)
    decreases |b|
  {
    if b == [] {
      assert a + b == a;
    } else {
      var b' := b[..|b| - 1];
      assert (a + b)[..|a + b| - 1] == a + b';
      OfRuleAppend(a, b', rule);
    }
  }

  lemma OfRuleSingle(vs: seq<Violation>, rule: Rule)
    requires |vs| <= 1
    ensures OfRule(vs, rule) == if vs != [] && vs[0].rule == rule then vs else []
  {
    if vs != [] {
      assert vs[..0] == [];
    }
  }

  /** The rules are monotone. A speed that breaks the speed rule still
      breaks it at any higher speed or under any lower `max_speed`. A
      distance that breaks the distance rule still breaks it at any smaller
      distance or under any larger `min_distance`. A brake count that
      breaks the brake rule still breaks it with fewer brake tests or a
      larger requirement. */
  lemma RulesMonotone(rules: Rules, data: Fields, now: string, speed: real, distance: real, brakes: int, stricter: Rules)
    requires MaxSpeed in rules ==> MaxSpeed in stricter && stricter[MaxSpeed] <= rules[MaxSpeed]
    requires MinDistance in rules ==> MinDistance in stricter && stricter[MinDistance] >= rules[MinDistance]
    requires RequiredBrakeTests in rules ==>
      RequiredBrakeTests in stricter && stricter[RequiredBrakeTests] >= rules[RequiredBrakeTests]
    ensures SpeedViolations(rules, data, now) != [] && speed >= SpeedViolations(rules, data, now)[0].observed
      ==> SpeedViolations(stricter, data[SpeedKey := VFloat(speed)], now) != []
    ensures DistanceViolations(rules, data, now) != [] && distance <= DistanceViolations(rules, data, now)[0].observed
      ==> DistanceViolations(stricter, data[DistanceKey := VFloat(distance)], now) != []
    ensures BrakeViolations(rules, data, now) != [] && brakes as real <= BrakeViolations(rules, data, now)[0].observed
      ==> BrakeViolations(stricter, data[BrakeKey := VInt(brakes)], now) != []
  {
  }

  /** And conversely: a compliant speed stays compliant at any lower speed
      or under any higher `max_speed`, and likewise for distance and brake
      tests. */
  lemma CompliantMonotone(rules: Rules, data: Fields, now: string, speed: real, distance: real, brakes: int, looser: Rules)
    requires MaxSpeed in looser ==> MaxSpeed in rules && looser[MaxSpeed] >= rules[MaxSpeed]
    requires MinDistance in looser ==> MinDistance in rules && looser[MinDistance] <= rules[MinDistance]
    requires RequiredBrakeTests in looser ==>
      RequiredBrakeTests in rules && looser[RequiredBrakeTests] <= rules[RequiredBrakeTests]
    requires SpeedKey in data && AsNumber(data[SpeedKey]).Some? && speed <= AsNumber(data[SpeedKey]).value
    requires DistanceKey in data && AsNumber(data[DistanceKey]).Some? && distance >= AsNumber(data[DistanceKey]).value
    requires BrakeKey in data && AsInt(data[BrakeKey]).Some? && brakes >= AsInt(data[BrakeKey]).value
    ensures SpeedViolations(rules, data, now) == [] ==> SpeedViolations(looser, data[SpeedKey := VFloat(speed)], now) == []
    ensures DistanceViolations(rules, data, now) == [] ==> DistanceViolations(looser, data[DistanceKey := VFloat(distance)], now) == []
    ensures BrakeViolations(rules, data, now) == [] ==> BrakeViolations(looser, data[BrakeKey := VInt(brakes)], now) == []
  {
  }

  /** Changing the sample or the rules away from one rule's own key and
      threshold leaves that rule's outcome as it was. */
  lemma RulesIndependent(rules1: Rules, data1: Fields, rules2: Rules, data2: Fields, now: string)
    ensures Get(data1, SpeedKey) == Get(data2, SpeedKey) && Threshold(rules1, MaxSpeed) == Threshold(rules2, MaxSpeed)
      ==> SpeedViolations(rules1, data1, now) == SpeedViolations(rules2, data2, now)
    ensures Get(data1, DistanceKey) == Get(data2, DistanceKey) && Threshold(rules1, MinDistance) == Threshold(rules2, MinDistance)
      ==> DistanceViolations(rules1, data1, now) == DistanceViolations(rules2, data2, now)
    ensures Get(data1, BrakeKey) == Get(data2, BrakeKey) && Threshold(rules1, RequiredBrakeTests) == Threshold(rules2, RequiredBrakeTests)
      ==> BrakeViolations(rules1, data1, now) == BrakeViolations(rules2, data2, now)
  {
  }

  /** `rules.get(rule)`. */
  function Threshold(rules: Rules, rule: Rule): (r: Option<real>)
    ensures r.Some? <==> rule in rules
  {
    if rule in rules then Some(rules[rule]) else None
  }

  /** A sample with none of the three keys is compliant whatever the rules;
      so is any sample against no rules. */
  lemma NothingToCheck(rules: Rules, data: Fields, now: string)
    requires (SpeedKey !in data && DistanceKey !in data && BrakeKey !in data)
      || (MaxSpeed !in rules && MinDistance !in rules && RequiredBrakeTests !in rules)
    ensures Evaluate(rules, data, now) == []
  {
  }

  /** A value exactly at a threshold is compliant: every comparison is
      strict. */
  lemma ThresholdsAreStrict(rules: Rules, now: string)
    requires MaxSpeed in rules && MinDistance in rules && RequiredBrakeTests in rules
    requires rules[RequiredBrakeTests].Floor as real == rules[RequiredBrakeTests]
    ensures Evaluate(rules, map[SpeedKey := VFloat(rules[MaxSpeed]),
                                DistanceKey := VFloat(rules[MinDistance]),
                                BrakeKey := VInt(rules[RequiredBrakeTests].Floor)], now) == []
  {
  }

  /** A contract: a name, its thresholds and the log of every violation it
      has found. */
  class SmartContract {
    const name: string
    var rules: Rules
    var violations: seq<ViolationRecord>

    constructor (name: string, rules: Rules)
      ensures this.name == name && this.rules == rules && violations == []
    {
      this.name := name;
      this.rules := rules;
      violations := [];
    }

    /** Checks one sample: the result lists the violations found and is
        compliant exactly when there are none; each violation is appended
        to the log. */
    method CheckCompliance(data: Fields, now: string) returns (result: CheckResult)
      modifies this`violations
      ensures result.violations == Evaluate(rules, data, now)
      ensures result.compliant <==> result.violations == []
      ensures result.checkedAt == now
      ensures violations == old(violations) + Records(name, result.violations, data, now)
    {
      var found: seq<Violation> := [];
      ghost var speedFound, distanceFound := SpeedViolations(rules, data, now), DistanceViolations(rules, data, now);
      if SpeedKey in data && AsNumber(data[SpeedKey]).Some? {
        var speed := AsNumber(data[SpeedKey]).value;
        if MaxSpeed in rules && speed > rules[MaxSpeed] {
          found := found + [Violation(MaxSpeed, High, speed, rules[MaxSpeed], now)];
        }
      }
      assert found == speedFound;
      if DistanceKey in data && AsNumber(data[DistanceKey]).Some? {
        var distance := AsNumber(data[DistanceKey]).value;
        if MinDistance in rules && distance < rules[MinDistance] {
          found := found + [Violation(MinDistance, Critical, distance, rules[MinDistance], now)];
        }
      }
      assert found == speedFound + distanceFound;
      if BrakeKey in data && AsInt(data[BrakeKey]).Some? {
        var count := AsInt(data[BrakeKey]).value;
        if RequiredBrakeTests in rules && (count as real) < rules[RequiredBrakeTests] {
          found := found + [Violation(RequiredBrakeTests, Medium, count as real, rules[RequiredBrakeTests], now)];
        }
      }
      assert found == Evaluate(rules, data, now);
      result := CheckResult(|found| == 0, found, now);
      for i := 0 to |found|
        invariant violations == old(violations) + Records(name, found[..i], data, now)
      {
        RecordsSnoc(name, found, i, data, now);
        violations := violations + [ViolationRecord(name, found[i], data, now)];
      }
      assert found[..|found|] == found;
    }
  }
}
