/** The alert rule engine: conditions, notification cooldown, and the cooldown-free
    evaluation that feeds incidents. */
module AlertRules {
  import opened Civil
  import opened Text
  import opened AlertMessages

  /** A condition's value, decoded from JSON or set in code; `Other` is any further type. */
  datatype Value = Str(s: string) | Bool(b: bool) | Float(r: real) | Int(n: int) | Other

  datatype Operator = Equals | NotEquals | GreaterThan | LessThan | Unrecognised

  datatype Condition = Condition(field: string, op: Operator, value: Value)

  datatype Rule = Rule(
    id: string,
    name: string,
    description: string,
    severity: string,
    enabled: bool,
    checkIDs: seq<string>,
    conditions: seq<Condition>,
    cooldownMinutes: int)

  datatype CheckResult = CheckResult(
    checkID: string,
    name: string,
    checkType: string,
    server: string,
    status: string,
    healthy: bool,
    message: string,
    durationMs: int,
    startedAt: Instant,
    metrics: map<string, real>)

  datatype Alert = Alert(
    ruleID: string,
    ruleName: string,
    checkID: string,
    checkName: string,
    severity: string,
    message: string,
    triggeredAt: Instant)

  // ----- Conditions

  predicate CompareStrings(actual: string, op: Operator, expected: Value) {
    expected.Str? && match op
                     case Equals => actual == expected.s
                     case NotEquals => actual != expected.s
                     case _ => false
  }

  predicate CompareBool(actual: bool, op: Operator, expected: Value) {
    expected.Bool? && match op
                      case Equals => actual == expected.b
                      case NotEquals => actual != expected.b
                      case _ => false
  }

  /** Conversion of a float to an integer drops the fraction. */
  function Truncate(r: real): int {
    if r >= 0.0 then r.Floor else -(-r).Floor
  }

  predicate CompareNumbers(actual: real, op: Operator, expected: real) {
    match op
    case Equals => actual == expected
    case NotEquals => actual != expected
    case GreaterThan => actual > expected
    case LessThan => actual < expected
    case Unrecognised => false
  }

  predicate CompareInt(actual: int, op: Operator, expected: Value) {
    match expected
    case Float(r) => CompareNumbers(actual as real, op, Truncate(r) as real)
    case Int(n) => CompareNumbers(actual as real, op, n as real)
    case _ => false
  }

  predicate CompareFloat(actual: real, op: Operator, expected: Value) {
    match expected
    case Float(r) => CompareNumbers(actual, op, r)
    case Int(n) => CompareNumbers(actual, op, n as real)
    case _ => false
  }

  predicate EvaluateCondition(result: CheckResult, c: Condition) {
    match c.field
    case "status" => CompareStrings(result.status, c.op, c.value)
    case "healthy" => CompareBool(result.healthy, c.op, c.value)
    case "durationMs" => CompareInt(result.durationMs, c.op, c.value)
    case _ => c.field in result.metrics && CompareFloat(result.metrics[c.field], c.op, c.value)
  }

  /** All conditions hold; a rule without conditions never triggers. */
  predicate ConditionsHold(result: CheckResult, conditions: seq<Condition>) {
    conditions != [] && forall c :: c in conditions ==> EvaluateCondition(result, c)
  }

  method EvaluateConditions(result: CheckResult, conditions: seq<Condition>) returns (r: bool)
    ensures r <==> conditions != [] && forall c :: c in conditions ==> EvaluateCondition(result, c)
  {
    if |conditions| == 0 {
      return false;
    }
    for i := 0 to |conditions|
      invariant forall c :: c in conditions[..i] ==> EvaluateCondition(result, c)
    {
      if !EvaluateCondition(result, conditions[i]) {
        return false;
      }
    }
    return true;
  }

  predicate AppliesTo(rule: Rule, checkID: string) {
    rule.checkIDs == [] || checkID in rule.checkIDs
  }

  method CheckMatchesRule(result: CheckResult, rule: Rule) returns (r: bool)
    ensures r <==> rule.checkIDs == [] || result.checkID in rule.checkIDs
  {
    if |rule.checkIDs| == 0 {
      return true;
    }
    for i := 0 to |rule.checkIDs|
      invariant result.checkID !in rule.checkIDs[..i]
    {
      if rule.checkIDs[i] == result.checkID { return true; }
    }
    return false;
  }

  /** The rule fires on the result, cooldown aside. */
  predicate Matches(rule: Rule, result: CheckResult) {
    rule.enabled && AppliesTo(rule, result.checkID) && ConditionsHold(result, rule.conditions)
  }

  function BuildAlert(rule: Rule, result: CheckResult, now: Instant): Alert {
    var message := BuildAlertMessage(
      Fields(rule.name, result.name, result.status, result.message, result.durationMs, rule.description));
    Alert(rule.id, rule.name, result.checkID, result.name, rule.severity, message, now)
  }

  // ----- What a matching rule says about the result

  /** The number a condition compares with, if it is one. */
  predicate IsNumber(v: Value, x: real) {
    v == Float(x) || (v.Int? && v.n as real == x)
  }

  predicate NumbersRelate(x: real, op: Operator, y: real) {
    || (op == Equals && x == y) || (op == NotEquals && x != y)
    || (op == GreaterThan && x > y) || (op == LessThan && x < y)
  }

  /** `n` is `x` without its fraction. */
  predicate WholePart(x: real, n: int) {
    if x >= 0.0 then n as real <= x < n as real + 1.0 && n >= 0 else n as real - 1.0 < x <= n as real && n <= 0
  }

  /** What a condition asks of a result: a text or flag to be, or not to be, the given one; the
      duration, or a metric the result has, to be in the given order with a number.  Durations
      are compared with the whole part of a number. */
  ghost predicate Asks(result: CheckResult, c: Condition) {
    match c.field
    case "status" => c.value.Str? && ((c.op == Equals && result.status == c.value.s) || (c.op == NotEquals && result.status != c.value.s))
    case "healthy" => c.value.Bool? && ((c.op == Equals && result.healthy == c.value.b) || (c.op == NotEquals && result.healthy != c.value.b))
    case "durationMs" =>
      exists y, n :: IsNumber(c.value, y) && WholePart(y, n) && NumbersRelate(result.durationMs as real, c.op, n as real)
    case _ =>
      && c.field in result.metrics
      && exists y :: IsNumber(c.value, y) && NumbersRelate(result.metrics[c.field], c.op, y)
  }

  lemma TruncateIsWholePart(x: real)
    ensures WholePart(x, Truncate(x))
    ensures forall n :: WholePart(x, n) ==> n == Truncate(x)
  {
    if x < 0.0 {
      assert Truncate(x) as real == -((-x).Floor as real);
    }
  }

  lemma DurationAsks(actual: int, op: Operator, v: Value)
    ensures CompareInt(actual, op, v) <==>
      exists y, n :: IsNumber(v, y) && WholePart(y, n) && NumbersRelate(actual as real, op, n as real)
  {
    hide WholePart, Truncate;
    match v
    case Float(y) =>
      TruncateIsWholePart(y);
      assert IsNumber(v, y) && WholePart(y, Truncate(y));
    case Int(n) =>
      TruncateIsWholePart(n as real);
      WholeOfWhole(n);
      assert IsNumber(v, n as real) && WholePart(n as real, n);
    case _ =>
  }

  lemma WholeOfWhole(n: int)
    ensures WholePart(n as real, n)
  {
  }

  lemma MetricAsks(actual: real, op: Operator, v: Value)
    ensures CompareFloat(actual, op, v) <==> exists y :: IsNumber(v, y) && NumbersRelate(actual, op, y)
  {
    match v
    case Float(y) => assert IsNumber(v, y);
    case Int(n) => assert IsNumber(v, n as real);
    case _ =>
  }

  lemma ConditionAsks(result: CheckResult, c: Condition)
    ensures EvaluateCondition(result, c) <==> Asks(result, c)
  {
    hide CompareInt, CompareFloat, IsNumber, WholePart, NumbersRelate;
    DurationAsks(result.durationMs, c.op, c.value);
    if c.field in result.metrics {
      MetricAsks(result.metrics[c.field], c.op, c.value);
    }
  }

  /** A rule matches a result exactly when it is enabled, names no check or this one, has
      conditions, and the result is what each of them asks. */
  lemma MatchMeans(rule: Rule, result: CheckResult)
    ensures Matches(rule, result) <==>
      && rule.enabled
      && (rule.checkIDs == [] || result.checkID in rule.checkIDs)
      && rule.conditions != []
      && forall c :: c in rule.conditions ==> Asks(result, c)
  {
    hide EvaluateCondition, Asks;
    forall c
      ensures EvaluateCondition(result, c) <==> Asks(result, c)
    {
      ConditionAsks(result, c);
    }
  }

  /** An alert takes its names from the rule and the result and its severity from the rule; its
      text reads back as what it was made of, if nothing contains the separator. */
  lemma AlertSays(rule: Rule, result: CheckResult, now: Instant)
    ensures var a := BuildAlert(rule, result, now);
      && a.ruleID == rule.id && a.ruleName == rule.name && a.severity == rule.severity
      && a.checkID == result.checkID && a.checkName == result.name && a.triggeredAt == now
    ensures var f := Fields(rule.name, result.name, result.status, result.message, result.durationMs, rule.description);
      PipeFree(f) ==> ParseAll(Split(BuildAlert(rule, result, now).message, '|')) == Expected(f)
  {
    hide ParseAll, Split, Expected, BuildAlertMessage, PipeFree;
    RoundTripIffPipeFree(Fields(rule.name, result.name, result.status, result.message, result.durationMs, rule.description));
  }

  // ----- Evaluation, one (result, rule) pair after the other

  /** `time.Duration(minutes) * time.Minute`, in 64 bits. */
  function Cooldown(rule: Rule): int {
    Wrap64(60_000_000_000 * rule.cooldownMinutes)
  }

  /** A rule meets a result; `notify` is set for Evaluate, clear for EvaluateForIncidents. */
  datatype Visit = Visit(rule: Rule, result: CheckResult, notify: bool, now: Instant)

  function KeyOf(v: Visit): string {
    PairKey(v.rule.id, v.result.checkID)
  }

  type Triggered = map<string, Instant>

  predicate Cooling(last: Triggered, v: Visit) {
    v.notify && KeyOf(v) in last && Sub(v.now, last[KeyOf(v)]) < Cooldown(v.rule)
  }

  predicate Fires(last: Triggered, v: Visit) {
    Matches(v.rule, v.result) && !Cooling(last, v)
  }

  function Visited(last: Triggered, v: Visit): Triggered {
    if v.notify && Fires(last, v) then last[KeyOf(v) := v.now] else last
  }

  function LastAfter(last: Triggered, visits: seq<Visit>): Triggered {
    if visits == [] then last
    else Visited(LastAfter(last, visits[..|visits| - 1]), visits[|visits| - 1])
  }

  function AlertsOf(last: Triggered, visits: seq<Visit>): seq<Alert> {
    if visits == [] then []
    else
      var front, v := visits[..|visits| - 1], visits[|visits| - 1];
      if Fires(LastAfter(last, front), v) then AlertsOf(last, front) + [BuildAlert(v.rule, v.result, v.now)]
      else AlertsOf(last, front)
  }

  /** One result against the rules, in rule order. */
  function Row(rules: seq<Rule>, result: CheckResult, notify: bool, now: Instant): seq<Visit> {
    seq(|rules|, i requires 0 <= i < |rules| => Visit(rules[i], result, notify, now))
  }

  /** A whole call: result by result. */
  function CallVisits(rules: seq<Rule>, results: seq<CheckResult>, notify: bool, now: Instant): seq<Visit> {
    if results == [] then []
    else CallVisits(rules, results[..|results| - 1], notify, now) + Row(rules, results[|results| - 1], notify, now)
  }

  lemma {:induction false} VisitsNumber(rules: seq<Rule>, results: seq<CheckResult>, notify: bool, now: Instant)
    ensures |CallVisits(rules, results, notify, now)| == |results| * |rules|
  {
    if results != [] {
      hide Row;
      var n := |results| - 1;
      VisitsNumber(rules, results[..n], notify, now);
      RowNumber(rules, results[n], notify, now);
      assert n * |rules| + |rules| == (n + 1) * |rules|;
    }
  }

  lemma RowNumber(rules: seq<Rule>, result: CheckResult, notify: bool, now: Instant)
    ensures |Row(rules, result, notify, now)| == |rules|
  {
  }

  lemma PositionBefore(i: nat, n: nat, j: nat, width: nat)
    requires i < n && j < width
    ensures i * width + j < n * width
  {
    assert (i + 1) * width <= n * width;
  }

  /** The pairs come result by result, and for each result rule by rule. */
  lemma {:induction false} VisitsInOrder(rules: seq<Rule>, results: seq<CheckResult>, notify: bool, now: Instant, i: nat, j: nat)
    requires i < |results| && j < |rules|
    ensures var visits := CallVisits(rules, results, notify, now);
      i * |rules| + j < |visits| && visits[i * |rules| + j] == Visit(rules[j], results[i], notify, now)
  {
    var n := |results| - 1;
    VisitsNumber(rules, results, notify, now);
    VisitsNumber(rules, results[..n], notify, now);
    PositionBefore(i, n + 1, j, |rules|);
    if i < n {
      VisitsInOrder(rules, results[..n], notify, now, i, j);
    }
  }

  lemma VisitsSnoc(last: Triggered, visits: seq<Visit>, v: Visit)
    ensures LastAfter(last, visits + [v]) == Visited(LastAfter(last, visits), v)
    ensures AlertsOf(last, visits + [v]) ==
      if Fires(LastAfter(last, visits), v) then AlertsOf(last, visits) + [BuildAlert(v.rule, v.result, v.now)]
      else AlertsOf(last, visits)
  {
    assert (visits + [v])[..|visits|] == visits;
  }

  class AlertRuleEngine {
    var rules: seq<Rule>
    var lastTriggered: Triggered

    constructor (rules: seq<Rule>)
      ensures this.rules == rules && lastTriggered == map[]
    {
      this.rules := rules;
      lastTriggered := map[];
    }

    method Evaluate(results: seq<CheckResult>, notify: bool, now: Instant) returns (alerts: seq<Alert>)
      modifies this`lastTriggered
      ensures lastTriggered == LastAfter(old(lastTriggered), CallVisits(rules, results, notify, now))
      ensures alerts == AlertsOf(old(lastTriggered), CallVisits(rules, results, notify, now))
    {
      hide BuildAlert, EvaluateCondition, Cooldown, Row, AlertsOf, LastAfter, Sub, PairKey;
      NothingVisited(lastTriggered);
      alerts := [];
      ghost var done: seq<Visit> := [];
      for i := 0 to |results|
        invariant done == CallVisits(rules, results[..i], notify, now)
        invariant lastTriggered == LastAfter(old(lastTriggered), done)
        invariant alerts == AlertsOf(old(lastTriggered), done)
      {
        ghost var before := done;
        RowEnds(rules, results[i], notify, now, 0);
        for j := 0 to |rules|
          invariant done == before + Row(rules[..j], results[i], notify, now)
          invariant lastTriggered == LastAfter(old(lastTriggered), done)
          invariant alerts == AlertsOf(old(lastTriggered), done)
        {
          RowEnds(rules, results[i], notify, now, j);
          ghost var v := Visit(rules[j], results[i], notify, now);
          VisitsSnoc(old(lastTriggered), done, v);
          done := done + [v];
          assert done == before + (Row(rules[..j], results[i], notify, now) + [v]);
          var rule, result := rules[j], results[i];
          if !rule.enabled { continue; }
          var applies := CheckMatchesRule(result, rule);
          if !applies { continue; }
          var key := PairKey(rule.id, result.checkID);
          if notify && key in lastTriggered {
            if Sub(now, lastTriggered[key]) < Cooldown(rule) { continue; }
          }
          var matches := EvaluateConditions(result, rule.conditions);
          if matches {
            alerts := alerts + [BuildAlert(rule, result, now)];
            if notify {
              lastTriggered := lastTriggered[key := now];
            }
          }
        }
        RowEnds(rules, results[i], notify, now, |rules|);
        assert results[..i + 1][..i] == results[..i];
      }
      assert results[..|results|] == results;
    }
  }

  lemma NothingVisited(last: Triggered)
    ensures LastAfter(last, []) == last && AlertsOf(last, []) == []
  {
  }

  lemma RowEnds(rules: seq<Rule>, result: CheckResult, notify: bool, now: Instant, j: nat)
    requires j <= |rules|
    ensures j == 0 ==> Row(rules[..j], result, notify, now) == []
    ensures j == |rules| ==> Row(rules[..j], result, notify, now) == Row(rules, result, notify, now)
    ensures j < |rules| ==>
      Row(rules[..j + 1], result, notify, now) ==
        Row(rules[..j], result, notify, now) + [Visit(rules[j], result, notify, now)]
  {
    if j == |rules| {
      assert rules[..j] == rules;
    }
  }

  // ----- Runs of visits

  /** The clock never goes back. */
  predicate Timed(visits: seq<Visit>) {
    forall i, j :: 0 <= i < j < |visits| ==> visits[i].now <= visits[j].now
  }

  /** Visit `i` sends a notification. */
  predicate Notified(visits: seq<Visit>, i: int) {
    0 <= i < |visits| && visits[i].notify && Fires(LastAfter(map[], visits[..i]), visits[i])
  }

  /** Visit `i` sent a notification for `key` within `cooldown` before `now`. */
  predicate Recent(visits: seq<Visit>, i: int, key: string, now: Instant, cooldown: int) {
    Notified(visits, i) && KeyOf(visits[i]) == key && Sub(now, visits[i].now) < cooldown
  }

  lemma NotifiedPrefix(visits: seq<Visit>, n: nat, i: int)
    requires i < n <= |visits|
    ensures Notified(visits[..n], i) <==> Notified(visits, i)
  {
    if 0 <= i {
      assert visits[..n][..i] == visits[..i];
    }
  }

  /** The last visit is remembered exactly if it notifies. */
  lemma LastVisitRemembered(visits: seq<Visit>)
    requires visits != []
    ensures var n := |visits| - 1;
      LastAfter(map[], visits) ==
        if Notified(visits, n) then LastAfter(map[], visits[..n])[KeyOf(visits[n]) := visits[n].now]
        else LastAfter(map[], visits[..n])
  {
    hide Fires, KeyOf;
  }

  /** A notification under the key was sent at `t`. */
  ghost predicate NotifiedAt(visits: seq<Visit>, key: string, t: Instant) {
    exists i :: Notified(visits, i) && KeyOf(visits[i]) == key && visits[i].now == t
  }

  /** None was sent after `t`. */
  ghost predicate NoneLater(visits: seq<Visit>, key: string, t: Instant) {
    forall i :: Notified(visits, i) && KeyOf(visits[i]) == key ==> visits[i].now <= t
  }

  ghost predicate NeverNotified(visits: seq<Visit>, key: string) {
    forall i :: Notified(visits, i) ==> KeyOf(visits[i]) != key
  }

  predicate NotifiedLast(visits: seq<Visit>, key: string) {
    visits != [] && Notified(visits, |visits| - 1) && KeyOf(visits[|visits| - 1]) == key
  }

  lemma FrontNotified(visits: seq<Visit>, key: string, t: Instant)
    requires visits != [] && Timed(visits)
    ensures var front := visits[..|visits| - 1];
      && (NotifiedAt(front, key, t) ==> NotifiedAt(visits, key, t))
      && (NoneLater(front, key, t) && !NotifiedLast(visits, key) ==> NoneLater(visits, key, t))
      && (NeverNotified(front, key) && !NotifiedLast(visits, key) ==> NeverNotified(visits, key))
  {
    var n := |visits| - 1;
    forall i | 0 <= i < n
      ensures Notified(visits[..n], i) <==> Notified(visits, i)
    {
      NotifiedPrefix(visits, n, i);
    }
    hide Fires, LastAfter, KeyOf;
  }

  lemma LastNotified(visits: seq<Visit>, key: string)
    requires NotifiedLast(visits, key) && Timed(visits)
    ensures NotifiedAt(visits, key, visits[|visits| - 1].now) && NoneLater(visits, key, visits[|visits| - 1].now)
  {
    hide Fires, LastAfter, KeyOf;
    assert Notified(visits, |visits| - 1);
  }

  /** What is remembered under a key is the time of the last notification for it. */
  lemma {:induction false} RememberedIsLast(visits: seq<Visit>, key: string)
    requires Timed(visits)
    ensures var last := LastAfter(map[], visits);
      if key in last then NotifiedAt(visits, key, last[key]) && NoneLater(visits, key, last[key])
      else NeverNotified(visits, key)
  {
    if visits != [] {
      var front := visits[..|visits| - 1];
      RememberedIsLast(front, key);
      LastVisitRemembered(visits);
      hide LastAfter, Notified, KeyOf, NotifiedAt, NoneLater, NeverNotified, Timed;
      var last := LastAfter(map[], visits);
      if NotifiedLast(visits, key) {
        LastNotified(visits, key);
      } else {
        FrontNotified(visits, key, if key in last then last[key] else 0);
      }
    }
  }

  lemma LaterIsFurther(now: Instant, t: Instant, u: Instant)
    requires t <= u <= now
    ensures Sub(now, u) <= Sub(now, t)
  {
  }

  /** A matching result is suppressed exactly when a notification under the same key was sent
      less than the rule's cooldown before. */
  lemma SuppressedIffRecent(visits: seq<Visit>, j: nat)
    requires Timed(visits) && j < |visits| && visits[j].notify && Matches(visits[j].rule, visits[j].result)
    ensures !Notified(visits, j) <==>
      exists i :: i < j && Recent(visits, i, KeyOf(visits[j]), visits[j].now, Cooldown(visits[j].rule))
  {
    hide Cooldown, Matches;
    var v := visits[j];
    var front := visits[..j];
    var last := LastAfter(map[], front);
    var key := KeyOf(v);
    RememberedIsLast(front, key);
    forall i | i < j
      ensures Notified(front, i) <==> Notified(visits, i)
    {
      NotifiedPrefix(visits, j, i);
    }
    if !Notified(visits, j) {
      assert Cooling(last, v);
      var i :| Notified(front, i) && KeyOf(front[i]) == key && front[i].now == last[key];
      assert Recent(visits, i, key, v.now, Cooldown(v.rule));
    } else if i :| i < j && Recent(visits, i, key, v.now, Cooldown(v.rule)) {
      assert Notified(front, i) && KeyOf(front[i]) == key;
      LaterIsFurther(v.now, front[i].now, last[key]);
    }
  }

  /** Two notifications of one rule for one check are at least its cooldown apart. */
  lemma NotificationsAreSpaced(visits: seq<Visit>, i: nat, j: nat)
    requires Timed(visits) && i < j && Notified(visits, i) && Notified(visits, j)
    requires visits[i].rule == visits[j].rule && visits[i].result.checkID == visits[j].result.checkID
    ensures visits[j].now - visits[i].now >= Cooldown(visits[j].rule)
  {
    hide Cooldown, Notified;
    assert visits[j].notify && Matches(visits[j].rule, visits[j].result) && j < |visits| by {
      NotifiedMatches(visits, j);
    }
    SuppressedIffRecent(visits, j);
    assert !Recent(visits, i, KeyOf(visits[j]), visits[j].now, Cooldown(visits[j].rule));
    CooldownFits(visits[j].rule);
  }

  lemma CooldownFits(rule: Rule)
    ensures MIN_INT64 <= Cooldown(rule) <= MAX_INT64
  {
  }

  lemma NotifiedMatches(visits: seq<Visit>, j: int)
    requires Notified(visits, j)
    ensures 0 <= j < |visits| && visits[j].notify && Matches(visits[j].rule, visits[j].result)
  {
  }

  /** The largest cooldown, in minutes, that fits 64 bits in nanoseconds: some 292 years. */
  const MAX_MINUTES := 153_722_867

  /** A cooldown is the configured number of minutes exactly up to that. */
  lemma CooldownInMinutesIff(rule: Rule)
    ensures Cooldown(rule) == 60_000_000_000 * rule.cooldownMinutes <==>
      -MAX_MINUTES <= rule.cooldownMinutes <= MAX_MINUTES
  {
    CooldownFits(rule);
  }

  /** Distinct colon-free IDs: a suppressed result had the same rule fire for the same check
      less than the cooldown before. */
  lemma SuppressedBySameRule(visits: seq<Visit>, j: nat) returns (i: nat)
    requires Timed(visits) && j < |visits| && visits[j].notify && Matches(visits[j].rule, visits[j].result)
    requires forall k :: 0 <= k < |visits| ==> ColonFree(visits[k].rule.id)
    requires forall k, l :: 0 <= k < |visits| && 0 <= l < |visits| && visits[k].rule.id == visits[l].rule.id ==>
      visits[k].rule == visits[l].rule
    requires !Notified(visits, j)
    ensures i < j && Notified(visits, i)
    ensures visits[i].rule == visits[j].rule && visits[i].result.checkID == visits[j].result.checkID
    ensures Sub(visits[j].now, visits[i].now) < Cooldown(visits[j].rule)
  {
    hide Cooldown, Matches;
    SuppressedIffRecent(visits, j);
    var k :| k < j && Recent(visits, k, KeyOf(visits[j]), visits[j].now, Cooldown(visits[j].rule));
    i := k;
    KeysAreInjective(visits[i].rule.id, visits[i].result.checkID, visits[j].rule.id, visits[j].result.checkID);
  }

  // ----- Incident evaluation

  lemma {:induction false} CallVisitsCover(rules: seq<Rule>, results: seq<CheckResult>, notify: bool, now: Instant, v: Visit)
    ensures v in CallVisits(rules, results, notify, now) <==>
      v.rule in rules && v.result in results && v.notify == notify && v.now == now
  {
    if results != [] {
      var front, last := results[..|results| - 1], results[|results| - 1];
      CallVisitsCover(rules, front, notify, now, v);
      assert results == front + [last];
      if v.rule in rules && v.result == last && v.notify == notify && v.now == now {
        var i :| 0 <= i < |rules| && rules[i] == v.rule;
        assert Row(rules, last, notify, now)[i] == v;
      }
    }
  }

  /** What the last visit of an incident evaluation adds. */
  lemma IncidentVisitRaises(last: Triggered, visits: seq<Visit>)
    requires visits != [] && !visits[|visits| - 1].notify
    ensures var front, v := visits[..|visits| - 1], visits[|visits| - 1];
      AlertsOf(last, visits) ==
        if Matches(v.rule, v.result) then AlertsOf(last, front) + [BuildAlert(v.rule, v.result, v.now)]
        else AlertsOf(last, front)
  {
    hide Matches, BuildAlert;
  }

  lemma {:induction false} AlertsAreMatches(last: Triggered, visits: seq<Visit>, a: Alert)
    requires forall v :: v in visits ==> !v.notify
    ensures a in AlertsOf(last, visits) <==>
      exists v :: v in visits && Matches(v.rule, v.result) && a == BuildAlert(v.rule, v.result, v.now)
  {
    if visits != [] {
      hide *;
      var front, v := visits[..|visits| - 1], visits[|visits| - 1];
      assert visits == front + [v];
      assert forall w :: w in visits <==> w in front || w == v;
      IncidentVisitRaises(last, visits);
      AlertsAreMatches(last, front, a);
    } else {
      NothingVisited(last);
    }
  }

  /** What was notified before neither shows in EvaluateForIncidents nor is changed by it. */
  lemma {:induction false} IncidentVisitsIgnoreCooldown(last: Triggered, last': Triggered, visits: seq<Visit>)
    requires forall v :: v in visits ==> !v.notify
    ensures LastAfter(last, visits) == last && AlertsOf(last, visits) == AlertsOf(last', visits)
    decreases |visits|
  {
    if visits != [] {
      hide Matches, BuildAlert;
      IncidentVisitsIgnoreCooldown(last, last', visits[..|visits| - 1]);
      IncidentVisitsIgnoreCooldown(last', last, visits[..|visits| - 1]);
      assert visits[|visits| - 1] in visits;
    }
  }

  lemma IncidentCallsIgnoreCooldown(last: Triggered, last': Triggered, rules: seq<Rule>, results: seq<CheckResult>, now: Instant)
    ensures var visits := CallVisits(rules, results, false, now);
      LastAfter(last, visits) == last && AlertsOf(last, visits) == AlertsOf(last', visits)
  {
    hide LastAfter, AlertsOf, CallVisits;
    var visits := CallVisits(rules, results, false, now);
    forall v | v in visits
      ensures !v.notify
    {
      CallVisitsCover(rules, results, false, now, v);
    }
    IncidentVisitsIgnoreCooldown(last, last', visits);
  }

  /** EvaluateForIncidents raises an alert for every result and every rule that matches it,
      whatever was notified before. */
  lemma IncidentAlertsAreMatches(last: Triggered, rules: seq<Rule>, results: seq<CheckResult>, now: Instant, a: Alert)
    ensures a in AlertsOf(last, CallVisits(rules, results, false, now)) <==>
      exists rule, result ::
        rule in rules && result in results && Matches(rule, result) && a == BuildAlert(rule, result, now)
  {
    hide Matches, BuildAlert, CallVisits, AlertsOf;
    var visits := CallVisits(rules, results, false, now);
    forall v
      ensures v in visits <==> v.rule in rules && v.result in results && !v.notify && v.now == now
    {
      CallVisitsCover(rules, results, false, now, v);
    }
    AlertsAreMatches(last, visits, a);
    if rule, result :| rule in rules && result in results && Matches(rule, result) && a == BuildAlert(rule, result, now) {
      assert Visit(rule, result, false, now) in visits;
    }
  }

  // ----- Incident evaluation does not disturb notification

  function NotifyOnly(visits: seq<Visit>): seq<Visit> {
    if visits == [] then []
    else
      var before := NotifyOnly(visits[..|visits| - 1]);
      if visits[|visits| - 1].notify then before + [visits[|visits| - 1]] else before
  }

  /** The notifications of a run. */
  function NotifiedAlerts(last: Triggered, visits: seq<Visit>): seq<Alert> {
    if visits == [] then []
    else
      var front, v := visits[..|visits| - 1], visits[|visits| - 1];
      var before := NotifiedAlerts(last, front);
      if v.notify && Fires(LastAfter(last, front), v) then before + [BuildAlert(v.rule, v.result, v.now)] else before
  }

  /** Dropping every EvaluateForIncidents visit changes neither the remembered times nor what
      Evaluate returns. */
  lemma {:induction false} IncidentVisitsAreInvisible(last: Triggered, visits: seq<Visit>)
    ensures LastAfter(last, NotifyOnly(visits)) == LastAfter(last, visits)
    ensures AlertsOf(last, NotifyOnly(visits)) == NotifiedAlerts(last, visits)
  {
    if visits != [] {
      hide Matches, BuildAlert, Cooling;
      var front, v := visits[..|visits| - 1], visits[|visits| - 1];
      IncidentVisitsAreInvisible(last, front);
      if v.notify {
        VisitsSnoc(last, NotifyOnly(front), v);
      }
    }
  }

  // ----- Notifications are a subsequence of incident alerts

  predicate Subsequence<T(==)>(xs: seq<T>, ys: seq<T>) {
    if xs == [] then true
    else if ys == [] then false
    else
      || (xs[|xs| - 1] == ys[|ys| - 1] && Subsequence(xs[..|xs| - 1], ys[..|ys| - 1]))
      || Subsequence(xs, ys[..|ys| - 1])
  }

  /** An alert without the time it was raised. */
  datatype Raised = Raised(ruleID: string, checkID: string, severity: string, message: string)

  function Untimed(alerts: seq<Alert>): seq<Raised> {
    seq(|alerts|, i requires 0 <= i < |alerts| =>
      Raised(alerts[i].ruleID, alerts[i].checkID, alerts[i].severity, alerts[i].message))
  }

  /** The same visits, on behalf of the other kind of call at another time. */
  predicate SameInput(vs: seq<Visit>, ws: seq<Visit>) {
    && |vs| == |ws|
    && forall i :: 0 <= i < |vs| ==>
         vs[i].notify && !ws[i].notify && vs[i].rule == ws[i].rule && vs[i].result == ws[i].result
  }

  lemma BuildIgnoresTime(rule: Rule, result: CheckResult, t: Instant, u: Instant)
    ensures Untimed([BuildAlert(rule, result, t)]) == Untimed([BuildAlert(rule, result, u)])
    ensures |Untimed([BuildAlert(rule, result, t)])| == 1
  {
  }

  lemma UntimedSnoc(alerts: seq<Alert>, a: Alert)
    ensures Untimed(alerts + [a]) == Untimed(alerts) + Untimed([a])
  {
  }

  lemma LastVisitRaises(last: Triggered, visits: seq<Visit>)
    requires visits != []
    ensures var front, v := visits[..|visits| - 1], visits[|visits| - 1];
      Untimed(AlertsOf(last, visits)) ==
        if Fires(LastAfter(last, front), v)
        then Untimed(AlertsOf(last, front)) + Untimed([BuildAlert(v.rule, v.result, v.now)])
        else Untimed(AlertsOf(last, front))
  {
    hide Fires, BuildAlert, Untimed, LastAfter;
    var v := visits[|visits| - 1];
    UntimedSnoc(AlertsOf(last, visits[..|visits| - 1]), BuildAlert(v.rule, v.result, v.now));
  }

  lemma {:induction false} NotificationsWithinIncidentAlerts(last: Triggered, last': Triggered, vs: seq<Visit>, ws: seq<Visit>)
    requires SameInput(vs, ws)
    ensures Subsequence(Untimed(AlertsOf(last, vs)), Untimed(AlertsOf(last', ws)))
  {
    if vs != [] {
      hide Matches, BuildAlert, Untimed, Subsequence, AlertsOf, LastAfter;
      var n := |vs| - 1;
      var v, w := vs[n], ws[n];
      NotificationsWithinIncidentAlerts(last, last', vs[..n], ws[..n]);
      BuildIgnoresTime(v.rule, v.result, v.now, w.now);
      LastVisitRaises(last, vs);
      LastVisitRaises(last', ws);
      SubsequenceSnoc(Untimed(AlertsOf(last, vs[..n])), Untimed(AlertsOf(last', ws[..n])),
                      Untimed([BuildAlert(v.rule, v.result, v.now)]));
    } else {
      assert Untimed([]) == [];
    }
  }

  lemma SubsequenceSnoc(xs: seq<Raised>, ys: seq<Raised>, x: seq<Raised>)
    requires Subsequence(xs, ys)
    requires |x| == 1
    ensures Subsequence(xs + x, ys + x) && Subsequence(xs, ys + x)
  {
    assert (xs + x)[..|xs|] == xs && (ys + x)[..|ys|] == ys;
  }

  lemma {:induction false} CallsShareInput(rules: seq<Rule>, results: seq<CheckResult>, t: Instant, u: Instant)
    ensures SameInput(CallVisits(rules, results, true, t), CallVisits(rules, results, false, u))
  {
    if results != [] {
      CallsShareInput(rules, results[..|results| - 1], t, u);
    }
  }

  /** On the same results, what Evaluate raises is a subsequence of what EvaluateForIncidents
      raises, whatever each has seen before. */
  lemma EvaluateWithinIncidents(rules: seq<Rule>, results: seq<CheckResult>, last: Triggered, last': Triggered, t: Instant, u: Instant)
    ensures Subsequence(Untimed(AlertsOf(last, CallVisits(rules, results, true, t))),
                        Untimed(AlertsOf(last', CallVisits(rules, results, false, u))))
  {
    CallsShareInput(rules, results, t, u);
    NotificationsWithinIncidentAlerts(last, last', CallVisits(rules, results, true, t), CallVisits(rules, results, false, u));
  }

  // ----- Runs of calls of both kinds, in any order

  /** A call of Evaluate (notify) or EvaluateForIncidents. */
  datatype Call = Call(results: seq<CheckResult>, notify: bool, now: Instant)

  function VisitsOf(rules: seq<Rule>, c: Call): seq<Visit> {
    CallVisits(rules, c.results, c.notify, c.now)
  }

  /** The engine's `lastTriggered` after the calls, starting with a new engine. */
  function Remembered(rules: seq<Rule>, calls: seq<Call>): Triggered {
    if calls == [] then map[]
    else LastAfter(Remembered(rules, calls[..|calls| - 1]), VisitsOf(rules, calls[|calls| - 1]))
  }

  /** All that the calls of Evaluate among them return. */
  function Sent(rules: seq<Rule>, calls: seq<Call>): seq<Alert> {
    if calls == [] then []
    else
      var front, c := calls[..|calls| - 1], calls[|calls| - 1];
      if c.notify then Sent(rules, front) + AlertsOf(Remembered(rules, front), VisitsOf(rules, c))
      else Sent(rules, front)
  }

  function Visits(rules: seq<Rule>, calls: seq<Call>): seq<Visit> {
    if calls == [] then [] else Visits(rules, calls[..|calls| - 1]) + VisitsOf(rules, calls[|calls| - 1])
  }

  function NotifiedBy(last: Triggered, v: Visit): seq<Alert> {
    if v.notify && Fires(last, v) then [BuildAlert(v.rule, v.result, v.now)] else []
  }

  lemma NotifiedSnoc(last: Triggered, visits: seq<Visit>, v: Visit)
    ensures NotifiedAlerts(last, visits + [v]) == NotifiedAlerts(last, visits) + NotifiedBy(LastAfter(last, visits), v)
  {
    hide Fires, BuildAlert, LastAfter;
    assert (visits + [v])[..|visits|] == visits;
  }

  lemma Regroup(xs: seq<Alert>, ys: seq<Alert>, zs: seq<Alert>)
    ensures xs + ys + zs == xs + (ys + zs)
  {
  }

  lemma LastVisit(vs: seq<Visit>, ws: seq<Visit>)
    requires ws != []
    ensures var front, w := ws[..|ws| - 1], ws[|ws| - 1];
      ws == front + [w] && vs + ws == vs + front + [w]
  {
  }

  /** Visits of one call after another: the second starts from what the first remembers. */
  lemma {:induction false} MemoryJoins(last: Triggered, vs: seq<Visit>, ws: seq<Visit>)
    ensures LastAfter(last, vs + ws) == LastAfter(LastAfter(last, vs), ws)
  {
    NothingVisited(LastAfter(last, vs));
    hide *;
    if ws == [] {
      assert vs + ws == vs;
    } else {
      var front, w := ws[..|ws| - 1], ws[|ws| - 1];
      var all := vs + front;
      LastVisit(vs, ws);
      MemoryJoins(last, vs, front);
      VisitsSnoc(last, all, w);
      VisitsSnoc(LastAfter(last, vs), front, w);
    }
  }

  lemma {:induction false} AlertsJoin(last: Triggered, vs: seq<Visit>, ws: seq<Visit>)
    ensures AlertsOf(last, vs + ws) == AlertsOf(last, vs) + AlertsOf(LastAfter(last, vs), ws)
  {
    NothingVisited(LastAfter(last, vs));
    hide *;
    if ws == [] {
      assert vs + ws == vs;
    } else {
      var front, w := ws[..|ws| - 1], ws[|ws| - 1];
      var all := vs + front;
      LastVisit(vs, ws);
      AlertsJoin(last, vs, front);
      MemoryJoins(last, vs, front);
      VisitsSnoc(last, all, w);
      VisitsSnoc(LastAfter(last, vs), front, w);
    }
  }

  lemma {:induction false} NotificationsJoin(last: Triggered, vs: seq<Visit>, ws: seq<Visit>)
    ensures NotifiedAlerts(last, vs + ws) == NotifiedAlerts(last, vs) + NotifiedAlerts(LastAfter(last, vs), ws)
  {
    assert NotifiedAlerts(LastAfter(last, vs), []) == [];
    hide *;
    if ws == [] {
      assert vs + ws == vs;
    } else {
      var front, w := ws[..|ws| - 1], ws[|ws| - 1];
      var all := vs + front;
      LastVisit(vs, ws);
      NotificationsJoin(last, vs, front);
      MemoryJoins(last, vs, front);
      NotifiedSnoc(last, all, w);
      NotifiedSnoc(LastAfter(last, vs), front, w);
      Regroup(NotifiedAlerts(last, vs), NotifiedAlerts(LastAfter(last, vs), front), NotifiedBy(LastAfter(last, all), w));
    }
  }

  lemma {:induction false} NotifiedOfCall(last: Triggered, visits: seq<Visit>, notify: bool)
    requires forall i :: 0 <= i < |visits| ==> visits[i].notify == notify
    ensures NotifiedAlerts(last, visits) == if notify then AlertsOf(last, visits) else []
  {
    if visits != [] {
      hide Fires, BuildAlert, LastAfter;
      NotifiedOfCall(last, visits[..|visits| - 1], notify);
    }
  }

  lemma VisitsShareCall(rules: seq<Rule>, c: Call)
    ensures forall i :: 0 <= i < |VisitsOf(rules, c)| ==>
      var v := VisitsOf(rules, c)[i]; v.notify == c.notify && v.now == c.now && v.rule in rules
  {
    hide CallVisits;
    forall i | 0 <= i < |VisitsOf(rules, c)|
      ensures var v := VisitsOf(rules, c)[i]; v.notify == c.notify && v.now == c.now && v.rule in rules
    {
      CallVisitsCover(rules, c.results, c.notify, c.now, VisitsOf(rules, c)[i]);
    }
  }

  /** A run of calls is the run of their visits: one call's memory is what the next starts
      from. */
  lemma {:induction false} CallsAreVisits(rules: seq<Rule>, calls: seq<Call>)
    ensures Remembered(rules, calls) == LastAfter(map[], Visits(rules, calls))
    ensures Sent(rules, calls) == NotifiedAlerts(map[], Visits(rules, calls))
  {
    if calls != [] {
      hide LastAfter, AlertsOf, NotifiedAlerts, VisitsOf;
      var front, c := calls[..|calls| - 1], calls[|calls| - 1];
      CallsAreVisits(rules, front);
      MemoryJoins(map[], Visits(rules, front), VisitsOf(rules, c));
      NotificationsJoin(map[], Visits(rules, front), VisitsOf(rules, c));
      VisitsShareCall(rules, c);
      NotifiedOfCall(Remembered(rules, front), VisitsOf(rules, c), c.notify);
    } else {
      assert NotifiedAlerts(map[], []) == [];
    }
  }

  /** The clock never goes back. */
  predicate TimedCalls(calls: seq<Call>) {
    forall i, j :: 0 <= i < j < |calls| ==> calls[i].now <= calls[j].now
  }

  lemma {:induction false} VisitsAreTimed(rules: seq<Rule>, calls: seq<Call>, now: Instant)
    requires TimedCalls(calls) && forall i :: 0 <= i < |calls| ==> calls[i].now <= now
    ensures var vs := Visits(rules, calls);
      Timed(vs) && forall i :: 0 <= i < |vs| ==> vs[i].now <= now && vs[i].rule in rules
  {
    if calls != [] {
      hide VisitsOf;
      var c := calls[|calls| - 1];
      VisitsAreTimed(rules, calls[..|calls| - 1], c.now);
      VisitsShareCall(rules, c);
    }
  }

  lemma RunIsTimed(rules: seq<Rule>, calls: seq<Call>)
    requires TimedCalls(calls)
    ensures Timed(Visits(rules, calls))
    ensures forall i :: 0 <= i < |Visits(rules, calls)| ==> Visits(rules, calls)[i].rule in rules
  {
    if calls != [] {
      VisitsAreTimed(rules, calls, calls[|calls| - 1].now);
    }
  }

  /** The visits that notify, in order. */
  function Positions(visits: seq<Visit>): seq<nat> {
    if visits == [] then []
    else
      var n := |visits| - 1;
      if Notified(visits, n) then Positions(visits[..n]) + [n] else Positions(visits[..n])
  }

  lemma LastPosition(visits: seq<Visit>)
    requires visits != []
    ensures var n := |visits| - 1;
      var v := visits[n];
      NotifiedAlerts(map[], visits) ==
        if Notified(visits, n) then NotifiedAlerts(map[], visits[..n]) + [BuildAlert(v.rule, v.result, v.now)]
        else NotifiedAlerts(map[], visits[..n])
  {
    hide Fires, BuildAlert, LastAfter;
  }

  lemma {:induction false} PositionsAre(visits: seq<Visit>)
    ensures var ps, alerts := Positions(visits), NotifiedAlerts(map[], visits);
      && |ps| == |alerts|
      && (forall k :: 0 <= k < |ps| ==>
            && ps[k] < |visits| && Notified(visits, ps[k])
            && alerts[k] == BuildAlert(visits[ps[k]].rule, visits[ps[k]].result, visits[ps[k]].now))
      && (forall k, l :: 0 <= k < l < |ps| ==> ps[k] < ps[l])
  {
    if visits != [] {
      var n := |visits| - 1;
      LastPosition(visits);
      hide Notified, BuildAlert, NotifiedAlerts;
      var ps := Positions(visits[..n]);
      PositionsAre(visits[..n]);
      forall k | 0 <= k < |ps|
        ensures Notified(visits, ps[k])
      {
        NotifiedPrefix(visits, n, ps[k]);
      }
    }
  }

  lemma {:induction false} PositionOf(visits: seq<Visit>, i: nat) returns (k: nat)
    requires Notified(visits, i)
    ensures k < |Positions(visits)| && Positions(visits)[k] == i
  {
    var n := |visits| - 1;
    if i == n {
      k := |Positions(visits)| - 1;
    } else {
      NotifiedPrefix(visits, n, i);
      k := PositionOf(visits[..n], i);
    }
  }

  lemma BuiltAlert(rule: Rule, result: CheckResult, now: Instant)
    ensures var a := BuildAlert(rule, result, now);
      a.ruleID == rule.id && a.checkID == result.checkID && a.triggeredAt == now
  {
  }

  predicate DistinctIDs(rules: seq<Rule>) {
    forall r, q :: r in rules && q in rules && r.id == q.id ==> r == q
  }

  predicate SameSubject(a: Alert, b: Alert) {
    a.ruleID == b.ruleID && a.checkID == b.checkID
  }

  /** In every run of calls, notifications of a rule for a check are the engine's cooldown
      apart. */
  lemma SentAreSpaced(rules: seq<Rule>, calls: seq<Call>, rule: Rule, i: nat, j: nat)
    requires TimedCalls(calls) && DistinctIDs(rules) && rule in rules
    requires i < j < |Sent(rules, calls)|
    requires SameSubject(Sent(rules, calls)[i], Sent(rules, calls)[j]) && Sent(rules, calls)[i].ruleID == rule.id
    ensures Sent(rules, calls)[j].triggeredAt - Sent(rules, calls)[i].triggeredAt >= Cooldown(rule)
  {
    var vs := Visits(rules, calls);
    CallsAreVisits(rules, calls);
    RunIsTimed(rules, calls);
    PositionsAre(vs);
    hide Sent, Visits, NotifiedAlerts, Positions, Notified, BuildAlert, Cooldown, Timed;
    var p, q := Positions(vs)[i], Positions(vs)[j];
    BuiltAlert(vs[p].rule, vs[p].result, vs[p].now);
    BuiltAlert(vs[q].rule, vs[q].result, vs[q].now);
    NotificationsAreSpaced(vs, p, q);
  }

  /** In every run of calls, what is remembered under a key is the time of the last
      notification for it. */
  lemma RememberedIsLastSent(rules: seq<Rule>, calls: seq<Call>, key: string)
    requires TimedCalls(calls)
    ensures var last, sent := Remembered(rules, calls), Sent(rules, calls);
      if key in last
      then (exists k :: 0 <= k < |sent| && AlertKey(sent[k]) == key && sent[k].triggeredAt == last[key])
           && (forall k :: 0 <= k < |sent| && AlertKey(sent[k]) == key ==> sent[k].triggeredAt <= last[key])
      else forall k :: 0 <= k < |sent| ==> AlertKey(sent[k]) != key
  {
    var vs := Visits(rules, calls);
    CallsAreVisits(rules, calls);
    RunIsTimed(rules, calls);
    PositionsAre(vs);
    RememberedIsLast(vs, key);
    hide Sent, Remembered, Visits, NotifiedAlerts, Positions, Notified, BuildAlert, Timed, LastAfter, PairKey;
    var ps := Positions(vs);
    forall k | 0 <= k < |ps|
      ensures AlertKey(Sent(rules, calls)[k]) == KeyOf(vs[ps[k]]) && Sent(rules, calls)[k].triggeredAt == vs[ps[k]].now
    {
      BuiltAlert(vs[ps[k]].rule, vs[ps[k]].result, vs[ps[k]].now);
    }
    if key in Remembered(rules, calls) {
      var i :| Notified(vs, i) && KeyOf(vs[i]) == key && vs[i].now == Remembered(rules, calls)[key];
      assert 0 <= i by { NotifiedMatches(vs, i); }
      var k := PositionOf(vs, i);
    }
  }

  function AlertKey(a: Alert): string {
    PairKey(a.ruleID, a.checkID)
  }

  function NotifyCalls(calls: seq<Call>): seq<Call> {
    if calls == [] then []
    else
      var before := NotifyCalls(calls[..|calls| - 1]);
      if calls[|calls| - 1].notify then before + [calls[|calls| - 1]] else before
  }

  /** Calls of EvaluateForIncidents, wherever they come, change no later notification. */
  lemma {:induction false} IncidentCallsAreInvisible(rules: seq<Rule>, calls: seq<Call>)
    ensures Remembered(rules, NotifyCalls(calls)) == Remembered(rules, calls)
    ensures Sent(rules, NotifyCalls(calls)) == Sent(rules, calls)
  {
    if calls != [] {
      hide LastAfter, AlertsOf, CallVisits;
      var front, c := calls[..|calls| - 1], calls[|calls| - 1];
      IncidentCallsAreInvisible(rules, front);
      if c.notify {
        assert NotifyCalls(calls)[..|NotifyCalls(front)|] == NotifyCalls(front);
      } else {
        IncidentCallsIgnoreCooldown(Remembered(rules, front), map[], rules, c.results, c.now);
      }
    }
  }

  // ----- Spacing in configured minutes

  /** The two notifications, if they are of one rule with that cooldown and for one check, are
      at least that many minutes apart. */
  predicate MinutesApart(rules: seq<Rule>, calls: seq<Call>, i: int, j: int, minutes: int) {
    var sent := Sent(rules, calls);
    && 0 <= i < j < |sent| && SameSubject(sent[i], sent[j])
    && (exists rule :: rule in rules && rule.id == sent[i].ruleID && rule.cooldownMinutes == minutes)
    ==> sent[j].triggeredAt - sent[i].triggeredAt >= 60_000_000_000 * minutes
  }

  ghost predicate AlwaysSpaced(minutes: int) {
    forall rules, calls, i, j ::
      DistinctIDs(rules) && TimedCalls(calls) ==> MinutesApart(rules, calls, i, j, minutes)
  }

  /** The rule and the result of the failing run. */
  function Watch(minutes: int): Rule {
    Rule("r", "", "", "", true, [], [Condition("healthy", Equals, Bool(false))], minutes)
  }

  function Outage(): CheckResult {
    CheckResult("c", "", "", "", "", false, "", 0, 0, map[])
  }

  /** The second notification comes as early as the engine lets it. */
  function Early(minutes: int): Instant {
    if Cooldown(Watch(minutes)) > 0 then Cooldown(Watch(minutes)) else 0
  }

  function EarlyRun(minutes: int): seq<Call> {
    [Call([Outage()], true, 0), Call([Outage()], true, Early(minutes))]
  }

  lemma OneVisit(rule: Rule, result: CheckResult, now: Instant)
    ensures VisitsOf([rule], Call([result], true, now)) == [Visit(rule, result, true, now)]
  {
    var call := Call([result], true, now);
    assert [result][..0] == [];
    assert CallVisits([rule], [result][..0], true, now) == [];
    assert VisitsOf([rule], call) == [] + Row([rule], result, true, now);
  }

  lemma TwoCallsSend(rules: seq<Rule>, c: Call, d: Call)
    requires c.notify && d.notify
    ensures Sent(rules, [c, d]) == AlertsOf(map[], VisitsOf(rules, c)) + AlertsOf(LastAfter(map[], VisitsOf(rules, c)), VisitsOf(rules, d))
  {
    hide LastAfter, AlertsOf, VisitsOf;
    assert [c, d][..1] == [c] && [c][..0] == [];
    assert Remembered(rules, []) == map[] && Sent(rules, []) == [];
    assert Remembered(rules, [c]) == LastAfter(map[], VisitsOf(rules, c));
    assert Sent(rules, [c]) == AlertsOf(map[], VisitsOf(rules, c));
  }

  lemma WatchMatches(minutes: int)
    ensures Matches(Watch(minutes), Outage())
  {
  }

  lemma EarlyIsLateEnough(minutes: int)
    ensures Sub(Early(minutes), 0) >= Cooldown(Watch(minutes))
  {
    CooldownFits(Watch(minutes));
    hide Cooldown;
  }

  /** A matching visit that is not cooling down sends, and is remembered. */
  lemma OneVisitSends(last: Triggered, v: Visit)
    requires v.notify && Matches(v.rule, v.result)
    requires KeyOf(v) in last ==> Sub(v.now, last[KeyOf(v)]) >= Cooldown(v.rule)
    ensures AlertsOf(last, [v]) == [BuildAlert(v.rule, v.result, v.now)] && LastAfter(last, [v]) == last[KeyOf(v) := v.now]
  {
    NothingVisited(last);
    VisitsSnoc(last, [], v);
    hide Matches, BuildAlert, Cooldown, LastAfter, AlertsOf, KeyOf, Sub;
    assert [] + [v] == [v];
  }

  lemma EarlyRunSends(minutes: int)
    ensures var sent := Sent([Watch(minutes)], EarlyRun(minutes));
      |sent| == 2 && SameSubject(sent[0], sent[1])
      && sent[0].ruleID == "r" && sent[0].triggeredAt == 0 && sent[1].triggeredAt == Early(minutes)
  {
    var rule, result, t := Watch(minutes), Outage(), Early(minutes);
    var v, w := Visit(rule, result, true, 0), Visit(rule, result, true, t);
    assert rule.id == "r" && KeyOf(v) == KeyOf(w);
    var c, d := Call([result], true, 0), Call([result], true, t);
    assert EarlyRun(minutes) == [c, d];
    WatchMatches(minutes);
    EarlyIsLateEnough(minutes);
    hide Watch, Outage, Early, EarlyRun, Matches, BuildAlert, Cooldown, VisitsOf, LastAfter, AlertsOf, KeyOf, Sent, Sub;
    OneVisit(rule, result, 0);
    OneVisit(rule, result, t);
    OneVisitSends(map[], v);
    OneVisitSends(map[KeyOf(v) := 0], w);
    TwoCallsSend([rule], c, d);
    BuiltAlert(rule, result, 0);
    BuiltAlert(rule, result, t);
  }

  /** Two notifications of a rule for a check are CooldownMinutes apart in every run of calls if
      and only if CooldownMinutes is at most MAX_MINUTES: above, the product wraps. */
  lemma SpacedIffMinutesFit(minutes: int)
    ensures AlwaysSpaced(minutes) <==> minutes <= MAX_MINUTES
  {
    if minutes <= MAX_MINUTES {
      forall rules, calls, i, j | DistinctIDs(rules) && TimedCalls(calls)
        ensures MinutesApart(rules, calls, i, j, minutes)
      {
        FittingMinutesSpace(rules, calls, i, j, minutes);
      }
    } else {
      hide Sent, Cooldown;
      var rules, calls := [Watch(minutes)], EarlyRun(minutes);
      EarlyRunSends(minutes);
      CooldownFits(Watch(minutes));
      assert Watch(minutes) in rules;
      assert DistinctIDs(rules) && TimedCalls(calls);
      assert !MinutesApart(rules, calls, 0, 1, minutes);
    }
  }

  lemma FittingMinutesSpace(rules: seq<Rule>, calls: seq<Call>, i: int, j: int, minutes: int)
    requires DistinctIDs(rules) && TimedCalls(calls) && minutes <= MAX_MINUTES
    ensures MinutesApart(rules, calls, i, j, minutes)
  {
    hide Sent, Cooldown, DistinctIDs;
    var sent := Sent(rules, calls);
    if 0 <= i < j < |sent| && SameSubject(sent[i], sent[j]) {
      forall rule | rule in rules && rule.id == sent[i].ruleID && rule.cooldownMinutes == minutes
        ensures sent[j].triggeredAt - sent[i].triggeredAt >= 60_000_000_000 * minutes
      {
        SentAreSpaced(rules, calls, rule, i, j);
        SentInOrder(rules, calls, i, j);
        CooldownInMinutesIff(rule);
      }
    }
  }

  lemma SentInOrder(rules: seq<Rule>, calls: seq<Call>, i: nat, j: nat)
    requires TimedCalls(calls) && i < j < |Sent(rules, calls)|
    ensures Sent(rules, calls)[i].triggeredAt <= Sent(rules, calls)[j].triggeredAt
  {
    var vs := Visits(rules, calls);
    CallsAreVisits(rules, calls);
    RunIsTimed(rules, calls);
    PositionsAre(vs);
    hide Sent, Visits, NotifiedAlerts, Positions, Notified, BuildAlert;
    var p, q := Positions(vs)[i], Positions(vs)[j];
    BuiltAlert(vs[p].rule, vs[p].result, vs[p].now);
    BuiltAlert(vs[q].rule, vs[q].result, vs[q].now);
  }
}
