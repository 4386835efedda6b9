/** The MySQL rule engine: per rule and check, a status with hysteresis driven by streaks of
    breached and recovered samples. */
module MySQLRules {
  import opened Civil
  import opened MySQLSamples
  import opened Text
  import opened Options

  datatype Rule = Rule(
    ruleCode: string,
    enabled: bool,
    checkIDs: seq<CheckID>,
    severity: string,
    threshold: real,
    consecutiveBreaches: int,
    recoverySamples: int)

  datatype Status = OK | OPEN

  datatype AlertState = AlertState(
    ruleCode: string,
    checkID: CheckID,
    status: Status,
    breachStreak: int,
    recoveryStreak: int,
    openIncidentID: string)

  datatype Action = NoAction | Open | Close

  datatype EvaluateResult = EvaluateResult(
    ruleCode: string,
    checkID: CheckID,
    action: Action,
    severity: string,
    incidentID: string)

  /** Thresholds of zero or less mean one: the larger of the two. */
  function AtLeastOne(n: int): (r: nat)
    ensures r >= 1 && r >= n && (r == 1 || r == n)
  {
    if n <= 0 then 1 else n
  }

  function Transition(state: AlertState, rule: Rule, breached: bool): (AlertState, EvaluateResult) {
    var none := Unchanged(rule, state.checkID);
    if breached then
      var s := state.(recoveryStreak := 0, breachStreak := state.breachStreak + 1);
      if s.status == OK && s.breachStreak >= AtLeastOne(rule.consecutiveBreaches) then
        (s.(status := OPEN), none.(action := Open))
      else (s, none)
    else
      var s := state.(breachStreak := 0, recoveryStreak := state.recoveryStreak + 1);
      if s.status == OPEN && s.recoveryStreak >= AtLeastOne(rule.recoverySamples) then
        (s.(status := OK, recoveryStreak := 0, openIncidentID := ""),
         none.(action := Close, incidentID := s.openIncidentID))
      else (s, none)
  }

  function UtilPct(sample: Sample): real
    requires sample.maxConnections != 0
  {
    sample.connections as real / sample.maxConnections as real * 100.0
  }

  predicate IsBreached(rule: Rule, sample: Sample, delta: Option<Delta>) {
    match rule.ruleCode
    case "CONN_UTIL_WARN" => sample.maxConnections != 0 && UtilPct(sample) >= rule.threshold
    case "CONN_UTIL_CRIT" => sample.maxConnections != 0 && UtilPct(sample) >= rule.threshold
    case "MAX_CONN_REFUSED" => delta.Some? && delta.value.connectionsRefused > 0
    case "ABORTED_CONNECT_SPIKE" => delta.Some? && delta.value.abortedConnectsPerSec >= rule.threshold
    case "THREADS_RUNNING_HIGH" => sample.threadsRunning as real >= rule.threshold
    case "ROW_LOCK_WAITS_HIGH" => delta.Some? && delta.value.rowLockWaitsPerSec >= rule.threshold
    case "SLOW_QUERY_SPIKE" => delta.Some? && delta.value.slowQueriesPerSec >= rule.threshold
    case "TMP_DISK_PCT_HIGH" => delta.Some? && delta.value.tmpDiskTablesPct >= rule.threshold
    case "THREAD_CREATE_SPIKE" => delta.Some? && delta.value.threadsCreatedPerSec >= rule.threshold
    case _ => false
  }

  predicate AppliesTo(rule: Rule, checkID: CheckID) {
    rule.checkIDs == [] || checkID in rule.checkIDs
  }

  /** The rules Evaluate looks at for a check. */
  predicate Looked(rule: Rule, checkID: CheckID) {
    rule.enabled && AppliesTo(rule, checkID)
  }

  type States = map<string, AlertState>

  function StateOf(states: States, ruleCode: string, checkID: CheckID): AlertState {
    var key := PairKey(ruleCode, checkID);
    if key in states then states[key] else AlertState(ruleCode, checkID, OK, 0, 0, "")
  }

  function Unchanged(rule: Rule, checkID: CheckID): EvaluateResult {
    EvaluateResult(rule.ruleCode, checkID, NoAction, rule.severity, "")
  }

  function EvaluateRule(states: States, rule: Rule, checkID: CheckID, sample: Sample, delta: Option<Delta>)
    : (States, EvaluateResult)
  {
    if !Looked(rule, checkID) then (states, Unchanged(rule, checkID))
    else
      var (s, r) := Transition(StateOf(states, rule.ruleCode, checkID), rule, IsBreached(rule, sample, delta));
      (states[PairKey(rule.ruleCode, checkID) := s], r)
  }

  function Collect(results: seq<EvaluateResult>, r: EvaluateResult): seq<EvaluateResult> {
    if r.action.NoAction? then results else results + [r]
  }

  /** All of `rules`, in order. */
  function EvaluateRules(states: States, rules: seq<Rule>, checkID: CheckID, sample: Sample, delta: Option<Delta>)
    : (States, seq<EvaluateResult>)
  {
    if rules == [] then (states, [])
    else
      var (before, rs) := EvaluateRules(states, rules[..|rules| - 1], checkID, sample, delta);
      var (after, r) := EvaluateRule(before, rules[|rules| - 1], checkID, sample, delta);
      (after, Collect(rs, r))
  }

  class MySQLRuleEngine {
    var rules: seq<Rule>
    var states: States

    constructor (rules: seq<Rule>)
      ensures this.rules == rules && states == map[]
    {
      this.rules := rules;
      states := map[];
    }

    method Evaluate(checkID: CheckID, sample: Sample, delta: Option<Delta>) returns (results: seq<EvaluateResult>)
      modifies this`states
      ensures (states, results) == EvaluateRules(old(states), rules, checkID, sample, delta)
    {
      hide Transition, IsBreached;
      results := [];
      for i := 0 to |rules|
        invariant (states, results) == EvaluateRules(old(states), rules[..i], checkID, sample, delta)
      {
        assert rules[..i + 1][..i] == rules[..i];
        ghost var before := states;
        var rule := rules[i];
        if !rule.enabled { continue; }
        var applies := RuleAppliesToCheck(rule, checkID);
        if !applies { continue; }
        var breached := IsBreached(rule, sample, delta);
        var key := PairKey(rule.ruleCode, checkID);
        if key !in states {
          states := states[key := AlertState(rule.ruleCode, checkID, OK, 0, 0, "")];
        }
        var (s, r) := Transition(states[key], rule, breached);
        states := states[key := s];
        assert states == before[key := s];
        if r.action != NoAction {
          results := results + [r];
        }
      }
      assert rules[..|rules|] == rules;
    }

    method SetOpenIncidentID(ruleCode: string, checkID: CheckID, incidentID: string)
      modifies this`states
      ensures states == Record(old(states), ruleCode, checkID, incidentID)
    {
      var key := PairKey(ruleCode, checkID);
      if key in states {
        states := states[key := states[key].(openIncidentID := incidentID)];
      }
    }
  }

  method RuleAppliesToCheck(rule: Rule, checkID: CheckID) returns (r: bool)
    ensures r <==> rule.checkIDs == [] || checkID in rule.checkIDs
  {
    if |rule.checkIDs| == 0 {
      return true;
    }
    for i := 0 to |rule.checkIDs|
      invariant checkID !in rule.checkIDs[..i]
    {
      if rule.checkIDs[i] == checkID { return true; }
    }
    return false;
  }

  function Record(states: States, ruleCode: string, checkID: CheckID, incidentID: string): States {
    var key := PairKey(ruleCode, checkID);
    if key in states then states[key := states[key].(openIncidentID := incidentID)] else states
  }

  /** What a reported action says besides itself: the rule and its severity, the check, and on
      closing the incident recorded for it, which is then forgotten. */
  lemma ActionIsReported(state: AlertState, rule: Rule, breached: bool)
    ensures var (s, r) := Transition(state, rule, breached);
      && r.ruleCode == rule.ruleCode && r.severity == rule.severity && r.checkID == state.checkID
      && r.incidentID == (if r.action.Close? then state.openIncidentID else "")
      && s.openIncidentID == (if r.action.Close? then "" else state.openIncidentID)
      && s.ruleCode == state.ruleCode && s.checkID == state.checkID
      && s.breachStreak == (if breached then state.breachStreak + 1 else 0)
      && s.recoveryStreak == (if breached || r.action.Close? then 0 else state.recoveryStreak + 1)
  {
  }

  // ----- Breaches, by the samples' own figures

  /** The share of connections in use, without dividing. */
  predicate ConnectionsExceed(s: Sample, threshold: real) {
    || (s.maxConnections > 0 && 100.0 * s.connections as real >= threshold * s.maxConnections as real)
    || (s.maxConnections < 0 && 100.0 * s.connections as real <= threshold * s.maxConnections as real)
  }

  function ElapsedSeconds(current: Sample, previous: Sample): real {
    var elapsed := current.timestamp - previous.timestamp;
    if elapsed <= 0 then 1.0
    else if elapsed <= MAX_INT64 then elapsed as real / 1_000_000_000.0
    else MAX_INT64 as real / 1_000_000_000.0
  }

  /** The counter gained at least `threshold` for every second since the sample before. */
  predicate GainExceeds(c: Counter, current: Sample, previous: Option<Sample>, threshold: real) {
    previous.Some? && Gain(c, current, previous.value) as real >= threshold * ElapsedSeconds(current, previous.value)
  }

  /** Of the temporary tables created since the sample before, at least `threshold` per cent
      went to disk; none created is none on disk. */
  predicate DiskShareExceeds(current: Sample, previous: Sample, threshold: real) {
    var tables := if current.tmpTables > previous.tmpTables then current.tmpTables - previous.tmpTables else 0;
    if tables > 0 then 100.0 * Gain(TmpDiskTables, current, previous) as real >= threshold * tables as real
    else 0.0 >= threshold
  }

  predicate Exceeds(rule: Rule, current: Sample, previous: Option<Sample>) {
    match rule.ruleCode
    case "CONN_UTIL_WARN" => ConnectionsExceed(current, rule.threshold)
    case "CONN_UTIL_CRIT" => ConnectionsExceed(current, rule.threshold)
    case "MAX_CONN_REFUSED" => previous.Some? && current.connectionsRefused > previous.value.connectionsRefused
    case "ABORTED_CONNECT_SPIKE" => GainExceeds(AbortedConnects, current, previous, rule.threshold)
    case "THREADS_RUNNING_HIGH" => current.threadsRunning as real >= rule.threshold
    case "ROW_LOCK_WAITS_HIGH" => GainExceeds(RowLockWaits, current, previous, rule.threshold)
    case "SLOW_QUERY_SPIKE" => GainExceeds(SlowQueries, current, previous, rule.threshold)
    case "TMP_DISK_PCT_HIGH" => previous.Some? && DiskShareExceeds(current, previous.value, rule.threshold)
    case "THREAD_CREATE_SPIKE" => GainExceeds(ThreadsCreated, current, previous, rule.threshold)
    case _ => false
  }

  /** MySQL reports counters that are not negative and fit 64 bits. */
  predicate CountersFit(s: Sample) {
    && 0 <= s.abortedConnects <= MAX_INT64 && 0 <= s.slowQueries <= MAX_INT64
    && 0 <= s.rowLockWaits <= MAX_INT64 && 0 <= s.threadsCreated <= MAX_INT64
    && 0 <= s.tmpDiskTables <= MAX_INT64 && 0 <= s.tmpTables <= MAX_INT64
    && 0 <= s.connectionsRefused <= MAX_INT64
  }

  /** The delta the repository makes of a sample and the one before it. */
  function DeltaTo(current: Sample, previous: Option<Sample>): Option<Delta> {
    if previous.Some? then Some(ComputeDelta(current, previous.value)) else None
  }

  lemma QuotientReaches(a: real, b: real, t: real)
    requires b != 0.0
    ensures b > 0.0 ==> (a / b * 100.0 >= t <==> 100.0 * a >= t * b)
    ensures b < 0.0 ==> (a / b * 100.0 >= t <==> 100.0 * a <= t * b)
  {
    var q := a / b;
    assert q * b == a;
    if b > 0.0 {
      ScaleOrder(q * 100.0, t, b);
    } else {
      ScaleOrder(q * 100.0, t, -b);
    }
  }

  lemma ScaleOrder(x: real, y: real, b: real)
    requires b > 0.0
    ensures x >= y <==> x * b >= y * b
  {
    if x < y {
      assert (y - x) * b > 0.0;
    } else {
      assert (x - y) * b >= 0.0;
    }
  }

  lemma ConnectionsBreach(s: Sample, threshold: real)
    ensures (s.maxConnections != 0 && UtilPct(s) >= threshold) <==> ConnectionsExceed(s, threshold)
  {
    if s.maxConnections != 0 {
      QuotientReaches(s.connections as real, s.maxConnections as real, threshold);
    }
  }

  lemma RateBreach(c: Counter, rate: real, current: Sample, previous: Sample, threshold: real)
    requires 0 <= Read(c, current) <= MAX_INT64 && 0 <= Read(c, previous) <= MAX_INT64
    requires rate * IntervalSeconds(current, previous) == CounterDiff(Read(c, current), Read(c, previous)) as real
    ensures rate >= threshold <==> GainExceeds(c, current, Some(previous), threshold)
  {
    CounterDiffExact(Read(c, current), Read(c, previous));
    IntervalIsElapsedTime(current, previous);
    hide IntervalSeconds, CounterDiff, Read;
    ScaleOrder(rate, threshold, IntervalSeconds(current, previous));
  }

  /** The share and the two counters it is taken of. */
  predicate ShareIs(pct: real, current: Sample, previous: Sample) {
    var tables := CounterDiff(current.tmpTables, previous.tmpTables);
    if tables > 0 then pct * tables as real == 100.0 * CounterDiff(current.tmpDiskTables, previous.tmpDiskTables) as real
    else pct == 0.0
  }

  lemma ShareIsTaken(current: Sample, previous: Sample)
    ensures ShareIs(ComputeDelta(current, previous).tmpDiskTablesPct, current, previous)
  {
    hide CounterDiff, IntervalSeconds;
  }

  lemma ShareReaches(pct: real, current: Sample, previous: Sample, threshold: real)
    requires CountersFit(current) && CountersFit(previous)
    requires ShareIs(pct, current, previous)
    ensures pct >= threshold <==> DiskShareExceeds(current, previous, threshold)
  {
    CounterDiffExact(current.tmpDiskTables, previous.tmpDiskTables);
    CounterDiffExact(current.tmpTables, previous.tmpTables);
    hide CounterDiff;
    if current.tmpTables > previous.tmpTables {
      ScaleOrder(pct, threshold, (current.tmpTables - previous.tmpTables) as real);
    }
  }

  lemma ShareBreach(current: Sample, previous: Sample, threshold: real)
    requires CountersFit(current) && CountersFit(previous)
    ensures ComputeDelta(current, previous).tmpDiskTablesPct >= threshold <==> DiskShareExceeds(current, previous, threshold)
  {
    hide *;
    ShareIsTaken(current, previous);
    ShareReaches(ComputeDelta(current, previous).tmpDiskTablesPct, current, previous, threshold);
  }

  lemma DeltaFigures(current: Sample, previous: Sample)
    requires CountersFit(current) && CountersFit(previous)
    ensures var d, s := ComputeDelta(current, previous), IntervalSeconds(current, previous);
      && d.intervalSec == s
      && d.abortedConnects == CounterDiff(Read(AbortedConnects, current), Read(AbortedConnects, previous))
      && d.rowLockWaits == CounterDiff(Read(RowLockWaits, current), Read(RowLockWaits, previous))
      && d.slowQueries == CounterDiff(Read(SlowQueries, current), Read(SlowQueries, previous))
      && d.threadsCreated == CounterDiff(Read(ThreadsCreated, current), Read(ThreadsCreated, previous))
      && d.connectionsRefused == CounterDiff(current.connectionsRefused, previous.connectionsRefused)
    ensures forall c :: c in {AbortedConnects, RowLockWaits, SlowQueries, ThreadsCreated} ==>
      0 <= Read(c, current) <= MAX_INT64 && 0 <= Read(c, previous) <= MAX_INT64
  {
    hide CounterDiff, IntervalSeconds;
  }

  lemma RatesAreGains(current: Sample, previous: Sample, threshold: real)
    requires CountersFit(current) && CountersFit(previous)
    ensures var d := ComputeDelta(current, previous);
      && (d.abortedConnectsPerSec >= threshold <==> GainExceeds(AbortedConnects, current, Some(previous), threshold))
      && (d.rowLockWaitsPerSec >= threshold <==> GainExceeds(RowLockWaits, current, Some(previous), threshold))
      && (d.slowQueriesPerSec >= threshold <==> GainExceeds(SlowQueries, current, Some(previous), threshold))
      && (d.threadsCreatedPerSec >= threshold <==> GainExceeds(ThreadsCreated, current, Some(previous), threshold))
  {
    hide *;
    RatesRecoverDeltas(current, previous);
    DeltaFigures(current, previous);
    var d := ComputeDelta(current, previous);
    RateBreach(AbortedConnects, d.abortedConnectsPerSec, current, previous, threshold);
    RateBreach(RowLockWaits, d.rowLockWaitsPerSec, current, previous, threshold);
    RateBreach(SlowQueries, d.slowQueriesPerSec, current, previous, threshold);
    RateBreach(ThreadsCreated, d.threadsCreatedPerSec, current, previous, threshold);
  }

  lemma RefusedIsGain(current: Sample, previous: Sample)
    requires CountersFit(current) && CountersFit(previous)
    ensures ComputeDelta(current, previous).connectionsRefused > 0 <==>
      current.connectionsRefused > previous.connectionsRefused
  {
    CounterDiffExact(current.connectionsRefused, previous.connectionsRefused);
    hide CounterDiff, IntervalSeconds;
  }

  /** A rule is breached exactly when the figures of the sample, and of the one before it, reach
      its threshold. */
  lemma BreachedIffExceeds(rule: Rule, current: Sample, previous: Option<Sample>)
    requires CountersFit(current) && (previous.Some? ==> CountersFit(previous.value))
    ensures IsBreached(rule, current, DeltaTo(current, previous)) <==> Exceeds(rule, current, previous)
  {
    ConnectionsBreach(current, rule.threshold);
    if previous.Some? {
      RatesAreGains(current, previous.value, rule.threshold);
      ShareBreach(current, previous.value, rule.threshold);
      RefusedIsGain(current, previous.value);
    }
    hide ComputeDelta, UtilPct, ConnectionsExceed, DiskShareExceeds, GainExceeds, CountersFit;
    if previous.None? {
      forall c { NoGainWithoutPrevious(c, current, rule.threshold); }
    }
  }

  lemma NoGainWithoutPrevious(c: Counter, current: Sample, threshold: real)
    ensures !GainExceeds(c, current, None, threshold)
  {
  }

  // ----- One rule and check, over a history of samples

  /** The state after samples breached as in `history`. */
  function After(rule: Rule, checkID: CheckID, history: seq<bool>): AlertState {
    if history == [] then AlertState(rule.ruleCode, checkID, OK, 0, 0, "")
    else Transition(After(rule, checkID, history[..|history| - 1]), rule, history[|history| - 1]).0
  }

  /** The actions taken on the way, in order. */
  function Actions(rule: Rule, checkID: CheckID, history: seq<bool>): seq<Action> {
    if history == [] then []
    else
      var front := history[..|history| - 1];
      var r := Transition(After(rule, checkID, front), rule, history[|history| - 1]).1;
      if r.action.NoAction? then Actions(rule, checkID, front) else Actions(rule, checkID, front) + [r.action]
  }

  /** The `n` samples before position `end` all equal `breached`. */
  predicate RunEndsAt(history: seq<bool>, end: nat, n: nat, breached: bool)
    requires end <= |history|
  {
    n <= end && forall i :: end - n <= i < end ==> history[i] == breached
  }

  /** Some run of `n` breaches has no run of `r` recoveries ending after it. */
  ghost predicate BreachedWithoutRecovery(history: seq<bool>, n: nat, r: nat) {
    exists i :: Unrecovered(history, i, n, r)
  }

  predicate Unrecovered(history: seq<bool>, i: int, n: nat, r: nat) {
    && 0 <= i <= |history|
    && RunEndsAt(history, i, n, true)
    && forall j :: i < j <= |history| ==> !RunEndsAt(history, j, r, false)
  }

  /** The streaks are the lengths of the runs at the end of the history. */
  predicate StreakIs(history: seq<bool>, breached: bool, streak: int) {
    && 0 <= streak <= |history|
    && RunEndsAt(history, |history|, streak, breached)
    && (streak < |history| ==> history[|history| - 1 - streak] != breached)
  }

  lemma {:induction false} StreaksAreRuns(rule: Rule, checkID: CheckID, history: seq<bool>)
    ensures var s := After(rule, checkID, history);
      && StreakIs(history, true, s.breachStreak)
      && (s.status == OPEN ==> StreakIs(history, false, s.recoveryStreak))
  {
    if history != [] {
      var front, b := history[..|history| - 1], history[|history| - 1];
      hide StreakIs;
      StreaksAreRuns(rule, checkID, front);
      StreakGrows(history, true, After(rule, checkID, front).breachStreak);
      StreakGrows(history, false, After(rule, checkID, front).recoveryStreak);
    }
  }

  lemma StreakGrows(history: seq<bool>, breached: bool, streak: int)
    requires history != []
    ensures history[|history| - 1] != breached ==> StreakIs(history, breached, 0)
    ensures history[|history| - 1] == breached && StreakIs(history[..|history| - 1], breached, streak) ==>
      StreakIs(history, breached, streak + 1)
  {
  }

  lemma StreakMeetsRun(history: seq<bool>, breached: bool, streak: int, n: nat)
    requires StreakIs(history, breached, streak)
    ensures RunEndsAt(history, |history|, n, breached) <==> n <= streak
  {
  }

  lemma RunPrefix(history: seq<bool>, front: seq<bool>, end: nat, n: nat, breached: bool)
    requires end <= |front| < |history| && front == history[..|front|]
    ensures RunEndsAt(history, end, n, breached) <==> RunEndsAt(front, end, n, breached)
  {
    if RunEndsAt(history, end, n, breached) {
      forall i | end - n <= i < end ensures front[i] == breached { assert front[i] == history[i]; }
    }
    if RunEndsAt(front, end, n, breached) {
      forall i | end - n <= i < end ensures history[i] == breached { assert front[i] == history[i]; }
    }
  }

  /** How the closed form changes with one more sample. */
  lemma UnrecoveredStep(history: seq<bool>, n: nat, r: nat)
    requires history != [] && n >= 1 && r >= 1
    ensures var front := history[..|history| - 1];
      BreachedWithoutRecovery(history, n, r) <==>
        || RunEndsAt(history, |history|, n, true)
        || (BreachedWithoutRecovery(front, n, r) && !RunEndsAt(history, |history|, r, false))
  {
    var m := |history|;
    var front := history[..m - 1];
    if RunEndsAt(history, m, n, true) {
      assert Unrecovered(history, m, n, r);
    }
    if i :| Unrecovered(front, i, n, r) {
      RunPrefix(history, front, i, n, true);
      if !RunEndsAt(history, m, r, false) {
        forall j | i < j <= m
          ensures !RunEndsAt(history, j, r, false)
        {
          if j < m { RunPrefix(history, front, j, r, false); }
        }
        assert Unrecovered(history, i, n, r);
      }
    }
    if i :| Unrecovered(history, i, n, r) {
      if i < m {
        RunPrefix(history, front, i, n, true);
        forall j | i < j <= m - 1
          ensures !RunEndsAt(front, j, r, false)
        {
          RunPrefix(history, front, j, r, false);
        }
        assert Unrecovered(front, i, n, r);
      }
    }
  }

  /** A rule is OPEN for a check exactly when some N consecutive breaches have not been
      followed by R consecutive recoveries. */
  lemma {:induction false} OpenIffUnrecovered(rule: Rule, checkID: CheckID, history: seq<bool>)
    ensures After(rule, checkID, history).status == OPEN <==>
      BreachedWithoutRecovery(history, AtLeastOne(rule.consecutiveBreaches), AtLeastOne(rule.recoverySamples))
  {
    var n, r := AtLeastOne(rule.consecutiveBreaches), AtLeastOne(rule.recoverySamples);
    if history == [] {
      forall i ensures !Unrecovered(history, i, n, r) {}
    } else {
      hide BreachedWithoutRecovery, StreakIs, RunEndsAt;
      var front := history[..|history| - 1];
      OpenIffUnrecovered(rule, checkID, front);
      StreaksAreRuns(rule, checkID, history);
      StreaksAreRuns(rule, checkID, front);
      UnrecoveredStep(history, n, r);
      StreakMeetsRun(history, true, After(rule, checkID, history).breachStreak, n);
      if After(rule, checkID, front).status == OPEN {
        RecoveryRun(rule, checkID, history);
      }
    }
  }

  /** While open before the last sample, that sample closes exactly on a full recovery run. */
  lemma RecoveryRun(rule: Rule, checkID: CheckID, history: seq<bool>)
    requires history != [] && After(rule, checkID, history[..|history| - 1]).status == OPEN
    ensures var s := After(rule, checkID, history[..|history| - 1]);
      var r := AtLeastOne(rule.recoverySamples);
      RunEndsAt(history, |history|, r, false) <==> !history[|history| - 1] && s.recoveryStreak + 1 >= r
  {
    var m := |history|;
    var front := history[..m - 1];
    StreaksAreRuns(rule, checkID, front);
    var s := After(rule, checkID, front);
    if !history[m - 1] {
      forall i | 0 <= i < m - 1 ensures front[i] == history[i] {}
      assert StreakIs(history, false, s.recoveryStreak + 1);
      StreakMeetsRun(history, false, s.recoveryStreak + 1, AtLeastOne(rule.recoverySamples));
    }
  }

  /** Open and close actions strictly alternate, starting with an open, and the last one taken
      says whether the rule is open now. */
  lemma {:induction false} ActionsAlternate(rule: Rule, checkID: CheckID, history: seq<bool>)
    ensures var actions := Actions(rule, checkID, history);
      && (forall i :: 0 <= i < |actions| ==> actions[i] == if i % 2 == 0 then Open else Close)
      && (After(rule, checkID, history).status == OPEN <==> |actions| % 2 == 1)
  {
    if history != [] {
      hide AtLeastOne;
      ActionsAlternate(rule, checkID, history[..|history| - 1]);
    }
  }

  // ----- The engine, over interleaved samples of many checks

  datatype Event =
      Sampled(checkID: CheckID, sample: Sample, delta: Option<Delta>)
    | Recorded(ruleCode: string, checkID: CheckID, incidentID: string)

  function RunEvents(rules: seq<Rule>, events: seq<Event>): States {
    if events == [] then map[]
    else
      var states := RunEvents(rules, events[..|events| - 1]);
      match events[|events| - 1]
      case Sampled(c, s, d) => EvaluateRules(states, rules, c, s, d).0
      case Recorded(r, c, id) => Record(states, r, c, id)
  }

  /** The samples of one check, as one rule sees them. */
  function HistoryOf(rule: Rule, checkID: CheckID, events: seq<Event>): seq<bool> {
    if events == [] then []
    else
      var e := events[|events| - 1];
      var before := HistoryOf(rule, checkID, events[..|events| - 1]);
      if e.Sampled? && e.checkID == checkID then before + [IsBreached(rule, e.sample, e.delta)] else before
  }

  predicate DistinctCodes(rules: seq<Rule>) {
    && (forall i :: 0 <= i < |rules| ==> ColonFree(rules[i].ruleCode))
    && (forall i, j :: 0 <= i < j < |rules| ==> rules[i].ruleCode != rules[j].ruleCode)
  }

  /** Evaluating one check leaves the states of every other check as they were. */
  lemma {:induction false} OtherChecksUntouched(
      states: States, rules: seq<Rule>, checkID: CheckID, sample: Sample, delta: Option<Delta>,
      ruleCode: string, other: CheckID)
    requires DistinctCodes(rules) && ColonFree(ruleCode) && other != checkID
    ensures var after := EvaluateRules(states, rules, checkID, sample, delta).0;
      var key := PairKey(ruleCode, other);
      && (key in after <==> key in states)
      && (key in states ==> after[key] == states[key])
  {
    if rules != [] {
      var n := |rules| - 1;
      OtherChecksUntouched(states, rules[..n], checkID, sample, delta, ruleCode, other);
      KeysAreInjective(rules[n].ruleCode, checkID, ruleCode, other);
    }
  }

  ghost predicate NoRuleHas(rules: seq<Rule>, code: string) {
    forall i :: 0 <= i < |rules| ==> rules[i].ruleCode != code
  }

  lemma {:induction false} AbsentRuleKeepsState(
      states: States, rules: seq<Rule>, checkID: CheckID, sample: Sample, delta: Option<Delta>, code: string)
    requires DistinctCodes(rules) && ColonFree(code) && NoRuleHas(rules, code)
    ensures StateOf(EvaluateRules(states, rules, checkID, sample, delta).0, code, checkID) == StateOf(states, code, checkID)
  {
    hide Transition, IsBreached;
    if rules != [] {
      var n := |rules| - 1;
      AbsentRuleKeepsState(states, rules[..n], checkID, sample, delta, code);
      KeysAreInjective(rules[n].ruleCode, checkID, code, checkID);
    }
  }

  /** Evaluating a check moves the state of each looked-at rule by exactly one transition. */
  lemma {:induction false} EachRuleStepsOnce(
      states: States, rules: seq<Rule>, checkID: CheckID, sample: Sample, delta: Option<Delta>, rule: Rule)
    requires DistinctCodes(rules) && rule in rules && Looked(rule, checkID)
    ensures StateOf(EvaluateRules(states, rules, checkID, sample, delta).0, rule.ruleCode, checkID)
         == Transition(StateOf(states, rule.ruleCode, checkID), rule, IsBreached(rule, sample, delta)).0
  {
    hide Transition, IsBreached;
    var n := |rules| - 1;
    var front := rules[..n];
    if rule == rules[n] {
      AbsentRuleKeepsState(states, front, checkID, sample, delta, rule.ruleCode);
    } else {
      EachRuleStepsOnce(states, front, checkID, sample, delta, rule);
      KeysAreInjective(rules[n].ruleCode, checkID, rule.ruleCode, checkID);
    }
  }

  /** The rule is switched off, or lists checks but not this one. */
  predicate Idle(rule: Rule, checkID: CheckID) {
    !rule.enabled || (rule.checkIDs != [] && checkID !in rule.checkIDs)
  }

  lemma IdleIsNotLooked(rule: Rule, checkID: CheckID)
    ensures Idle(rule, checkID) <==> !Looked(rule, checkID)
  {
  }

  /** Evaluating a check creates no state for rules that are idle for it. */
  lemma {:induction false} IdleKeepsNoState(
      states: States, rules: seq<Rule>, checkID: CheckID, sample: Sample, delta: Option<Delta>, code: string)
    requires DistinctCodes(rules) && ColonFree(code) && PairKey(code, checkID) !in states
    requires forall rule :: rule in rules && rule.ruleCode == code ==> Idle(rule, checkID)
    ensures PairKey(code, checkID) !in EvaluateRules(states, rules, checkID, sample, delta).0
  {
    hide Transition, IsBreached, Idle;
    if rules != [] {
      var n := |rules| - 1;
      IdleKeepsNoState(states, rules[..n], checkID, sample, delta, code);
      KeysAreInjective(rules[n].ruleCode, checkID, code, checkID);
      IdleIsNotLooked(rules[n], checkID);
      hide PairKey, Looked;
    }
  }

  /** In every run, a rule that is idle for a check never has a state for it, and so never opens. */
  lemma {:induction false} IdleRuleNeverOpens(rules: seq<Rule>, events: seq<Event>, rule: Rule, checkID: CheckID)
    requires DistinctCodes(rules) && rule in rules && Idle(rule, checkID)
    ensures PairKey(rule.ruleCode, checkID) !in RunEvents(rules, events)
  {
    hide Transition, IsBreached, EvaluateRules, Idle;
    if events != [] {
      var front, e := events[..|events| - 1], events[|events| - 1];
      IdleRuleNeverOpens(rules, front, rule, checkID);
      var states := RunEvents(rules, front);
      match e
      case Sampled(c, s, d) =>
        if c == checkID {
          IdleKeepsNoState(states, rules, c, s, d, rule.ruleCode);
        } else {
          OtherChecksUntouched(states, rules, c, s, d, rule.ruleCode, checkID);
        }
      case Recorded(_, _, _) =>
    }
  }

  /** Status and streaks, which is all of the state but the incident recorded in it. */
  function Core(s: AlertState): AlertState {
    s.(openIncidentID := "")
  }

  lemma TransitionReadsCore(s: AlertState, t: AlertState, rule: Rule, breached: bool)
    requires Core(s) == Core(t)
    ensures Core(Transition(s, rule, breached).0) == Core(Transition(t, rule, breached).0)
  {
  }

  /** In every run, the state kept for a rule and check is the one that check's own samples
      lead to, whatever the other checks and the recorded incidents do. */
  lemma {:induction false} EngineFollowsOwnHistory(rules: seq<Rule>, events: seq<Event>, rule: Rule, checkID: CheckID)
    requires DistinctCodes(rules) && rule in rules && Looked(rule, checkID)
    ensures Core(StateOf(RunEvents(rules, events), rule.ruleCode, checkID))
         == Core(After(rule, checkID, HistoryOf(rule, checkID, events)))
  {
    if events != [] {
      hide Transition, IsBreached, EvaluateRules;
      var front, e := events[..|events| - 1], events[|events| - 1];
      EngineFollowsOwnHistory(rules, front, rule, checkID);
      var states := RunEvents(rules, front);
      var history := HistoryOf(rule, checkID, front);
      match e
      case Sampled(c, s, d) =>
        if c == checkID {
          var b := IsBreached(rule, s, d);
          EachRuleStepsOnce(states, rules, c, s, d, rule);
          TransitionReadsCore(StateOf(states, rule.ruleCode, c), After(rule, c, history), rule, b);
          assert (history + [b])[..|history|] == history;
        } else {
          OtherChecksUntouched(states, rules, c, s, d, rule.ruleCode, checkID);
        }
      case Recorded(r, c, id) =>
    }
  }

  /** In every run, a rule is OPEN for a check exactly when that check's samples show N
      consecutive breaches not yet followed by R consecutive recoveries. */
  lemma EngineOpenIffUnrecovered(rules: seq<Rule>, events: seq<Event>, rule: Rule, checkID: CheckID)
    requires DistinctCodes(rules) && rule in rules && Looked(rule, checkID)
    ensures StateOf(RunEvents(rules, events), rule.ruleCode, checkID).status == OPEN <==>
      BreachedWithoutRecovery(HistoryOf(rule, checkID, events),
                              AtLeastOne(rule.consecutiveBreaches), AtLeastOne(rule.recoverySamples))
  {
    EngineFollowsOwnHistory(rules, events, rule, checkID);
    OpenIffUnrecovered(rule, checkID, HistoryOf(rule, checkID, events));
  }

  /** A check's samples so far. */
  function SamplesIn(events: seq<Event>, checkID: CheckID): seq<Sample> {
    if events == [] then []
    else
      var before, e := SamplesIn(events[..|events| - 1], checkID), events[|events| - 1];
      if e.Sampled? && e.checkID == checkID then before + [e.sample] else before
  }

  function Last(samples: seq<Sample>): Option<Sample> {
    if samples == [] then None else Some(samples[|samples| - 1])
  }

  /** Every sample of the check comes with the delta to the check's sample before it. */
  predicate DeltasFollow(events: seq<Event>, checkID: CheckID) {
    events == [] ||
    var front, e := events[..|events| - 1], events[|events| - 1];
    && DeltasFollow(front, checkID)
    && (e.Sampled? && e.checkID == checkID ==>
          CountersFit(e.sample) && e.delta == DeltaTo(e.sample, Last(SamplesIn(front, checkID))))
  }

  /** Which samples exceed the rule's threshold, by their own figures. */
  function Exceedances(rule: Rule, samples: seq<Sample>): seq<bool> {
    if samples == [] then []
    else
      var front := samples[..|samples| - 1];
      Exceedances(rule, front) + [Exceeds(rule, samples[|samples| - 1], Last(front))]
  }

  predicate AllFit(samples: seq<Sample>) {
    forall i :: 0 <= i < |samples| ==> CountersFit(samples[i])
  }

  lemma OneMoreSample(rule: Rule, samples: seq<Sample>, s: Sample)
    requires AllFit(samples) && CountersFit(s)
    ensures AllFit(samples + [s])
    ensures Exceedances(rule, samples + [s])
         == Exceedances(rule, samples) + [IsBreached(rule, s, DeltaTo(s, Last(samples)))]
  {
    hide IsBreached, Exceeds, CountersFit, DeltaTo;
    assert (samples + [s])[..|samples|] == samples;
    BreachedIffExceeds(rule, s, Last(samples));
  }

  lemma {:induction false} HistoryIsExceedances(rule: Rule, checkID: CheckID, events: seq<Event>)
    requires DeltasFollow(events, checkID)
    ensures HistoryOf(rule, checkID, events) == Exceedances(rule, SamplesIn(events, checkID))
    ensures AllFit(SamplesIn(events, checkID))
  {
    hide IsBreached, Exceedances, CountersFit, DeltaTo, AllFit, Last;
    if events != [] {
      var front, e := events[..|events| - 1], events[|events| - 1];
      HistoryIsExceedances(rule, checkID, front);
      if e.Sampled? && e.checkID == checkID {
        OneMoreSample(rule, SamplesIn(front, checkID), e.sample);
      }
    } else {
      NothingExceeds(rule);
    }
  }

  lemma NothingExceeds(rule: Rule)
    ensures Exceedances(rule, []) == [] && AllFit([])
  {
  }

  /** In every run whose deltas are those between a check's consecutive samples, a rule is OPEN
      for the check exactly when N consecutive samples exceeded its threshold and no R
      consecutive ones since have stayed below. */
  lemma EngineOpenIffExceeded(rules: seq<Rule>, events: seq<Event>, rule: Rule, checkID: CheckID)
    requires DistinctCodes(rules) && rule in rules && Looked(rule, checkID) && DeltasFollow(events, checkID)
    ensures StateOf(RunEvents(rules, events), rule.ruleCode, checkID).status == OPEN <==>
      BreachedWithoutRecovery(Exceedances(rule, SamplesIn(events, checkID)),
                              AtLeastOne(rule.consecutiveBreaches), AtLeastOne(rule.recoverySamples))
  {
    hide *;
    EngineOpenIffUnrecovered(rules, events, rule, checkID);
    HistoryIsExceedances(rule, checkID, events);
  }

  /** The actions `results` takes for one rule. */
  function ActionsFor(results: seq<EvaluateResult>, ruleCode: string): seq<Action> {
    if results == [] then []
    else
      var r := results[|results| - 1];
      var before := ActionsFor(results[..|results| - 1], ruleCode);
      if r.ruleCode == ruleCode then before + [r.action] else before
  }

  function Act(actions: seq<Action>, a: Action): seq<Action> {
    if a.NoAction? then actions else actions + [a]
  }

  lemma CollectedAction(results: seq<EvaluateResult>, r: EvaluateResult, ruleCode: string)
    ensures ActionsFor(Collect(results, r), ruleCode) ==
      if r.ruleCode == ruleCode then Act(ActionsFor(results, ruleCode), r.action) else ActionsFor(results, ruleCode)
  {
    assert (results + [r])[..|results|] == results;
  }

  lemma TransitionNamesRule(s: AlertState, rule: Rule, breached: bool)
    ensures Transition(s, rule, breached).1.ruleCode == rule.ruleCode
  {
  }

  lemma LastRuleActs(states: States, rules: seq<Rule>, checkID: CheckID, sample: Sample, delta: Option<Delta>, code: string)
    requires rules != []
    ensures var last := rules[|rules| - 1];
      var (before, rs) := EvaluateRules(states, rules[..|rules| - 1], checkID, sample, delta);
      ActionsFor(EvaluateRules(states, rules, checkID, sample, delta).1, code) ==
        if last.ruleCode != code || !Looked(last, checkID) then ActionsFor(rs, code)
        else Act(ActionsFor(rs, code),
                 Transition(StateOf(before, code, checkID), last, IsBreached(last, sample, delta)).1.action)
  {
    hide Transition, IsBreached, ActionsFor, StateOf, Collect, Looked;
    var last := rules[|rules| - 1];
    var (before, rs) := EvaluateRules(states, rules[..|rules| - 1], checkID, sample, delta);
    var (_, r) := EvaluateRule(before, last, checkID, sample, delta);
    CollectedAction(rs, r, code);
    TransitionNamesRule(StateOf(before, last.ruleCode, checkID), last, IsBreached(last, sample, delta));
  }

  lemma {:induction false} AbsentRuleIsSilent(
      states: States, rules: seq<Rule>, checkID: CheckID, sample: Sample, delta: Option<Delta>, code: string)
    requires NoRuleHas(rules, code)
    ensures ActionsFor(EvaluateRules(states, rules, checkID, sample, delta).1, code) == []
  {
    if rules != [] {
      hide Transition, IsBreached, EvaluateRules, ActionsFor;
      AbsentRuleIsSilent(states, rules[..|rules| - 1], checkID, sample, delta, code);
      LastRuleActs(states, rules, checkID, sample, delta, code);
    }
  }

  /** A looked-at rule reports its own transition's action, once, and nothing else. */
  lemma {:induction false} EachRuleActsOnce(
      states: States, rules: seq<Rule>, checkID: CheckID, sample: Sample, delta: Option<Delta>, rule: Rule)
    requires DistinctCodes(rules) && rule in rules && Looked(rule, checkID)
    ensures ActionsFor(EvaluateRules(states, rules, checkID, sample, delta).1, rule.ruleCode)
         == Act([], Transition(StateOf(states, rule.ruleCode, checkID), rule, IsBreached(rule, sample, delta)).1.action)
  {
    hide Transition, IsBreached, EvaluateRules, ActionsFor, StateOf, Looked;
    var n := |rules| - 1;
    var front := rules[..n];
    LastRuleActs(states, rules, checkID, sample, delta, rule.ruleCode);
    if rule == rules[n] {
      AbsentRuleIsSilent(states, front, checkID, sample, delta, rule.ruleCode);
      AbsentRuleKeepsState(states, front, checkID, sample, delta, rule.ruleCode);
    } else {
      EachRuleActsOnce(states, front, checkID, sample, delta, rule);
    }
  }

  /** What the engine reports for a rule and check over a run. */
  function Reported(rules: seq<Rule>, events: seq<Event>, rule: Rule, checkID: CheckID): seq<Action> {
    if events == [] then []
    else
      var front, e := events[..|events| - 1], events[|events| - 1];
      var before := Reported(rules, front, rule, checkID);
      if e.Sampled? && e.checkID == checkID then
        before + ActionsFor(EvaluateRules(RunEvents(rules, front), rules, checkID, e.sample, e.delta).1, rule.ruleCode)
      else before
  }

  lemma TransitionActsOnCore(s: AlertState, t: AlertState, rule: Rule, breached: bool)
    requires Core(s) == Core(t)
    ensures Transition(s, rule, breached).1.action == Transition(t, rule, breached).1.action
  {
  }

  lemma {:induction false} ReportedFollowsHistory(rules: seq<Rule>, events: seq<Event>, rule: Rule, checkID: CheckID)
    requires DistinctCodes(rules) && rule in rules && Looked(rule, checkID)
    ensures Reported(rules, events, rule, checkID) == Actions(rule, checkID, HistoryOf(rule, checkID, events))
  {
    if events != [] {
      hide Transition, IsBreached, EvaluateRules, ActionsFor, RunEvents, StateOf;
      var front, e := events[..|events| - 1], events[|events| - 1];
      ReportedFollowsHistory(rules, front, rule, checkID);
      if e.Sampled? && e.checkID == checkID {
        var states, history := RunEvents(rules, front), HistoryOf(rule, checkID, front);
        var b := IsBreached(rule, e.sample, e.delta);
        EngineFollowsOwnHistory(rules, front, rule, checkID);
        EachRuleActsOnce(states, rules, checkID, e.sample, e.delta, rule);
        TransitionActsOnCore(StateOf(states, rule.ruleCode, checkID), After(rule, checkID, history), rule, b);
        assert (history + [b])[..|history|] == history;
      }
    }
  }

  /** In every run, what the engine reports for a rule and check strictly alternates between
      open and close, starting with open. */
  lemma EngineActionsAlternate(rules: seq<Rule>, events: seq<Event>, rule: Rule, checkID: CheckID)
    requires DistinctCodes(rules) && rule in rules && Looked(rule, checkID)
    ensures var actions := Reported(rules, events, rule, checkID);
      && (forall i :: 0 <= i < |actions| ==> actions[i] == if i % 2 == 0 then Open else Close)
      && (StateOf(RunEvents(rules, events), rule.ruleCode, checkID).status == OPEN <==> |actions| % 2 == 1)
  {
    ReportedFollowsHistory(rules, events, rule, checkID);
    EngineFollowsOwnHistory(rules, events, rule, checkID);
    ActionsAlternate(rule, checkID, HistoryOf(rule, checkID, events));
  }
}
