/** From check results to incidents: streak counters, open and resolve thresholds. */
module Pipeline {
  import opened Civil
  import opened Options
  import opened AlertRules
  import opened Maintenance
  import I = Incidents

  // ----- Streaks

  datatype ConsecutiveCount = ConsecutiveCount(failures: nat, successes: nat)

  type Tracker = map<string, ConsecutiveCount>

  function CountOf(t: Tracker, checkID: string): ConsecutiveCount {
    if checkID in t then t[checkID] else ConsecutiveCount(0, 0)
  }

  function Counted(t: Tracker, result: CheckResult): Tracker {
    var c := CountOf(t, result.checkID);
    t[result.checkID :=
      if result.healthy then ConsecutiveCount(0, c.successes + 1) else ConsecutiveCount(c.failures + 1, 0)]
  }

  function CountAll(t: Tracker, results: seq<CheckResult>): Tracker {
    if results == [] then t else Counted(CountAll(t, results[..|results| - 1]), results[|results| - 1])
  }

  /** The health of a check's results, oldest first. */
  function HealthOf(results: seq<CheckResult>, checkID: string): seq<bool> {
    if results == [] then []
    else
      var h, last := HealthOf(results[..|results| - 1], checkID), results[|results| - 1];
      if last.checkID == checkID then h + [last.healthy] else h
  }

  /** Exactly the last `n` entries are `b`. */
  predicate TrailingRun(h: seq<bool>, b: bool, n: nat) {
    && n <= |h|
    && (forall i :: |h| - n <= i < |h| ==> h[i] == b)
    && (n < |h| ==> h[|h| - n - 1] != b)
  }

  /** The counters are the lengths of the check's trailing unhealthy and healthy runs. */
  lemma {:induction false} CountsAreTrailingRuns(results: seq<CheckResult>, checkID: string)
    ensures var c, h := CountOf(CountAll(map[], results), checkID), HealthOf(results, checkID);
      TrailingRun(h, false, c.failures) && TrailingRun(h, true, c.successes)
  {
    if results != [] {
      CountsAreTrailingRuns(results[..|results| - 1], checkID);
    }
  }

  // ----- What a batch asks of the incident manager

  /** The configuration a batch is handled under. */
  datatype Setup = Setup(rules: seq<Rule>, checks: seq<CheckConfig>, windows: seq<Window>)

  type CheckMap = map<string, CheckConfig>

  type ResultMap = map<string, CheckResult>

  function CheckMapOf(checks: seq<CheckConfig>): CheckMap {
    if checks == [] then map[]
    else CheckMapOf(checks[..|checks| - 1])[checks[|checks| - 1].id := checks[|checks| - 1]]
  }

  function ResultMapOf(results: seq<CheckResult>): ResultMap {
    if results == [] then map[]
    else ResultMapOf(results[..|results| - 1])[results[|results| - 1].checkID := results[|results| - 1]]
  }

  /** The configured number, but at least one. */
  function FailuresToOpen(c: CheckConfig): (r: nat)
    ensures r >= 1 && r >= c.failuresToOpen && (r == 1 || r == c.failuresToOpen)
  {
    if c.failuresToOpen <= 0 then 1 else c.failuresToOpen
  }

  /** The configured number, but at least one; one for a check that is not configured. */
  function SuccessesToResolve(checks: CheckMap, checkID: string): (r: nat)
    ensures r >= 1 && (checkID !in checks ==> r == 1)
    ensures checkID in checks ==>
      var n := checks[checkID].successesToResolve; r >= n && (r == 1 || r == n)
  {
    if checkID in checks && checks[checkID].successesToResolve > 0 then checks[checkID].successesToResolve else 1
  }

  /** What one alert is decided on. */
  datatype Context = Context(
    windows: seq<Window>,
    checks: CheckMap,
    results: ResultMap,
    tracker: Tracker,
    now: Instant)

  /** The check's alerts reach the incident manager: it is not in maintenance and, after an
      unhealthy result, has failed often enough. */
  predicate Admitted(x: Context, checkID: string) {
    checkID in x.checks ==>
      && !Suppressed(x.windows, x.checks[checkID], x.now)
      && (checkID in x.results && !x.results[checkID].healthy ==>
            CountOf(x.tracker, checkID).failures >= FailuresToOpen(x.checks[checkID]))
  }

  function ReportOf(x: Context, a: Alert): I.Report {
    var metadata := map["ruleId" := a.ruleID, "ruleName" := a.ruleName, "message" := a.message];
    if a.checkID in x.results then
      var r := x.results[a.checkID];
      I.Report(a.checkID, a.checkName, r.checkType, a.severity, a.message,
               if r.server != "" then metadata["server" := r.server] else metadata)
    else I.Report(a.checkID, a.checkName, "", a.severity, a.message, metadata)
  }

  function AlertOps(x: Context, alerts: seq<Alert>): seq<I.Op> {
    if alerts == [] then []
    else
      var ops, a := AlertOps(x, alerts[..|alerts| - 1]), alerts[|alerts| - 1];
      if Admitted(x, a.checkID) then ops + [I.Alert(ReportOf(x, a), x.now)] else ops
  }

  predicate Recovered(tracker: Tracker, checks: CheckMap, result: CheckResult) {
    && result.healthy
    && CountOf(tracker, result.checkID).successes >= SuccessesToResolve(checks, result.checkID)
  }

  function RecoveryOps(tracker: Tracker, checks: CheckMap, results: seq<CheckResult>, now: Instant): seq<I.Op> {
    if results == [] then []
    else
      var ops, r := RecoveryOps(tracker, checks, results[..|results| - 1], now), results[|results| - 1];
      if Recovered(tracker, checks, r) then ops + [I.AutoResolve(r.checkID, now)] else ops
  }

  function ContextOf(s: Setup, tracker: Tracker, results: seq<CheckResult>, now: Instant): Context {
    Context(s.windows, CheckMapOf(s.checks), ResultMapOf(results), CountAll(tracker, results), now)
  }

  function IncidentAlerts(s: Setup, results: seq<CheckResult>, now: Instant): seq<Alert> {
    AlertsOf(map[], CallVisits(s.rules, results, false, now))
  }

  /** The calls a batch makes to the incident manager, in order. */
  function BatchOps(s: Setup, tracker: Tracker, results: seq<CheckResult>, now: Instant): seq<I.Op> {
    var x := ContextOf(s, tracker, results, now);
    AlertOps(x, IncidentAlerts(s, results, now)) + RecoveryOps(x.tracker, x.checks, results, x.now)
  }

  /** `ops` can lead from `m` to `m'`. */
  ghost predicate Reaches(m: I.Incidents, ops: seq<I.Op>, m': I.Incidents)
    decreases |ops|
  {
    if ops == [] then m == m'
    else exists mid :: I.Step(m, ops[0], mid) && Reaches(mid, ops[1..], m')
  }

  lemma {:induction false} ReachesTrans(m: I.Incidents, xs: seq<I.Op>, mid: I.Incidents, ys: seq<I.Op>, m': I.Incidents)
    requires Reaches(m, xs, mid) && Reaches(mid, ys, m')
    ensures Reaches(m, xs + ys, m')
    decreases |xs|
  {
    hide I.Step;
    if xs == [] {
      assert xs + ys == ys;
    } else {
      var next :| I.Step(m, xs[0], next) && Reaches(next, xs[1..], mid);
      ReachesTrans(next, xs[1..], mid, ys, m');
      assert (xs + ys)[1..] == xs[1..] + ys;
    }
  }

  lemma ReachesSnoc(m: I.Incidents, ops: seq<I.Op>, mid: I.Incidents, op: I.Op, m': I.Incidents)
    requires Reaches(m, ops, mid) && I.Step(mid, op, m')
    ensures Reaches(m, ops + [op], m')
  {
    hide I.Step;
    assert Reaches(m', [op][1..], m');
    ReachesTrans(m, ops, mid, [op], m');
  }

  lemma {:induction false} ReachesSplit(m: I.Incidents, xs: seq<I.Op>, ys: seq<I.Op>, m': I.Incidents)
      returns (mid: I.Incidents)
    requires Reaches(m, xs + ys, m')
    ensures Reaches(m, xs, mid) && Reaches(mid, ys, m')
    decreases |xs|
  {
    hide I.Step;
    if xs == [] {
      assert xs + ys == ys;
      mid := m;
    } else {
      assert (xs + ys)[1..] == xs[1..] + ys;
      var next :| I.Step(m, xs[0], next) && Reaches(next, xs[1..] + ys, m');
      mid := ReachesSplit(next, xs[1..], ys, m');
    }
  }

  // ----- The service

  class Service {
    const engine: AlertRuleEngine
    const maintenance: MaintenanceStore
    const manager: I.IncidentManager
    var checks: seq<CheckConfig>
    var tracker: Tracker

    constructor (engine: AlertRuleEngine, maintenance: MaintenanceStore, manager: I.IncidentManager)
      ensures this.engine == engine && this.maintenance == maintenance && this.manager == manager
      ensures tracker == map[]
    {
      this.engine := engine;
      this.maintenance := maintenance;
      this.manager := manager;
      checks := [];
      tracker := map[];
    }

    method UpdateConsecutiveTrackers(results: seq<CheckResult>)
      modifies this`tracker
      ensures tracker == CountAll(old(tracker), results)
    {
      for i := 0 to |results|
        invariant tracker == CountAll(old(tracker), results[..i])
      {
        var result := results[i];
        assert results[..i + 1][..i] == results[..i];
        if result.checkID !in tracker {
          tracker := tracker[result.checkID := ConsecutiveCount(0, 0)];
        }
        var cc := tracker[result.checkID];
        if result.healthy {
          tracker := tracker[result.checkID := cc.(successes := cc.successes + 1, failures := 0)];
        } else {
          tracker := tracker[result.checkID := cc.(failures := cc.failures + 1, successes := 0)];
        }
      }
      assert results[..|results|] == results;
    }

    method ProcessIncidentAlerts(alerts: seq<Alert>, checkMap: CheckMap, resultMap: ResultMap, now: Instant)
      requires I.WellKeyed(manager.repo.incidents) && I.AtMostOneOpen(manager.repo.incidents)
      modifies manager.repo
      ensures I.WellKeyed(manager.repo.incidents) && I.AtMostOneOpen(manager.repo.incidents)
      ensures Reaches(old(manager.repo.incidents),
                      AlertOps(Context(maintenance.windows, checkMap, resultMap, tracker, now), alerts),
                      manager.repo.incidents)
    {
      hide I.Step, I.WellKeyed, I.AtMostOneOpen, Suppressed, Reaches;
      ghost var x := Context(maintenance.windows, checkMap, resultMap, tracker, now);
      NothingReached(manager.repo.incidents);
      for i := 0 to |alerts|
        invariant Context(maintenance.windows, checkMap, resultMap, tracker, now) == x
        invariant I.WellKeyed(manager.repo.incidents) && I.AtMostOneOpen(manager.repo.incidents)
        invariant Reaches(old(manager.repo.incidents), AlertOps(x, alerts[..i]), manager.repo.incidents)
      {
        var alert := alerts[i];
        assert alerts[..i + 1][..i] == alerts[..i];
        if alert.checkID in checkMap {
          var muted := maintenance.IsCheckInMaintenance(checkMap[alert.checkID], now);
          if muted { continue; }
          if alert.checkID in resultMap && !resultMap[alert.checkID].healthy {
            var threshold := checkMap[alert.checkID].failuresToOpen;
            if threshold <= 0 {
              threshold := 1;
            }
            if CountOf(tracker, alert.checkID).failures < threshold { continue; }
          }
        }
        var metadata := map["ruleId" := alert.ruleID, "ruleName" := alert.ruleName, "message" := alert.message];
        var checkType := "";
        if alert.checkID in resultMap {
          checkType := resultMap[alert.checkID].checkType;
          if resultMap[alert.checkID].server != "" {
            metadata := metadata["server" := resultMap[alert.checkID].server];
          }
        }
        ghost var before := manager.repo.incidents;
        var report := I.Report(alert.checkID, alert.checkName, checkType, alert.severity, alert.message, metadata);
        var _, _ := manager.ProcessAlert(report, now);
        I.StepKeepsOneOpen(before, I.Alert(report, now), manager.repo.incidents);
        ReachesSnoc(old(manager.repo.incidents), AlertOps(x, alerts[..i]), before, I.Alert(report, now),
                    manager.repo.incidents);
      }
      assert alerts[..|alerts|] == alerts;
    }

    method AutoResolveRecovered(results: seq<CheckResult>, checkMap: CheckMap, now: Instant)
      requires I.WellKeyed(manager.repo.incidents) && I.AtMostOneOpen(manager.repo.incidents)
      modifies manager.repo
      ensures I.WellKeyed(manager.repo.incidents) && I.AtMostOneOpen(manager.repo.incidents)
      ensures Reaches(old(manager.repo.incidents),
                      RecoveryOps(tracker, checkMap, results, now), manager.repo.incidents)
    {
      hide I.Step, I.WellKeyed, I.AtMostOneOpen, Reaches;
      NothingReached(manager.repo.incidents);
      for i := 0 to |results|
        invariant tracker == old(tracker)
        invariant I.WellKeyed(manager.repo.incidents) && I.AtMostOneOpen(manager.repo.incidents)
        invariant Reaches(old(manager.repo.incidents), RecoveryOps(tracker, checkMap, results[..i], now), manager.repo.incidents)
      {
        var result := results[i];
        assert results[..i + 1][..i] == results[..i];
        if !result.healthy { continue; }
        var threshold := 1;
        if result.checkID in checkMap && checkMap[result.checkID].successesToResolve > 0 {
          threshold := checkMap[result.checkID].successesToResolve;
        }
        if CountOf(tracker, result.checkID).successes >= threshold {
          ghost var before := manager.repo.incidents;
          var _, _ := manager.AutoResolveOnRecovery(result.checkID, now);
          ghost var op := I.AutoResolve(result.checkID, now);
          I.StepKeepsOneOpen(before, op, manager.repo.incidents);
          ReachesSnoc(old(manager.repo.incidents), RecoveryOps(tracker, checkMap, results[..i], now), before, op, manager.repo.incidents);
        }
      }
      assert results[..|results|] == results;
    }

    method BuildMaps(results: seq<CheckResult>) returns (checkMap: CheckMap, resultMap: ResultMap)
      ensures checkMap == CheckMapOf(checks) && resultMap == ResultMapOf(results)
    {
      checkMap, resultMap := map[], map[];
      for i := 0 to |checks|
        invariant checkMap == CheckMapOf(checks[..i])
      {
        assert checks[..i + 1][..i] == checks[..i];
        checkMap := checkMap[checks[i].id := checks[i]];
      }
      assert checks[..|checks|] == checks;
      for i := 0 to |results|
        invariant resultMap == ResultMapOf(results[..i])
      {
        assert results[..i + 1][..i] == results[..i];
        resultMap := resultMap[results[i].checkID := results[i]];
      }
      assert results[..|results|] == results;
    }

    /** One batch: streaks are counted first, then notifications go out, then incidents are
        opened and resolved. */
    method HandleAlertResults(results: seq<CheckResult>, now: Instant) returns (notifications: seq<Alert>)
      requires I.WellKeyed(manager.repo.incidents) && I.AtMostOneOpen(manager.repo.incidents)
      modifies this`tracker, engine`lastTriggered, manager.repo
      ensures I.WellKeyed(manager.repo.incidents) && I.AtMostOneOpen(manager.repo.incidents)
      ensures tracker == CountAll(old(tracker), results)
      ensures notifications == AlertsOf(old(engine.lastTriggered), CallVisits(engine.rules, results, true, now))
      ensures engine.lastTriggered == LastAfter(old(engine.lastTriggered), CallVisits(engine.rules, results, true, now))
      ensures Reaches(old(manager.repo.incidents),
                      BatchOps(Setup(engine.rules, checks, maintenance.windows), old(tracker), results, now),
                      manager.repo.incidents)
    {
      hide I.Step, I.WellKeyed, I.AtMostOneOpen, Reaches, AlertOps, RecoveryOps;
      ghost var setup := Setup(engine.rules, checks, maintenance.windows);
      ghost var x := ContextOf(setup, tracker, results, now);
      if |results| == 0 {
        NothingToDo(manager.repo.incidents, setup, tracker, now, engine.lastTriggered);
        return [];
      }
      var checkMap, resultMap := BuildMaps(results);
      UpdateConsecutiveTrackers(results);
      notifications := engine.Evaluate(results, true, now);
      var alerts := engine.Evaluate(results, false, now);
      IncidentCallsIgnoreCooldown(
        LastAfter(old(engine.lastTriggered), CallVisits(setup.rules, results, true, now)), map[], setup.rules, results, now);
      ghost var start := manager.repo.incidents;
      ProcessIncidentAlerts(alerts, checkMap, resultMap, now);
      ghost var middle := manager.repo.incidents;
      AutoResolveRecovered(results, checkMap, now);
      ReachesTrans(start, AlertOps(x, alerts), middle, RecoveryOps(x.tracker, x.checks, results, x.now), manager.repo.incidents);
    }
  }

  lemma NothingReached(m: I.Incidents)
    ensures Reaches(m, [], m)
  {
  }

  lemma NothingToDo(m: I.Incidents, s: Setup, tracker: Tracker, now: Instant, last: Triggered)
    ensures Reaches(m, BatchOps(s, tracker, [], now), m)
    ensures AlertsOf(last, CallVisits(s.rules, [], true, now)) == []
    ensures LastAfter(last, CallVisits(s.rules, [], true, now)) == last
  {
  }

  // ----- What a batch does to a check's incident

  ghost predicate Sane(m: I.Incidents) {
    I.WellKeyed(m) && I.AtMostOneOpen(m)
  }

  ghost predicate OpenFor(m: I.Incidents, checkID: string) {
    exists id :: I.IsOpenFor(m, checkID, id)
  }

  /** The incidents of a check that are in `m'` and were not in `m`. */
  function NewIDs(m: I.Incidents, m': I.Incidents, checkID: string): set<string> {
    set id | id in m' && id !in m && m'[id].checkID == checkID
  }

  /** No incident is lost, or passed to another check. */
  ghost predicate Keeps(m: I.Incidents, m': I.Incidents) {
    forall id :: id in m ==> id in m' && m'[id].checkID == m[id].checkID
  }

  lemma AlertEffect(m: I.Incidents, r: I.Report, now: Instant, m': I.Incidents, checkID: string)
    requires Sane(m) && I.Step(m, I.Alert(r, now), m')
    ensures Sane(m') && Keeps(m, m')
    ensures checkID != r.checkID ==> (OpenFor(m', checkID) <==> OpenFor(m, checkID)) && NewIDs(m, m', checkID) == {}
    ensures var id := I.GenerateIncidentID(checkID, now);
      checkID == r.checkID ==>
        if OpenFor(m, checkID) then OpenFor(m', checkID) && NewIDs(m, m', checkID) == {}
        else if id in m then m' == m && NewIDs(m, m', checkID) == {}
        else OpenFor(m', checkID) && NewIDs(m, m', checkID) == {id}
  {
    I.StepKeepsOneOpen(m, I.Alert(r, now), m');
    hide I.GenerateIncidentID, I.SeverityHasIncreased;
    if OpenFor(m, r.checkID) {
      var id :| I.IsOpenFor(m, r.checkID, id) && m' == I.RepoStep(m, I.Apply(id, r, now));
      assert forall c, i :: I.IsOpenFor(m', c, i) <==> I.IsOpenFor(m, c, i);
    } else {
      var inc := I.NewIncident(r, now);
      if inc.id !in m {
        assert I.IsOpenFor(m', r.checkID, inc.id);
        assert forall c, i :: I.IsOpenFor(m, c, i) ==> I.IsOpenFor(m', c, i);
        assert forall c, i :: I.IsOpenFor(m', c, i) ==> I.IsOpenFor(m, c, i) || c == r.checkID;
      }
    }
  }

  predicate Resolves(op: I.Op, checkID: string) {
    op.AutoResolve? && op.checkID == checkID
  }

  lemma OtherEffect(m: I.Incidents, op: I.Op, m': I.Incidents, checkID: string)
    requires Sane(m) && I.Step(m, op, m') && (op.Ack? || op.AutoResolve? || op.Forget?)
    ensures Sane(m') && m'.Keys <= m.Keys && NewIDs(m, m', checkID) == {}
    ensures op.AutoResolve? ==> Keeps(m, m')
    ensures OpenFor(m', checkID) <==> OpenFor(m, checkID) && !Resolves(op, checkID)
  {
    I.StepKeepsOneOpen(m, op, m');
    if op.AutoResolve? && OpenFor(m, op.checkID) {
      var x :| I.IsOpenFor(m, op.checkID, x) && m' == I.RepoStep(m, I.Resolve(x, "system", op.now));
      assert forall c, i :: I.IsOpenFor(m', c, i) <==> I.IsOpenFor(m, c, i) && i != x;
    } else {
      assert forall c, i :: I.IsOpenFor(m', c, i) <==> I.IsOpenFor(m, c, i);
    }
  }

  predicate AlertsAbout(ops: seq<I.Op>, checkID: string, now: Instant) {
    forall op :: op in ops ==> op.Alert? && op.report.checkID == checkID && op.now == now
  }

  /** Any number of alerts for one check open at most one incident, and none for others. */
  lemma {:induction false} AlertsEffect(m: I.Incidents, ops: seq<I.Op>, m': I.Incidents, about: string, now: Instant, checkID: string)
    requires Sane(m) && Reaches(m, ops, m') && AlertsAbout(ops, about, now)
    ensures Sane(m') && Keeps(m, m')
    ensures var id := I.GenerateIncidentID(checkID, now);
      var opens := ops != [] && about == checkID && !OpenFor(m, checkID) && id !in m;
      && (OpenFor(m', checkID) <==> OpenFor(m, checkID) || opens)
      && NewIDs(m, m', checkID) == if opens then {id} else {}
    decreases |ops|
  {
    hide I.Step, I.GenerateIncidentID, Sane, OpenFor;
    if ops != [] {
      var mid :| I.Step(m, ops[0], mid) && Reaches(mid, ops[1..], m');
      assert ops[0] in ops;
      AlertEffect(m, ops[0].report, now, mid, checkID);
      AlertsEffect(mid, ops[1..], m', about, now, checkID);
      assert NewIDs(m, m', checkID) == NewIDs(m, mid, checkID) + NewIDs(mid, m', checkID);
    }
  }

  predicate RecoveriesOnly(ops: seq<I.Op>) {
    forall op :: op in ops ==> op.AutoResolve?
  }

  lemma {:induction false} RecoveriesEffect(m: I.Incidents, ops: seq<I.Op>, m': I.Incidents, checkID: string)
    requires Sane(m) && Reaches(m, ops, m') && RecoveriesOnly(ops)
    ensures Sane(m') && m'.Keys <= m.Keys && Keeps(m, m')
    ensures OpenFor(m', checkID) <==> OpenFor(m, checkID) && forall op :: op in ops ==> !Resolves(op, checkID)
    decreases |ops|
  {
    hide I.Step, Sane, OpenFor;
    if ops != [] {
      var mid :| I.Step(m, ops[0], mid) && Reaches(mid, ops[1..], m');
      assert ops[0] in ops;
      OtherEffect(m, ops[0], mid, checkID);
      RecoveriesEffect(mid, ops[1..], m', checkID);
      assert ops == [ops[0]] + ops[1..];
    }
  }

  lemma {:induction false} RecoveryOpsAre(tracker: Tracker, checks: CheckMap, results: seq<CheckResult>, now: Instant, checkID: string)
    ensures RecoveriesOnly(RecoveryOps(tracker, checks, results, now))
    ensures (exists op :: op in RecoveryOps(tracker, checks, results, now) && Resolves(op, checkID)) <==>
      exists r :: r in results && r.checkID == checkID && Recovered(tracker, checks, r)
  {
    if results != [] {
      hide Recovered;
      var front, r := results[..|results| - 1], results[|results| - 1];
      RecoveryOpsAre(tracker, checks, front, now, checkID);
      assert results == front + [r];
      var ops := RecoveryOps(tracker, checks, results, now);
      if Recovered(tracker, checks, r) {
        assert ops == RecoveryOps(tracker, checks, front, now) + [I.AutoResolve(r.checkID, now)];
        assert I.AutoResolve(r.checkID, now) in ops;
      }
    }
  }

  lemma ReportAbout(x: Context, a: Alert)
    ensures ReportOf(x, a).checkID == a.checkID
  {
  }

  lemma {:induction false} AlertOpsAre(x: Context, alerts: seq<Alert>, checkID: string)
    requires forall i :: 0 <= i < |alerts| ==> alerts[i].checkID == checkID
    ensures AlertsAbout(AlertOps(x, alerts), checkID, x.now)
    ensures AlertOps(x, alerts) != [] <==> alerts != [] && Admitted(x, checkID)
  {
    if alerts != [] {
      hide Admitted, ReportOf;
      AlertOpsAre(x, alerts[..|alerts| - 1], checkID);
      ReportAbout(x, alerts[|alerts| - 1]);
    }
  }

  predicate Fires(s: Setup, r: CheckResult) {
    exists rule :: rule in s.rules && Matches(rule, r)
  }

  lemma IncidentAlertsOfOne(s: Setup, r: CheckResult, now: Instant)
    ensures forall a :: a in IncidentAlerts(s, [r], now) ==> a.checkID == r.checkID
    ensures IncidentAlerts(s, [r], now) != [] <==> Fires(s, r)
  {
    hide Matches, AlertsOf, CallVisits;
    var alerts := IncidentAlerts(s, [r], now);
    forall a | a in alerts
      ensures a.checkID == r.checkID && Fires(s, r)
    {
      IncidentAlertsAreMatches(map[], s.rules, [r], now, a);
    }
    if alerts != [] {
      assert alerts[0] in alerts;
    }
    if rule :| rule in s.rules && Matches(rule, r) {
      assert r in [r];
      IncidentAlertsAreMatches(map[], s.rules, [r], now, BuildAlert(rule, r, now));
    }
  }

  predicate Opens(s: Setup, tracker: Tracker, r: CheckResult, now: Instant) {
    Fires(s, r) && Admitted(ContextOf(s, tracker, [r], now), r.checkID)
  }

  /** One result: its check has an open incident afterwards exactly when it had one or the
      result opens one (whose ID must be free), and the result is no recovery; at most one
      incident is created, and other checks are left alone. */
  lemma OneResultDecides(s: Setup, tracker: Tracker, r: CheckResult, now: Instant, m: I.Incidents, m': I.Incidents, checkID: string)
    requires Sane(m) && Reaches(m, BatchOps(s, tracker, [r], now), m')
    ensures Sane(m')
    ensures var opens := checkID == r.checkID && Opens(s, tracker, r, now) && !OpenFor(m, checkID)
                         && I.GenerateIncidentID(checkID, now) !in m;
      var recovers := checkID == r.checkID && Recovered(CountAll(tracker, [r]), CheckMapOf(s.checks), r);
      && (OpenFor(m', checkID) <==> (OpenFor(m, checkID) || opens) && !recovers)
      && |NewIDs(m, m', checkID)| == if opens then 1 else 0
  {
    hide Sane, OpenFor, Reaches, Admitted, Recovered, IncidentAlerts, AlertOps, RecoveryOps, I.GenerateIncidentID;
    var x := ContextOf(s, tracker, [r], now);
    var alerts := IncidentAlerts(s, [r], now);
    var mid := ReachesSplit(m, AlertOps(x, alerts), RecoveryOps(x.tracker, x.checks, [r], x.now), m');
    IncidentAlertsOfOne(s, r, now);
    AlertOpsAre(x, alerts, r.checkID);
    AlertsEffect(m, AlertOps(x, alerts), mid, r.checkID, now, checkID);
    RecoveryOpsAre(x.tracker, x.checks, [r], x.now, checkID);
    assert r in [r];
    RecoveriesEffect(mid, RecoveryOps(x.tracker, x.checks, [r], x.now), m', checkID);
    assert NewIDs(m, m', checkID) == NewIDs(m, mid, checkID);
  }

  // ----- Runs

  /** A batch of results, or a call that comes from elsewhere. */
  datatype Event = Batch(setup: Setup, results: seq<CheckResult>, now: Instant) | Outside(op: I.Op)

  datatype State = State(incidents: I.Incidents, tracker: Tracker)

  ghost predicate Next(w: State, e: Event, w': State) {
    match e
    case Batch(s, results, now) =>
      && w'.tracker == CountAll(w.tracker, results)
      && Reaches(w.incidents, BatchOps(s, w.tracker, results, now), w'.incidents)
    case Outside(op) => w'.tracker == w.tracker && I.Step(w.incidents, op, w'.incidents)
  }

  ghost predicate Run(ws: seq<State>, es: seq<Event>) {
    && |ws| == |es| + 1
    && ws[0] == State(map[], map[])
    && forall i :: 0 <= i < |es| ==> Next(ws[i], es[i], ws[i + 1])
  }

  function History(es: seq<Event>): seq<CheckResult> {
    if es == [] then []
    else
      var before, e := History(es[..|es| - 1]), es[|es| - 1];
      if e.Batch? then before + e.results else before
  }

  lemma {:induction false} ReachesKeepsSane(m: I.Incidents, ops: seq<I.Op>, m': I.Incidents)
    requires Sane(m) && Reaches(m, ops, m')
    ensures Sane(m')
    decreases |ops|
  {
    if ops != [] {
      hide I.Step, I.WellKeyed, I.AtMostOneOpen;
      var mid :| I.Step(m, ops[0], mid) && Reaches(mid, ops[1..], m');
      I.StepKeepsOneOpen(m, ops[0], mid);
      ReachesKeepsSane(mid, ops[1..], m');
    }
  }

  lemma {:induction false} RunIsSane(ws: seq<State>, es: seq<Event>, i: nat)
    requires Run(ws, es) && i < |ws|
    ensures Sane(ws[i].incidents)
  {
    hide Reaches, I.Step, BatchOps;
    if i == 0 {
      assert I.WellKeyed(ws[0].incidents) && I.AtMostOneOpen(ws[0].incidents);
    } else {
      hide I.WellKeyed, I.AtMostOneOpen;
      RunIsSane(ws, es, i - 1);
      assert Next(ws[i - 1], es[i - 1], ws[i - 1 + 1]);
      match es[i - 1]
      case Batch(s, results, now) =>
        ReachesKeepsSane(ws[i - 1].incidents, BatchOps(s, ws[i - 1].tracker, results, now), ws[i].incidents);
      case Outside(op) => I.StepKeepsOneOpen(ws[i - 1].incidents, op, ws[i].incidents);
    }
  }

  lemma {:induction false} CountAllJoins(t: Tracker, xs: seq<CheckResult>, ys: seq<CheckResult>)
    ensures CountAll(t, xs + ys) == CountAll(CountAll(t, xs), ys)
  {
    if ys == [] {
      assert xs + ys == xs;
    } else {
      var n := |ys| - 1;
      assert (xs + ys)[..|xs| + n] == xs + ys[..n];
      CountAllJoins(t, xs, ys[..n]);
    }
  }

  lemma {:induction false} TrackerFollowsHistory(ws: seq<State>, es: seq<Event>, i: nat)
    requires Run(ws, es) && i < |ws|
    ensures ws[i].tracker == CountAll(map[], History(es[..i]))
  {
    hide Reaches, I.Step, BatchOps;
    if i > 0 {
      TrackerFollowsHistory(ws, es, i - 1);
      assert Next(ws[i - 1], es[i - 1], ws[i - 1 + 1]);
      assert es[..i][..i - 1] == es[..i - 1];
      if es[i - 1].Batch? {
        CountAllJoins(map[], History(es[..i - 1]), es[i - 1].results);
      }
    }
  }

  // ----- Recovery resolves

  lemma {:induction false} HealthJoins(xs: seq<CheckResult>, ys: seq<CheckResult>, checkID: string)
    ensures HealthOf(xs + ys, checkID) == HealthOf(xs, checkID) + HealthOf(ys, checkID)
  {
    if ys == [] {
      assert xs + ys == xs;
    } else {
      var n := |ys| - 1;
      assert (xs + ys)[..|xs| + n] == xs + ys[..n];
      HealthJoins(xs, ys[..n], checkID);
    }
  }

  lemma {:induction false} HealthComesFromResults(results: seq<CheckResult>, checkID: string)
    ensures HealthOf(results, checkID) != [] <==> exists r :: r in results && r.checkID == checkID
    ensures forall b :: b in HealthOf(results, checkID) ==>
      exists r :: r in results && r.checkID == checkID && r.healthy == b
  {
    if results != [] {
      var front, last := results[..|results| - 1], results[|results| - 1];
      HealthComesFromResults(front, checkID);
      assert results == front + [last];
    }
  }

  /** A batch with a healthy result of a check whose streak of successes is long enough leaves
      the check without an unresolved incident, whatever else is in the batch. */
  lemma RecoveredMeansResolved(s: Setup, tracker: Tracker, results: seq<CheckResult>, now: Instant, m: I.Incidents, m': I.Incidents, r: CheckResult)
    requires Sane(m) && Reaches(m, BatchOps(s, tracker, results, now), m')
    requires r in results && Recovered(CountAll(tracker, results), CheckMapOf(s.checks), r)
    ensures !OpenFor(m', r.checkID)
  {
    hide Sane, OpenFor, Reaches, Recovered, IncidentAlerts, AlertOps, RecoveryOps;
    var x := ContextOf(s, tracker, results, now);
    var alertOps := AlertOps(x, IncidentAlerts(s, results, now));
    var mid := ReachesSplit(m, alertOps, RecoveryOps(x.tracker, x.checks, results, x.now), m');
    ReachesKeepsSane(m, alertOps, mid);
    RecoveryOpsAre(x.tracker, x.checks, results, x.now, r.checkID);
    RecoveriesEffect(mid, RecoveryOps(x.tracker, x.checks, results, x.now), m', r.checkID);
  }

  /** After any batch with a result of the check, if the check's last SuccessesToResolve
      results are healthy then it has no unresolved incident: in every run, with batches of
      any size and any other calls in between. */
  lemma HealthyStreakResolves(ws: seq<State>, es: seq<Event>, i: nat, checkID: string)
    requires Run(ws, es) && i < |es| && es[i].Batch?
    requires exists r :: r in es[i].results && r.checkID == checkID
    requires var h := HealthOf(History(es[..i + 1]), checkID);
      var n := SuccessesToResolve(CheckMapOf(es[i].setup.checks), checkID);
      n <= |h| && forall j :: |h| - n <= j < |h| ==> h[j]
    ensures !OpenFor(ws[i + 1].incidents, checkID)
  {
    hide Sane, OpenFor, Reaches, BatchOps, CountAll, HealthOf;
    var s, results, now := es[i].setup, es[i].results, es[i].now;
    var h := HealthOf(History(es[..i + 1]), checkID);
    assert es[..i + 1][..i] == es[..i];
    HealthJoins(History(es[..i]), results, checkID);
    HealthComesFromResults(results, checkID);
    var recent := HealthOf(results, checkID);
    assert h[|h| - 1] == recent[|recent| - 1] && recent[|recent| - 1] in recent;
    var r :| r in results && r.checkID == checkID && r.healthy;
    RunIsSane(ws, es, i);
    TrackerFollowsHistory(ws, es, i);
    TrackerFollowsHistory(ws, es, i + 1);
    CountsAreTrailingRuns(History(es[..i + 1]), checkID);
    assert Next(ws[i], es[i], ws[i + 1]);
    RecoveredMeansResolved(s, ws[i].tracker, results, now, ws[i].incidents, ws[i + 1].incidents, r);
  }

  /** The last `n` entries are there, and all `b`. */
  predicate LastAre(h: seq<bool>, b: bool, n: nat) {
    n <= |h| && forall i :: |h| - n <= i < |h| ==> h[i] == b
  }

  lemma RunReaches(h: seq<bool>, b: bool, run: nat, n: nat)
    requires TrailingRun(h, b, run)
    ensures run >= n <==> LastAre(h, b, n)
  {
    if run < n <= |h| {
      assert h[|h| - run - 1] != b;
    }
  }

  /** The result opens an incident if the check has none: a rule fires, the check is not in
      maintenance, and after an unhealthy result the last FailuresToOpen are unhealthy.  Only
      the first applies to a check that is not configured. */
  predicate CallsForIncident(s: Setup, r: CheckResult, now: Instant, h: seq<bool>) {
    && Fires(s, r)
    && (r.checkID in CheckMapOf(s.checks) ==>
          var check := CheckMapOf(s.checks)[r.checkID];
          && !Suppressed(s.windows, check, now)
          && (!r.healthy ==> LastAre(h, false, FailuresToOpen(check))))
  }

  /** In every run, every result settles what becomes of its check's incident by the check's
      history: it is open afterwards exactly if it was, or the result calls for one and the new
      ID is free, and the last SuccessesToResolve results are not all healthy. */
  lemma IncidentFollowsHistory(ws: seq<State>, es: seq<Event>, i: nat, r: CheckResult)
    requires Run(ws, es) && i < |es| && es[i].Batch? && es[i].results == [r]
    ensures var s, now, c := es[i].setup, es[i].now, r.checkID;
      var h, was := HealthOf(History(es[..i + 1]), c), OpenFor(ws[i].incidents, c);
      var opens := CallsForIncident(s, r, now, h) && I.GenerateIncidentID(c, now) !in ws[i].incidents;
      OpenFor(ws[i + 1].incidents, c) <==>
        (was || opens) && !LastAre(h, true, SuccessesToResolve(CheckMapOf(s.checks), c))
  {
    var s, now, c := es[i].setup, es[i].now, r.checkID;
    var h := HealthOf(History(es[..i + 1]), c);
    RunIsSane(ws, es, i);
    TrackerFollowsHistory(ws, es, i + 1);
    CountsAreTrailingRuns(History(es[..i + 1]), c);
    assert Next(ws[i], es[i], ws[i + 1]);
    hide Run, Sane, OpenFor, Reaches, BatchOps, Fires, CheckMapOf, Suppressed, I.GenerateIncidentID, HealthOf, History,
      TrailingRun, LastAre;
    OneResultDecides(s, ws[i].tracker, r, now, ws[i].incidents, ws[i + 1].incidents, c);
    OneCounts(ws[i].tracker, r);
    if c in CheckMapOf(s.checks) {
      RunReaches(h, false, CountOf(ws[i + 1].tracker, c).failures, FailuresToOpen(CheckMapOf(s.checks)[c]));
    }
    RunReaches(h, true, CountOf(ws[i + 1].tracker, c).successes, SuccessesToResolve(CheckMapOf(s.checks), c));
  }

  // ----- Every creation takes results

  /** One result per batch, fixed thresholds F and S for the check, rules that fire only on
      unhealthy results, and no manual resolution. */
  predicate Fixed(e: Event, checkID: string, f: nat, s: nat) {
    match e
    case Batch(setup, results, now) =>
      && |results| == 1
      && (results[0].checkID == checkID ==>
            && checkID in CheckMapOf(setup.checks)
            && FailuresToOpen(CheckMapOf(setup.checks)[checkID]) == f
            && SuccessesToResolve(CheckMapOf(setup.checks), checkID) == s
            && (results[0].healthy ==> !Fires(setup, results[0])))
    case Outside(op) => op.Ack? || op.Forget?
  }

  /** How many incidents of the check were created in a run. */
  function Creations(ws: seq<State>, checkID: string): nat {
    if |ws| <= 1 then 0
    else
      var n := |ws| - 1;
      Creations(ws[..n], checkID) + |NewIDs(ws[n - 1].incidents, ws[n].incidents, checkID)|
  }

  /** `k` creations are paid for: the last one by f failures, all before by f + s results. */
  ghost predicate Paid(w: State, checkID: string, k: nat, n: nat, f: nat, s: nat) {
    var c := CountOf(w.tracker, checkID);
    if OpenFor(w.incidents, checkID) then k >= 1 && n + s >= k * (f + s) + c.successes
    else n >= k * (f + s) + c.failures
  }

  lemma ResultPays(w: State, e: Event, w': State, checkID: string, k: nat, n: nat, f: nat, s: nat)
    requires Sane(w.incidents) && Next(w, e, w') && Fixed(e, checkID, f, s) && Paid(w, checkID, k, n, f, s)
    requires e.Batch? && e.results[0].checkID == checkID
    ensures Paid(w', checkID, k + |NewIDs(w.incidents, w'.incidents, checkID)|, n + 1, f, s)
  {
    hide Sane, OpenFor, Reaches, BatchOps, Fires, NewIDs, CheckMapOf, Suppressed, I.GenerateIncidentID;
    var r := e.results[0];
    assert e.results == [r];
    OneResultDecides(e.setup, w.tracker, r, e.now, w.incidents, w'.incidents, checkID);
    OneCounts(w.tracker, r);
    var x := ContextOf(e.setup, w.tracker, [r], e.now);
    Distribute(k, f + s);
  }

  lemma Distribute(k: nat, x: nat)
    ensures (k + 1) * x == k * x + x
  {
  }

  lemma OneCounts(tracker: Tracker, r: CheckResult)
    ensures CountAll(tracker, [r]) == Counted(tracker, r) && ResultMapOf([r]) == map[r.checkID := r]
  {
    assert [r][..0] == [];
  }

  lemma OthersPay(w: State, e: Event, w': State, checkID: string, k: nat, n: nat, f: nat, s: nat)
    requires Sane(w.incidents) && Next(w, e, w') && Fixed(e, checkID, f, s) && Paid(w, checkID, k, n, f, s)
    requires e.Batch? ==> e.results[0].checkID != checkID
    ensures Paid(w', checkID, k, n, f, s) && |NewIDs(w.incidents, w'.incidents, checkID)| == 0
  {
    hide Sane, OpenFor, Reaches, BatchOps, Fires, NewIDs, I.Step;
    match e
    case Batch(setup, results, now) =>
      assert results == [results[0]];
      OneResultDecides(setup, w.tracker, results[0], now, w.incidents, w'.incidents, checkID);
      OneCounts(w.tracker, results[0]);
    case Outside(op) =>
      OtherEffect(w.incidents, op, w'.incidents, checkID);
  }

  lemma CreationsStep(ws: seq<State>, i: nat, checkID: string)
    requires 0 < i < |ws|
    ensures Creations(ws[..i + 1], checkID) ==
      Creations(ws[..i], checkID) + |NewIDs(ws[i - 1].incidents, ws[i].incidents, checkID)|
  {
    hide NewIDs;
    assert ws[..i + 1][..i] == ws[..i];
  }

  lemma HistoryStep(es: seq<Event>, i: nat, checkID: string)
    requires 0 < i <= |es|
    ensures |HealthOf(History(es[..i]), checkID)| ==
      |HealthOf(History(es[..i - 1]), checkID)| + if es[i - 1].Batch? then |HealthOf(es[i - 1].results, checkID)| else 0
  {
    hide HealthOf;
    assert es[..i][..i - 1] == es[..i - 1];
    if es[i - 1].Batch? {
      HealthJoins(History(es[..i - 1]), es[i - 1].results, checkID);
    }
  }

  lemma EventPays(w: State, e: Event, w': State, checkID: string, k: nat, n: nat, f: nat, s: nat)
    requires Sane(w.incidents) && Next(w, e, w') && Fixed(e, checkID, f, s) && Paid(w, checkID, k, n, f, s)
    ensures Paid(w', checkID, k + |NewIDs(w.incidents, w'.incidents, checkID)|,
                 n + if e.Batch? then |HealthOf(e.results, checkID)| else 0, f, s)
  {
    hide Sane, Next, Fixed, Paid, NewIDs, HealthOf;
    if e.Batch? {
      OneHealth(e, checkID, f, s);
    }
    if e.Batch? && e.results[0].checkID == checkID {
      ResultPays(w, e, w', checkID, k, n, f, s);
    } else {
      OthersPay(w, e, w', checkID, k, n, f, s);
    }
  }

  lemma {:induction false} CreationsArePaid(ws: seq<State>, es: seq<Event>, i: nat, checkID: string, f: nat, s: nat)
    requires Run(ws, es) && i < |ws| && forall j :: 0 <= j < i ==> Fixed(es[j], checkID, f, s)
    ensures Paid(ws[i], checkID, Creations(ws[..i + 1], checkID), |HealthOf(History(es[..i]), checkID)|, f, s)
  {
    hide *;
    RunLength(ws, es);
    if i == 0 {
      PaidAtStart(ws, es, checkID, f, s);
    } else {
      var w, e, w' := ws[i - 1], es[i - 1], ws[i];
      var k, n := Creations(ws[..i], checkID), |HealthOf(History(es[..i - 1]), checkID)|;
      CreationsArePaid(ws, es, i - 1, checkID, f, s);
      RunIsSane(ws, es, i - 1);
      RunNext(ws, es, i - 1);
      CreationsStep(ws, i, checkID);
      HistoryStep(es, i, checkID);
      EventPays(w, e, w', checkID, k, n, f, s);
    }
  }

  lemma RunNext(ws: seq<State>, es: seq<Event>, i: nat)
    requires Run(ws, es) && i < |es|
    ensures i + 1 < |ws| && Next(ws[i], es[i], ws[i + 1])
  {
    hide Next;
  }

  lemma PaidAtStart(ws: seq<State>, es: seq<Event>, checkID: string, f: nat, s: nat)
    requires Run(ws, es)
    ensures Paid(ws[0], checkID, Creations(ws[..1], checkID), |HealthOf(History(es[..0]), checkID)|, f, s)
  {
    hide Next;
    NothingToPay(ws[0], checkID, f, s);
  }

  lemma NothingToPay(w: State, checkID: string, f: nat, s: nat)
    requires w == State(map[], map[])
    ensures Paid(w, checkID, 0, 0, f, s)
  {
  }

  lemma OneHealth(e: Event, checkID: string, f: nat, s: nat)
    requires e.Batch? && Fixed(e, checkID, f, s)
    ensures |e.results| == 1
    ensures |HealthOf(e.results, checkID)| == if e.results[0].checkID == checkID then 1 else 0
  {
    assert e.results[..0] == [];
  }

  /** The k-th incident of a check takes at least F + (k - 1)(F + S) of its results. */
  lemma CreationsNeedResults(ws: seq<State>, es: seq<Event>, checkID: string, f: nat, s: nat)
    requires Run(ws, es) && forall e :: e in es ==> Fixed(e, checkID, f, s)
    requires Creations(ws, checkID) >= 1
    ensures var k, n := Creations(ws, checkID), |HealthOf(History(es), checkID)|;
      n >= f + (k - 1) * (f + s)
  {
    hide *;
    RunLength(ws, es);
    assert ws[..|ws|] == ws && es[..|es|] == es;
    CreationsArePaid(ws, es, |es|, checkID, f, s);
    PaidBounds(ws[|es|], checkID, Creations(ws, checkID), |HealthOf(History(es), checkID)|, f, s);
  }

  lemma RunLength(ws: seq<State>, es: seq<Event>)
    requires Run(ws, es)
    ensures |ws| == |es| + 1
  {
  }

  lemma PaidBounds(w: State, checkID: string, k: nat, n: nat, f: nat, s: nat)
    requires Paid(w, checkID, k, n, f, s) && k >= 1
    ensures n >= f + (k - 1) * (f + s)
  {
    hide OpenFor;
    Distribute(k - 1, f + s);
  }
}
