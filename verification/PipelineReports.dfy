/** What reaches the incident manager, in terms of the rules and results it comes from, and what
    an incident opened by it says. */
module PipelineReports {
  import opened Civil
  import opened Options
  import opened Text
  import opened AlertRules
  import opened Maintenance
  import opened Pipeline
  import I = Incidents

  // ----- The two maps hold the last entry of each key

  lemma {:induction false} CheckMapIsLast(checks: seq<CheckConfig>, id: string)
    ensures if id in CheckMapOf(checks)
            then exists i :: 0 <= i < |checks| && checks[i].id == id && CheckMapOf(checks)[id] == checks[i]
                   && forall j :: i < j < |checks| ==> checks[j].id != id
            else forall i :: 0 <= i < |checks| ==> checks[i].id != id
  {
    if checks != [] {
      var n := |checks| - 1;
      CheckMapIsLast(checks[..n], id);
      if checks[n].id == id {
        assert CheckMapOf(checks)[id] == checks[n];
      } else if id in CheckMapOf(checks) {
        var i :| 0 <= i < n && checks[..n][i].id == id && CheckMapOf(checks[..n])[id] == checks[..n][i]
                 && forall j :: i < j < n ==> checks[..n][j].id != id;
        assert checks[i].id == id && forall j :: i < j < |checks| ==> checks[j].id != id;
      }
    }
  }

  /** `last` is the last result of its check in the batch. */
  predicate IsLast(results: seq<CheckResult>, last: CheckResult) {
    exists i :: 0 <= i < |results| && results[i] == last
      && forall j :: i < j < |results| ==> results[j].checkID != last.checkID
  }

  lemma {:induction false} ResultMapHoldsLast(results: seq<CheckResult>, c: string)
    ensures if c in ResultMapOf(results)
            then ResultMapOf(results)[c].checkID == c && IsLast(results, ResultMapOf(results)[c])
            else forall r :: r in results ==> r.checkID != c
  {
    if results != [] {
      var n := |results| - 1;
      ResultMapHoldsLast(results[..n], c);
      if results[n].checkID == c {
        assert ResultMapOf(results)[c] == results[n];
      } else if c in ResultMapOf(results) {
        var last := ResultMapOf(results)[c];
        var i :| 0 <= i < n && results[..n][i] == last && forall j :: i < j < n ==> results[..n][j].checkID != c;
        assert results[i] == last && forall j :: i < j < |results| ==> results[j].checkID != c;
      } else {
        assert results == results[..n] + [results[n]];
      }
    }
  }

  // ----- Reports, by their rules and results

  /** The report of a rule that matches a result: severity, message and names from the two, the
      kind and server from the check's last result. */
  predicate ReportsMatch(report: I.Report, rule: Rule, r: CheckResult, last: CheckResult) {
    && report.checkID == r.checkID && report.checkName == r.name
    && report.kind == last.checkType
    && report.severity == rule.severity
    && report.metadata.Keys == {"ruleId", "ruleName", "message"} + (if last.server != "" then {"server"} else {})
    && report.metadata["ruleId"] == rule.id && report.metadata["ruleName"] == rule.name
    && report.metadata["message"] == report.message
    && (last.server != "" ==> report.metadata["server"] == last.server)
  }

  lemma ReportOfMatch(x: Context, rule: Rule, r: CheckResult, now: Instant)
    requires r.checkID in x.results
    ensures ReportsMatch(ReportOf(x, BuildAlert(rule, r, now)), rule, r, x.results[r.checkID])
  {
  }

  lemma {:induction false} AlertOpsFrom(x: Context, alerts: seq<Alert>, op: I.Op)
    ensures op in AlertOps(x, alerts) <==>
      exists a :: a in alerts && Admitted(x, a.checkID) && op == I.Alert(ReportOf(x, a), x.now)
  {
    if alerts != [] {
      hide Admitted, ReportOf;
      var front, a := alerts[..|alerts| - 1], alerts[|alerts| - 1];
      AlertOpsFrom(x, front, op);
      assert alerts == front + [a];
      assert a in alerts && forall b :: b in alerts <==> b in front || b == a;
    }
  }

  lemma {:induction false} RecoveriesAreNoAlerts(tracker: Tracker, checks: CheckMap, results: seq<CheckResult>, now: Instant)
    ensures forall op :: op in RecoveryOps(tracker, checks, results, now) ==> op.AutoResolve? && op.now == now
  {
    if results != [] {
      hide Recovered;
      RecoveriesAreNoAlerts(tracker, checks, results[..|results| - 1], now);
    }
  }

  /** Every alert a batch hands to the incident manager comes from one of its results and a
      rule that matches it, and says so. */
  lemma EveryReportMatches(s: Setup, tracker: Tracker, results: seq<CheckResult>, now: Instant, op: I.Op)
    requires op in BatchOps(s, tracker, results, now) && op.Alert?
    ensures exists rule, r, last ::
      && rule in s.rules && r in results && Matches(rule, r)
      && IsLast(results, last) && last.checkID == r.checkID
      && ReportsMatch(op.report, rule, r, last) && op.now == now
  {
    hide Matches, Admitted, AlertOps, RecoveryOps, IncidentAlerts, BuildAlert, ReportOf, CheckMapOf, ResultMapOf, ReportsMatch,
      IsLast;
    var x := ContextOf(s, tracker, results, now);
    var alerts := IncidentAlerts(s, results, now);
    RecoveriesAreNoAlerts(x.tracker, x.checks, results, now);
    AlertOpsFrom(x, alerts, op);
    var a :| a in alerts && Admitted(x, a.checkID) && op == I.Alert(ReportOf(x, a), x.now);
    var rule, r := AlertFromMatch(s, results, now, a);
    BuiltAlert(rule, r, now);
    ResultMapHoldsLast(results, r.checkID);
    ReportOfMatch(x, rule, r, now);
  }

  lemma AlertFromMatch(s: Setup, results: seq<CheckResult>, now: Instant, a: Alert) returns (rule: Rule, r: CheckResult)
    requires a in IncidentAlerts(s, results, now)
    ensures rule in s.rules && r in results && Matches(rule, r) && a == BuildAlert(rule, r, now)
  {
    hide Matches, BuildAlert, CallVisits, AlertsOf;
    IncidentAlertsAreMatches(map[], s.rules, results, now, a);
    rule, r :| rule in s.rules && r in results && Matches(rule, r) && a == BuildAlert(rule, r, now);
  }

  /** And every rule that matches a result of a check that is let through is handed over. */
  lemma EveryMatchIsReported(s: Setup, tracker: Tracker, results: seq<CheckResult>, now: Instant, rule: Rule, r: CheckResult)
    requires rule in s.rules && r in results && Matches(rule, r)
    requires Admitted(ContextOf(s, tracker, results, now), r.checkID)
    ensures exists op, last ::
      && op in BatchOps(s, tracker, results, now) && op.Alert?
      && IsLast(results, last) && last.checkID == r.checkID
      && ReportsMatch(op.report, rule, r, last)
  {
    hide Matches, Admitted, AlertOps, RecoveryOps, IncidentAlerts, BuildAlert, ReportOf, CheckMapOf, ResultMapOf, ReportsMatch,
      IsLast;
    var x := ContextOf(s, tracker, results, now);
    var a := BuildAlert(rule, r, now);
    MatchRaises(s, results, now, rule, r);
    BuiltAlert(rule, r, now);
    var op := I.Alert(ReportOf(x, a), x.now);
    AlertOpsFrom(x, IncidentAlerts(s, results, now), op);
    ResultMapHoldsLast(results, r.checkID);
    ReportOfMatch(x, rule, r, now);
    assert op in BatchOps(s, tracker, results, now);
  }

  lemma MatchRaises(s: Setup, results: seq<CheckResult>, now: Instant, rule: Rule, r: CheckResult)
    requires rule in s.rules && r in results && Matches(rule, r)
    ensures BuildAlert(rule, r, now) in IncidentAlerts(s, results, now)
  {
    hide Matches, BuildAlert, CallVisits, AlertsOf;
    IncidentAlertsAreMatches(map[], s.rules, results, now, BuildAlert(rule, r, now));
  }

  // ----- What a new incident says

  function ReportsIn(ops: seq<I.Op>): seq<I.Report>
    requires forall op :: op in ops ==> op.Alert?
  {
    seq(|ops|, i requires 0 <= i < |ops| => assert ops[i] in ops; ops[i].report)
  }

  lemma UpdateStep(m: I.Incidents, op: I.Op, m': I.Incidents, c: string, id: string, told: seq<I.Report>)
    requires Sane(m) && I.Step(m, op, m') && op.Alert? && op.report.checkID == c
    requires I.IsOpenFor(m, c, id) && I.TellsOf(m[id], told)
    ensures Sane(m') && I.IsOpenFor(m', c, id) && I.TellsOf(m'[id], told + [op.report])
  {
    I.StepKeepsOneOpen(m, op, m');
    TheOnlyOpen(m, op, m', id);
    I.UpdateTells(m[id], op.report, op.now, told);
    hide I.Step, I.TellsOf, I.SeverityHasIncreased, I.WellKeyed, I.AtMostOneOpen;
  }

  /** Alerts that find the check's incident open add to what it tells of. */
  lemma {:induction false} UpdatesTell(m: I.Incidents, ops: seq<I.Op>, m': I.Incidents, c: string, now: Instant, id: string, told: seq<I.Report>)
    requires Sane(m) && Reaches(m, ops, m') && AlertsAbout(ops, c, now)
    requires I.IsOpenFor(m, c, id) && I.TellsOf(m[id], told)
    ensures id in m' && I.TellsOf(m'[id], told + ReportsIn(ops))
    decreases |ops|
  {
    hide Sane, I.Step, I.TellsOf;
    if ops == [] {
      assert told + ReportsIn(ops) == told;
    } else {
      var mid :| I.Step(m, ops[0], mid) && Reaches(mid, ops[1..], m');
      assert ops[0] in ops;
      var r := ops[0].report;
      UpdateStep(m, ops[0], mid, c, id, told);
      UpdatesTell(mid, ops[1..], m', c, now, id, told + [r]);
      assert told + [r] + ReportsIn(ops[1..]) == told + ReportsIn(ops);
    }
  }

  lemma TheOnlyOpen(m: I.Incidents, op: I.Op, m': I.Incidents, id: string)
    requires Sane(m) && I.Step(m, op, m') && op.Alert? && I.IsOpenFor(m, op.report.checkID, id)
    ensures m' == I.RepoStep(m, I.Apply(id, op.report, op.now))
  {
    hide I.RepoStep;
  }

  /** An incident that alerts open tells of exactly these alerts. */
  lemma CreationTells(m: I.Incidents, ops: seq<I.Op>, m': I.Incidents, c: string, now: Instant)
    requires Sane(m) && Reaches(m, ops, m') && AlertsAbout(ops, c, now)
    requires ops != [] && !OpenFor(m, c) && I.GenerateIncidentID(c, now) !in m
    ensures var id := I.GenerateIncidentID(c, now);
      id in m' && I.TellsOf(m'[id], ReportsIn(ops)) && m'[id].startedAt == now
  {
    var mid :| I.Step(m, ops[0], mid) && Reaches(mid, ops[1..], m');
    assert ops[0] in ops;
    var r, id := ops[0].report, I.GenerateIncidentID(c, now);
    assert mid == I.RepoStep(m, I.RepoOp.Create(r, now));
    assert mid == m[id := I.NewIncident(r, now)] && I.IsOpenFor(mid, c, id);
    I.NewTells(r, now);
    I.StepKeepsOneOpen(m, ops[0], mid);
    hide I.Step, I.TellsOf, I.NewIncident, I.RepoStep, I.WellKeyed, I.AtMostOneOpen, I.GenerateIncidentID;
    UpdatesTell(mid, ops[1..], m', c, now, id, [r]);
    UpdatesKeepStart(mid, ops[1..], m', id, now);
    assert [r] + ReportsIn(ops[1..]) == ReportsIn(ops);
  }

  lemma AlertKeepsStart(m: I.Incidents, op: I.Op, m': I.Incidents, id: string)
    requires I.Step(m, op, m') && op.Alert? && id in m
    ensures id in m' && m'[id].startedAt == m[id].startedAt
  {
    hide I.SeverityHasIncreased, I.GenerateIncidentID;
  }

  lemma RecoveryKeepsTold(m: I.Incidents, op: I.Op, m': I.Incidents, id: string, told: seq<I.Report>)
    requires I.Step(m, op, m') && op.AutoResolve? && id in m && I.TellsOf(m[id], told)
    ensures id in m' && I.TellsOf(m'[id], told) && m'[id].startedAt == m[id].startedAt
  {
    I.SettledTells(m[id], "system", op.now, told);
    hide I.TellsOf;
  }

  lemma {:induction false} UpdatesKeepStart(m: I.Incidents, ops: seq<I.Op>, m': I.Incidents, id: string, now: Instant)
    requires Reaches(m, ops, m') && id in m && forall op :: op in ops ==> op.Alert?
    ensures id in m' && m'[id].startedAt == m[id].startedAt
    decreases |ops|
  {
    if ops != [] {
      var mid :| I.Step(m, ops[0], mid) && Reaches(mid, ops[1..], m');
      assert ops[0] in ops;
      AlertKeepsStart(m, ops[0], mid, id);
      hide I.Step;
      UpdatesKeepStart(mid, ops[1..], m', id, now);
    }
  }

  lemma {:induction false} RecoveriesKeepTold(m: I.Incidents, ops: seq<I.Op>, m': I.Incidents, id: string, told: seq<I.Report>)
    requires Reaches(m, ops, m') && RecoveriesOnly(ops) && id in m && I.TellsOf(m[id], told)
    ensures id in m' && I.TellsOf(m'[id], told) && m'[id].startedAt == m[id].startedAt
    decreases |ops|
  {
    if ops != [] {
      var mid :| I.Step(m, ops[0], mid) && Reaches(mid, ops[1..], m');
      assert ops[0] in ops;
      RecoveryKeepsTold(m, ops[0], mid, id, told);
      hide I.TellsOf, I.Step;
      RecoveriesKeepTold(mid, ops[1..], m', id, told);
    }
  }

  /** The incident's severity is that of a matching rule that none of the others outranks. */
  ghost predicate HighestSeverity(severity: string, s: Setup, r: CheckResult) {
    && (exists rule :: rule in s.rules && Matches(rule, r) && rule.severity == severity)
    && (forall rule :: rule in s.rules && Matches(rule, r) ==> I.SeverityRank(rule.severity) <= I.SeverityRank(severity))
  }

  /** The incident's metadata names a matching rule, and the server if there is one. */
  ghost predicate NamesRule(metadata: I.Metadata, s: Setup, r: CheckResult) {
    && "ruleId" in metadata && "ruleName" in metadata && "message" in metadata
    && (exists rule :: rule in s.rules && Matches(rule, r)
          && rule.id == metadata["ruleId"] && rule.name == metadata["ruleName"])
    && ("server" in metadata <==> r.server != "")
    && ("server" in metadata ==> metadata["server"] == r.server)
  }

  /** The new incident of the result. */
  ghost predicate OpenedBy(inc: I.Incident, s: Setup, r: CheckResult, now: Instant) {
    && inc.checkID == r.checkID && inc.checkName == r.name && inc.kind == r.checkType && inc.startedAt == now
    && HighestSeverity(inc.severity, s, r)
    && NamesRule(inc.metadata, s, r)
  }

  /** A report that a matching rule makes of the result. */
  ghost predicate MadeOf(report: I.Report, s: Setup, r: CheckResult) {
    exists rule :: rule in s.rules && Matches(rule, r) && ReportsMatch(report, rule, r, r)
  }

  lemma OnlyLast(r: CheckResult, last: CheckResult)
    requires IsLast([r], last)
    ensures last == r
  {
  }

  lemma OneResultReports(s: Setup, tracker: Tracker, r: CheckResult, now: Instant)
    requires Opens(s, tracker, r, now)
    ensures var ops := AlertOps(ContextOf(s, tracker, [r], now), IncidentAlerts(s, [r], now));
      && AlertsAbout(ops, r.checkID, now) && ops != []
      && (forall report :: report in ReportsIn(ops) ==> MadeOf(report, s, r))
      && (forall rule :: rule in s.rules && Matches(rule, r) ==>
            exists report :: report in ReportsIn(ops) && report.severity == rule.severity)
  {
    hide Matches, Admitted, AlertOps, RecoveryOps, IncidentAlerts, ReportsMatch, IsLast;
    var x := ContextOf(s, tracker, [r], now);
    var alerts := IncidentAlerts(s, [r], now);
    IncidentAlertsOfOne(s, r, now);
    assert forall i :: 0 <= i < |alerts| ==> alerts[i] in alerts;
    AlertOpsAre(x, alerts, r.checkID);
    var ops := AlertOps(x, alerts);
    RecoveriesAreNoAlerts(x.tracker, x.checks, [r], now);
    forall report | report in ReportsIn(ops)
      ensures MadeOf(report, s, r)
    {
      var i :| 0 <= i < |ops| && ReportsIn(ops)[i] == report;
      assert ops[i] in ops && ops[i] in BatchOps(s, tracker, [r], now);
      EveryReportMatches(s, tracker, [r], now, ops[i]);
      var rule, q, last :| rule in s.rules && q in [r] && Matches(rule, q) && IsLast([r], last) && last.checkID == q.checkID
                           && ReportsMatch(report, rule, q, last);
      OnlyLast(r, last);
    }
    forall rule | rule in s.rules && Matches(rule, r)
      ensures exists report :: report in ReportsIn(ops) && report.severity == rule.severity
    {
      assert r in [r];
      EveryMatchIsReported(s, tracker, [r], now, rule, r);
      var op, last :| op in BatchOps(s, tracker, [r], now) && op.Alert? && ReportsMatch(op.report, rule, r, last);
      assert op in ops;
      var i :| 0 <= i < |ops| && ops[i] == op;
      assert ReportsIn(ops)[i] == op.report;
      SeverityMatches(op.report, rule, r, last);
    }
  }

  lemma SeverityMatches(report: I.Report, rule: Rule, r: CheckResult, last: CheckResult)
    requires ReportsMatch(report, rule, r, last)
    ensures report.severity == rule.severity
  {
  }

  lemma ToldSeverity(inc: I.Incident, reports: seq<I.Report>, s: Setup, r: CheckResult)
    requires I.TellsOf(inc, reports)
    requires forall report :: report in reports ==> MadeOf(report, s, r)
    requires forall rule :: rule in s.rules && Matches(rule, r) ==>
      exists report :: report in reports && report.severity == rule.severity
    ensures HighestSeverity(inc.severity, s, r)
  {
    hide Matches, I.SeverityRank, I.MaxRank, MadeOf;
    I.MaxRankIsMaximum(reports);
    var report :| report in reports && report.severity == inc.severity;
    MadeOfSays(report, s, r);
  }

  lemma MadeOfSays(report: I.Report, s: Setup, r: CheckResult)
    requires MadeOf(report, s, r)
    ensures report.checkID == r.checkID && report.checkName == r.name && report.kind == r.checkType
    ensures exists rule :: rule in s.rules && Matches(rule, r) && rule.severity == report.severity
    ensures NamesRule(report.metadata, s, r)
  {
    hide Matches;
    var rule :| rule in s.rules && Matches(rule, r) && ReportsMatch(report, rule, r, r);
  }

  lemma ToldMetadata(inc: I.Incident, reports: seq<I.Report>, s: Setup, r: CheckResult)
    requires I.TellsOf(inc, reports)
    requires forall report :: report in reports ==> MadeOf(report, s, r)
    ensures NamesRule(inc.metadata, s, r)
  {
    hide Matches, I.SeverityRank, I.MaxRank, MadeOf;
    var last := reports[|reports| - 1];
    MadeOfSays(last, s, r);
    if "server" in inc.metadata {
      var q :| q in reports && "server" in q.metadata && q.metadata["server"] == inc.metadata["server"];
      MadeOfSays(q, s, r);
    }
  }

  /** An incident that tells of reports made of one result is opened by it. */
  lemma ToldIsOpened(inc: I.Incident, reports: seq<I.Report>, s: Setup, r: CheckResult, now: Instant)
    requires I.TellsOf(inc, reports) && inc.startedAt == now
    requires forall report :: report in reports ==> MadeOf(report, s, r)
    requires forall rule :: rule in s.rules && Matches(rule, r) ==>
      exists report :: report in reports && report.severity == rule.severity
    ensures OpenedBy(inc, s, r, now)
  {
    hide Matches, MadeOf, HighestSeverity, NamesRule, I.SeverityRank, I.MaxRank;
    ToldSeverity(inc, reports, s, r);
    ToldMetadata(inc, reports, s, r);
    MadeOfSays(reports[0], s, r);
  }

  /** One result that opens an incident: the incident is about the result's check, of its kind,
      started now, and has the highest severity of all rules that match the result. */
  lemma OpenedIncidentSaysSo(s: Setup, tracker: Tracker, r: CheckResult, now: Instant, m: I.Incidents, m': I.Incidents)
    requires Sane(m) && Reaches(m, BatchOps(s, tracker, [r], now), m')
    requires Opens(s, tracker, r, now) && !OpenFor(m, r.checkID) && I.GenerateIncidentID(r.checkID, now) !in m
    ensures var id := I.GenerateIncidentID(r.checkID, now);
      id in m' && OpenedBy(m'[id], s, r, now)
  {
    hide Sane, OpenFor, Reaches, Opens, AlertOps, RecoveryOps, IncidentAlerts, Matches, MadeOf, OpenedBy, I.TellsOf,
      I.GenerateIncidentID;
    var x := ContextOf(s, tracker, [r], now);
    var ops := AlertOps(x, IncidentAlerts(s, [r], now));
    var mid := ReachesSplit(m, ops, RecoveryOps(x.tracker, x.checks, [r], x.now), m');
    OneResultReports(s, tracker, r, now);
    CreationTells(m, ops, mid, r.checkID, now);
    RecoveriesAreNoAlerts(x.tracker, x.checks, [r], x.now);
    var id := I.GenerateIncidentID(r.checkID, now);
    RecoveriesKeepTold(mid, RecoveryOps(x.tracker, x.checks, [r], x.now), m', id, ReportsIn(ops));
    ToldIsOpened(m'[id], ReportsIn(ops), s, r, now);
  }
}
