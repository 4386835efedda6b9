/** The pipeline under concurrency: any number of batches of results, each handled by its own
    goroutine, and alerts raised from elsewhere, with every critical section a step of its own.
    Counting results, passing an alert's gate, finding, updating, creating and resolving an
    incident interleave with those of the other batches, and with acknowledgements,
    resolutions and prunes.  The clock reads 1970 or later. */
module ConcurrentPipeline {
  import opened Civil
  import opened Options
  import opened AlertRules
  import opened Maintenance
  import opened Pipeline
  import I = Incidents
  import AlertMessages

  /** Where a batch is; `rest` are the alerts and `left` the results still to be handled. */
  datatype Phase =
      Count
    | Gate(rest: seq<Alert>)
    | Find(report: I.Report, rest: seq<Alert>)
    | Update(id: string, report: I.Report, rest: seq<Alert>)
    | Create(report: I.Report, rest: seq<Alert>)
    | Recover(left: seq<CheckResult>)
    | FindRecovered(checkID: string, left: seq<CheckResult>)
    | Resolve(id: string, checkID: string, left: seq<CheckResult>)
    | Finished

  /** A batch, and the rules and checks it has read; or, without results, an alert that goes
      straight to the incident manager. */
  datatype Job = Job(setup: Setup, results: seq<CheckResult>, phase: Phase)

  /** `counted` and `created` record, in order, the results counted so far and the checks for
      which an incident was created. */
  datatype World = World(
    incidents: I.Incidents,
    tracker: Tracker,
    jobs: seq<Job>,
    counted: seq<CheckResult>,
    created: seq<string>)

  /** The next alert is dropped or goes on to the incident manager. */
  function AfterGate(x: Context, rest: seq<Alert>): Phase
    requires rest != []
  {
    if Admitted(x, rest[0].checkID) then Find(ReportOf(x, rest[0]), rest[1..]) else Gate(rest[1..])
  }

  /** The gate is read at some time, under the windows of that time. */
  function GateContext(tracker: Tracker, job: Job, windows: seq<Window>, now: Instant): Context {
    Context(windows, CheckMapOf(job.setup.checks), ResultMapOf(job.results), tracker, now)
  }

  /** What a job may do next, given the shared state: its next phase, and what it has the
      repository do. */
  ghost predicate Does(m: I.Incidents, tracker: Tracker, job: Job, next: Phase, op: Option<I.RepoOp>) {
    match job.phase
    case Count => op == None && exists now :: next == Gate(IncidentAlerts(job.setup, job.results, now))
    case Gate(rest) =>
      && op == None
      && if rest == [] then next == Recover(job.results)
         else exists windows, now :: next == AfterGate(GateContext(tracker, job, windows, now), rest)
    case Find(r, rest) =>
      && op == None
      && if OpenFor(m, r.checkID)
         then exists id :: I.IsOpenFor(m, r.checkID, id) && next == Update(id, r, rest)
         else next == Create(r, rest)
    case Update(id, r, rest) => next == Gate(rest) && exists now :: op == Some(I.Apply(id, r, now))
    case Create(r, rest) =>
      next == Gate(rest) && exists now :: I.Unix(now) >= 0 && op == Some(I.RepoOp.Create(r, now))
    case Recover(left) =>
      && op == None
      && if left == [] then next == Finished
         else if Recovered(tracker, CheckMapOf(job.setup.checks), left[0])
         then next == FindRecovered(left[0].checkID, left[1..])
         else next == Recover(left[1..])
    case FindRecovered(c, left) =>
      && op == None
      && if OpenFor(m, c)
         then exists id :: I.IsOpenFor(m, c, id) && next == Resolve(id, c, left)
         else next == Recover(left)
    case Resolve(id, c, left) =>
      next == Recover(left) && exists now :: op == Some(I.RepoOp.Resolve(id, "system", now))
    case Finished => false
  }

  function Operated(m: I.Incidents, op: Option<I.RepoOp>): I.Incidents {
    if op.Some? then I.RepoStep(m, op.value) else m
  }

  /** The checks recorded as created: one more if a creation finds its ID free. */
  function Recorded(w: World, op: Option<I.RepoOp>): seq<string> {
    if op.Some? && op.value.Create? && I.NewIncident(op.value.report, op.value.now).id !in w.incidents
    then w.created + [op.value.report.checkID] else w.created
  }

  function Outcome(w: World, j: nat, next: Phase, op: Option<I.RepoOp>): World
    requires j < |w.jobs|
  {
    var job := w.jobs[j];
    World(Operated(w.incidents, op),
          if job.phase.Count? then CountAll(w.tracker, job.results) else w.tracker,
          w.jobs[j := job.(phase := next)],
          if job.phase.Count? then w.counted + job.results else w.counted,
          Recorded(w, op))
  }

  datatype Move =
      JobMoves(j: nat, next: Phase, effect: Option<I.RepoOp>)
    | Arrives(job: Job)
    | Outside(op: I.RepoOp)

  /** How a batch, or an alert from elsewhere, begins. */
  predicate Begins(job: Job) {
    job.phase.Count? || (job.results == [] && job.phase.Find? && job.phase.rest == [])
  }

  ghost predicate Step(w: World, move: Move, w': World) {
    match move
    case JobMoves(j, next, op) =>
      j < |w.jobs| && Does(w.incidents, w.tracker, w.jobs[j], next, op) && w' == Outcome(w, j, next, op)
    case Arrives(job) => Begins(job) && w' == w.(jobs := w.jobs + [job])
    case Outside(op) =>
      (op.Acknowledge? || op.Resolve? || op.Prune?) && w' == w.(incidents := I.RepoStep(w.incidents, op))
  }

  ghost predicate Execution(ws: seq<World>, moves: seq<Move>) {
    && |ws| == |moves| + 1
    && ws[0] == World(map[], map[], [], [], [])
    && forall i :: 0 <= i < |moves| ==> Step(ws[i], moves[i], ws[i + 1])
  }

  // ----- Checks a job is about

  predicate Mentions(results: seq<CheckResult>, c: string) {
    HealthOf(results, c) != []
  }

  predicate LastHealthy(results: seq<CheckResult>, c: string)
    requires Mentions(results, c)
  {
    HealthOf(results, c)[|HealthOf(results, c)| - 1]
  }

  predicate Reports(phase: Phase, c: string) {
    (phase.Find? || phase.Update? || phase.Create?) && phase.report.checkID == c
  }

  /** An unfinished batch with results of the check, or an alert for it under way. */
  predicate About(job: Job, c: string) {
    !job.phase.Finished? && (Mentions(job.results, c) || Reports(job.phase, c))
  }

  /** The batches and alerts of this check take turns; those of other checks do as they like. */
  predicate TakesTurns(w: World, c: string) {
    forall i, j :: 0 <= i < j < |w.jobs| ==> !(About(w.jobs[i], c) && About(w.jobs[j], c))
  }

  lemma MentionedIn(results: seq<CheckResult>, r: CheckResult)
    requires r in results
    ensures Mentions(results, r.checkID) && r.healthy in HealthOf(results, r.checkID)
  {
    var i :| 0 <= i < |results| && results[i] == r;
    assert results == results[..i] + [r] + results[i + 1..];
    HealthJoins(results[..i] + [r], results[i + 1..], r.checkID);
    HealthSnoc(results[..i], r, r.checkID);
  }

  lemma HealthSnoc(results: seq<CheckResult>, r: CheckResult, c: string)
    ensures HealthOf(results + [r], c) == if r.checkID == c then HealthOf(results, c) + [r.healthy] else HealthOf(results, c)
  {
    assert (results + [r])[..|results|] == results;
  }

  /** What counting a batch does to a check's counters. */
  lemma {:induction false} CountingABatch(t: Tracker, results: seq<CheckResult>, c: string)
    ensures var before, after, h := CountOf(t, c), CountOf(CountAll(t, results), c), HealthOf(results, c);
      && (h == [] ==> after == before)
      && (h != [] ==> (after.successes >= 1 <==> h[|h| - 1]) && (after.failures >= 1 <==> !h[|h| - 1]))
      && (|h| == 1 ==> after == if h[0] then ConsecutiveCount(0, before.successes + 1)
                                else ConsecutiveCount(before.failures + 1, 0))
  {
    if results != [] {
      CountingABatch(t, results[..|results| - 1], c);
    }
  }

  /** The result map holds each check's last result. */
  lemma {:induction false} ResultMapIsLast(results: seq<CheckResult>, c: string)
    ensures c in ResultMapOf(results) <==> Mentions(results, c)
    ensures c in ResultMapOf(results) ==> (ResultMapOf(results)[c].healthy <==> LastHealthy(results, c))
  {
    if results != [] {
      ResultMapIsLast(results[..|results| - 1], c);
    }
  }

  // ----- What holds of every job

  /** IDs of incidents name their check. */
  ghost predicate OwnID(id: string, c: string) {
    exists t :: I.Unix(t) >= 0 && id == I.GenerateIncidentID(c, t)
  }

  lemma DashInside(c: string, d: string, x: string, y: string)
    requires c + "-" + x == d + "-" + y && |c| < |d|
    ensures '-' in x
  {
    var s := c + "-" + x;
    assert s == d + "-" + y && s[|d|] == '-';
    assert x[|d| - |c| - 1] == s[|d|];
  }

  lemma SplitAtDash(c: string, d: string, x: string, y: string)
    requires c + "-" + x == d + "-" + y && '-' !in x && '-' !in y
    ensures c == d
  {
    if |c| < |d| {
      DashInside(c, d, x, y);
    } else if |d| < |c| {
      DashInside(d, c, y, x);
    } else {
      assert c == (c + "-" + x)[..|c|] && d == (d + "-" + y)[..|d|];
    }
  }

  lemma OneOwner(id: string, c: string, d: string)
    requires OwnID(id, c) && OwnID(id, d)
    ensures c == d
  {
    var t :| I.Unix(t) >= 0 && id == I.GenerateIncidentID(c, t);
    var u :| I.Unix(u) >= 0 && id == I.GenerateIncidentID(d, u);
    var x, y := AlertMessages.Decimal(I.Unix(t)), AlertMessages.Decimal(I.Unix(u));
    hide I.Unix, AlertMessages.Decimal;
    SplitAtDash(c, d, x, y);
  }

  ghost predicate AllOwned(m: I.Incidents) {
    forall id :: id in m ==> OwnID(id, m[id].checkID)
  }

  lemma OperationKeepsOwned(m: I.Incidents, op: I.RepoOp)
    requires AllOwned(m) && (op.Create? ==> I.Unix(op.now) >= 0)
    ensures AllOwned(I.RepoStep(m, op))
  {
    hide I.SeverityHasIncreased, I.GenerateIncidentID, I.Unix;
    if op.Create? {
      assert OwnID(I.NewIncident(op.report, op.now).id, op.report.checkID);
    }
    var m' := I.RepoStep(m, op);
    hide OwnID;
    assert forall id :: id in m' && id in m ==> m'[id].checkID == m[id].checkID;
  }

  predicate AllAmong(alerts: seq<Alert>, results: seq<CheckResult>) {
    forall i :: 0 <= i < |alerts| ==> Mentions(results, alerts[i].checkID)
  }

  predicate AllFrom(left: seq<CheckResult>, results: seq<CheckResult>) {
    forall i :: 0 <= i < |left| ==> left[i] in results
  }

  predicate TidyReport(job: Job, r: I.Report, rest: seq<Alert>) {
    (Mentions(job.results, r.checkID) || job.results == []) && AllAmong(rest, job.results)
  }

  /** A batch handles alerts about its own checks only, and resolves their incidents only. */
  ghost predicate Tidy(job: Job) {
    match job.phase
    case Gate(rest) => AllAmong(rest, job.results)
    case Find(r, rest) => TidyReport(job, r, rest)
    case Update(_, r, rest) => TidyReport(job, r, rest)
    case Create(r, rest) => TidyReport(job, r, rest)
    case Recover(left) => AllFrom(left, job.results)
    case FindRecovered(c, left) => Mentions(job.results, c) && AllFrom(left, job.results)
    case Resolve(id, c, left) => OwnID(id, c) && Mentions(job.results, c) && AllFrom(left, job.results)
    case _ => true
  }

  ghost predicate AllTidy(w: World) {
    AllOwned(w.incidents) && forall j :: 0 <= j < |w.jobs| ==> Tidy(w.jobs[j])
  }

  lemma AlertsAreAmong(s: Setup, results: seq<CheckResult>, now: Instant)
    ensures AllAmong(IncidentAlerts(s, results, now), results)
    ensures forall a :: a in IncidentAlerts(s, results, now) ==>
      exists r :: r in results && r.checkID == a.checkID && Pipeline.Fires(s, r)
  {
    hide Matches, AlertsOf, CallVisits, HealthOf;
    var alerts := IncidentAlerts(s, results, now);
    forall a | a in alerts
      ensures exists r :: r in results && r.checkID == a.checkID && Pipeline.Fires(s, r)
      ensures Mentions(results, a.checkID)
    {
      IncidentAlertsAreMatches(map[], s.rules, results, now, a);
      var rule, r :| rule in s.rules && r in results && Matches(rule, r) && a == BuildAlert(rule, r, now);
      MentionedIn(results, r);
    }
    assert forall i :: 0 <= i < |alerts| ==> alerts[i] in alerts;
  }

  lemma OperationFits(m: I.Incidents, tracker: Tracker, job: Job, next: Phase, op: Option<I.RepoOp>)
    requires Does(m, tracker, job, next, op)
    ensures op.Some? && op.value.Create? ==> job.phase.Create? && op.value.report == job.phase.report && I.Unix(op.value.now) >= 0
    ensures op.Some? && op.value.Resolve? ==> job.phase.Resolve? && op.value.id == job.phase.id
    ensures job.phase.Create? ==> op.Some? && op.value.Create?
    ensures job.phase.Resolve? ==> op.Some? && op.value.Resolve?
    ensures op.Some? ==> op.value.Create? || op.value.Resolve? || op.value.Apply?
  {
    hide I.IsOpenFor, OpenFor, IncidentAlerts, AfterGate, GateContext, Recovered, CheckMapOf, I.Unix;
  }

  lemma JobStaysTidy(m: I.Incidents, tracker: Tracker, job: Job, next: Phase, op: Option<I.RepoOp>)
    requires AllOwned(m) && Tidy(job) && Does(m, tracker, job, next, op)
    ensures Tidy(job.(phase := next))
  {
    hide I.RepoStep, IncidentAlerts, Admitted, ReportOf, Recovered, CheckMapOf, GateContext, OwnID, I.Unix, HealthOf;
    if job.phase.Count? {
      forall now
        ensures AllAmong(IncidentAlerts(job.setup, job.results, now), job.results)
      {
        AlertsAreAmong(job.setup, job.results, now);
      }
    } else if job.phase.Gate? && job.phase.rest != [] {
      var windows, now :| next == AfterGate(GateContext(tracker, job, windows, now), job.phase.rest);
      ReportAbout(GateContext(tracker, job, windows, now), job.phase.rest[0]);
    } else if job.phase.Recover? && job.phase.left != [] {
      MentionedIn(job.results, job.phase.left[0]);
    }
  }

  lemma StepKeepsTidy(w: World, move: Move, w': World)
    requires AllTidy(w) && Step(w, move, w')
    ensures AllTidy(w')
  {
    hide Does, I.RepoStep, AllOwned, I.Unix;
    match move
    case Outside(op) =>
      OperationKeepsOwned(w.incidents, op);
      hide Tidy;
    case Arrives(_) =>
      hide Mentions;
    case JobMoves(j, next, op) =>
      assert Tidy(w.jobs[j]);
      JobStaysTidy(w.incidents, w.tracker, w.jobs[j], next, op);
      OperationFits(w.incidents, w.tracker, w.jobs[j], next, op);
      if op.Some? {
        OperationKeepsOwned(w.incidents, op.value);
      }
      hide Tidy;
  }

  lemma {:induction false} RunKeepsTidy(ws: seq<World>, moves: seq<Move>, i: nat)
    requires Execution(ws, moves) && i < |ws|
    ensures AllTidy(ws[i])
  {
    if i > 0 {
      hide Step, AllTidy;
      RunKeepsTidy(ws, moves, i - 1);
      assert Step(ws[i - 1], moves[i - 1], ws[i - 1 + 1]);
      StepKeepsTidy(ws[i - 1], moves[i - 1], ws[i]);
    }
  }

  // ----- What a step does to one check

  /** What a repository operation does to the open incidents of a check. */
  predicate OpenNext(m: I.Incidents, op: I.RepoOp, c: string, id: string) {
    if op.Create? then
      var newID := I.NewIncident(op.report, op.now).id;
      I.IsOpenFor(m, c, id) || (newID !in m && c == op.report.checkID && id == newID)
    else I.IsOpenFor(m, c, id) && !(op.Resolve? && op.id == id)
  }

  lemma OpenAfter(m: I.Incidents, op: I.RepoOp, c: string, id: string)
    ensures I.IsOpenFor(I.RepoStep(m, op), c, id) <==> OpenNext(m, op, c, id)
  {
    hide I.GenerateIncidentID, I.SeverityHasIncreased;
  }

  function Times(s: seq<string>, c: string): nat {
    if s == [] then 0 else Times(s[..|s| - 1], c) + if s[|s| - 1] == c then 1 else 0
  }

  lemma TimesSnoc(s: seq<string>, x: string, c: string)
    ensures Times(s + [x], c) == Times(s, c) + if x == c then 1 else 0
  {
    assert (s + [x])[..|s|] == s;
  }

  /** A job opens incidents only of the check it reports on, and closes only the incident it
      found, of the check it resolves. */
  lemma JobOpens(m: I.Incidents, tracker: Tracker, job: Job, next: Phase, op: Option<I.RepoOp>, c: string, id: string)
    requires AllOwned(m) && Tidy(job) && Does(m, tracker, job, next, op)
    ensures var m' := Operated(m, op);
      && (I.IsOpenFor(m', c, id) && !I.IsOpenFor(m, c, id) ==> job.phase.Create? && Reports(job.phase, c))
      && (I.IsOpenFor(m, c, id) && !I.IsOpenFor(m', c, id) ==> job.phase.Resolve? && job.phase.checkID == c)
      && (job.phase.Resolve? ==> !I.IsOpenFor(m', job.phase.checkID, job.phase.id))
  {
    OperationFits(m, tracker, job, next, op);
    if op.Some? {
      OpenAfter(m, op.value, c, id);
      if job.phase.Resolve? {
        OpenAfter(m, op.value, job.phase.checkID, job.phase.id);
        if I.IsOpenFor(m, c, id) && id == job.phase.id {
          OneOwner(id, c, job.phase.checkID);
        }
      }
    }
    hide Does, I.RepoStep, OwnID, I.NewIncident, I.Unix, HealthOf;
  }

  /** Once off a check, a job stays off it. */
  lemma StaysOff(m: I.Incidents, tracker: Tracker, job: Job, next: Phase, op: Option<I.RepoOp>, c: string)
    requires AllOwned(m) && Tidy(job) && Does(m, tracker, job, next, op) && !About(job, c)
    ensures !About(job.(phase := next), c)
  {
    hide I.RepoStep, I.IsOpenFor, OpenFor, IncidentAlerts, Admitted, Recovered, CheckMapOf, GateContext, OwnID, I.Unix, HealthOf,
      ReportOf;
    if job.phase.Gate? && job.phase.rest != [] {
      var windows, now :| next == AfterGate(GateContext(tracker, job, windows, now), job.phase.rest);
      ReportAbout(GateContext(tracker, job, windows, now), job.phase.rest[0]);
    }
  }

  /** The move is a job's, and the job is about the check. */
  predicate Own(w: World, move: Move, c: string) {
    move.JobMoves? && move.j < |w.jobs| && About(w.jobs[move.j], c)
  }

  predicate NoManualResolve(move: Move) {
    !(move.Outside? && move.op.Resolve?)
  }

  /** Everybody else leaves the check's counters and creations as they are, and opens none of
      its incidents; only manual resolutions close one. */
  lemma OthersKeepCheck(w: World, move: Move, w': World, c: string)
    requires AllTidy(w) && Step(w, move, w') && !Own(w, move, c)
    ensures CountOf(w'.tracker, c) == CountOf(w.tracker, c)
    ensures HealthOf(w'.counted, c) == HealthOf(w.counted, c)
    ensures Times(w'.created, c) == Times(w.created, c)
  {
    if move.JobMoves? {
      var job := w.jobs[move.j];
      assert Tidy(job);
      OperationFits(w.incidents, w.tracker, job, move.next, move.effect);
      CountingABatch(w.tracker, job.results, c);
      HealthJoins(w.counted, job.results, c);
      if move.effect.Some? && move.effect.value.Create? {
        TimesSnoc(w.created, job.phase.report.checkID, c);
      }
    }
    hide Does, I.RepoStep, I.NewIncident, HealthOf, Times, CountAll, CountOf, Tidy;
  }

  lemma OthersKeepOpen(w: World, move: Move, w': World, c: string, id: string)
    requires AllTidy(w) && Step(w, move, w') && !Own(w, move, c)
    ensures I.IsOpenFor(w'.incidents, c, id) ==> I.IsOpenFor(w.incidents, c, id)
    ensures NoManualResolve(move) && I.IsOpenFor(w.incidents, c, id) ==> I.IsOpenFor(w'.incidents, c, id)
  {
    match move
    case Outside(op) => OpenAfter(w.incidents, op, c, id);
    case Arrives(_) =>
    case JobMoves(j, next, op) =>
      assert Tidy(w.jobs[j]);
      JobOpens(w.incidents, w.tracker, w.jobs[j], next, op, c, id);
      hide Does, I.RepoStep, HealthOf, OwnID;
  }
}
