/** Under concurrency: what creating an incident takes, and what resolves it. */
module ConcurrentThresholds {
  import opened Civil
  import opened Options
  import opened AlertRules
  import opened Maintenance
  import opened Pipeline
  import I = Incidents
  import opened ConcurrentPipeline
  import opened ConcurrentIncidents

  // ----- Every creation takes results

  /** The batch has at most one result of the check, as every run of the checks gives it; the
      check's thresholds are F and S, and its rules do not fire on its healthy results.  Alerts
      for it come from its batches only. */
  predicate FixedJob(job: Job, c: string, f: nat, s: nat) {
    && (Reports(job.phase, c) ==> Mentions(job.results, c))
    && (Mentions(job.results, c) ==>
          && |HealthOf(job.results, c)| == 1
          && c in CheckMapOf(job.setup.checks)
          && FailuresToOpen(CheckMapOf(job.setup.checks)[c]) == f
          && SuccessesToResolve(CheckMapOf(job.setup.checks), c) == s
          && forall r :: r in job.results && r.checkID == c && r.healthy ==> !Pipeline.Fires(job.setup, r))
  }

  predicate FixedMove(move: Move, c: string, f: nat, s: nat) {
    NoManualResolve(move) && (move.Arrives? ==> FixedJob(move.job, c, f, s))
  }

  ghost predicate AllFixed(w: World, c: string, f: nat, s: nat) {
    forall j :: 0 <= j < |w.jobs| ==> FixedJob(w.jobs[j], c, f, s)
  }

  predicate AnyFor(alerts: seq<Alert>, c: string) {
    exists i :: 0 <= i < |alerts| && alerts[i].checkID == c
  }

  /** An alert of the check is under way only after an unhealthy result. */
  predicate AlertsPay(job: Job, rest: seq<Alert>, c: string) {
    AnyFor(rest, c) ==> Mentions(job.results, c) && !LastHealthy(job.results, c)
  }

  predicate ReportPays(count: ConsecutiveCount, job: Job, r: I.Report, rest: seq<Alert>, c: string, f: nat) {
    && AlertsPay(job, rest, c)
    && (r.checkID == c ==> Mentions(job.results, c) && !LastHealthy(job.results, c) && count.failures >= f)
  }

  /** What a job past a gate has seen there still holds. */
  predicate JobPays(count: ConsecutiveCount, job: Job, c: string, f: nat, s: nat) {
    match job.phase
    case Gate(rest) => AlertsPay(job, rest, c)
    case Find(r, rest) => ReportPays(count, job, r, rest, c, f)
    case Update(_, r, rest) => ReportPays(count, job, r, rest, c, f)
    case Create(r, rest) => ReportPays(count, job, r, rest, c, f)
    case FindRecovered(d, _) => d == c ==> Mentions(job.results, c) && LastHealthy(job.results, c) && count.successes >= s
    case Resolve(_, d, _) => d == c ==> Mentions(job.results, c) && LastHealthy(job.results, c) && count.successes >= s
    case _ => true
  }

  ghost predicate AllPaid(w: World, c: string, f: nat, s: nat) {
    Paid(State(w.incidents, w.tracker), c, Times(w.created, c), |HealthOf(w.counted, c)|, f, s)
  }

  ghost predicate PayInv(w: World, c: string, f: nat, s: nat) {
    && AllFixed(w, c, f, s)
    && AllPaid(w, c, f, s)
    && forall j :: 0 <= j < |w.jobs| && About(w.jobs[j], c) ==> JobPays(CountOf(w.tracker, c), w.jobs[j], c, f, s)
  }

  lemma OthersKeepPaid(w: World, move: Move, w': World, c: string, f: nat, s: nat)
    requires AllTidy(w) && Step(w, move, w') && !Own(w, move, c) && NoManualResolve(move) && AllPaid(w, c, f, s)
    ensures AllPaid(w', c, f, s)
  {
    hide Step, AllTidy, Own, I.IsOpenFor, HealthOf, CountOf, Times;
    OthersKeepCheck(w, move, w', c);
    forall id
      ensures I.IsOpenFor(w'.incidents, c, id) <==> I.IsOpenFor(w.incidents, c, id)
    {
      OthersKeepOpen(w, move, w', c, id);
    }
  }

  lemma OthersKeepPays(w: World, move: Move, w': World, c: string, f: nat, s: nat)
    requires AllTidy(w) && Step(w, move, w') && !Own(w, move, c) && FixedMove(move, c, f, s) && PayInv(w, c, f, s)
    ensures forall j :: 0 <= j < |w'.jobs| && About(w'.jobs[j], c) ==> JobPays(CountOf(w'.tracker, c), w'.jobs[j], c, f, s)
  {
    OthersKeepCheck(w, move, w', c);
    forall j | 0 <= j < |w'.jobs| && About(w'.jobs[j], c)
      ensures JobPays(CountOf(w'.tracker, c), w'.jobs[j], c, f, s)
    {
      OthersJobs(w, move, w', c, j);
      if j >= |w.jobs| {
        BeginningPays(CountOf(w'.tracker, c), w'.jobs[j], c, f, s);
      }
    }
    hide Does, AllTidy, JobPays, CountOf, About, HealthOf, Times, I.RepoStep, AllPaid, CountAll;
  }

  lemma BeginningPays(count: ConsecutiveCount, job: Job, c: string, f: nat, s: nat)
    requires Begins(job) && FixedJob(job, c, f, s)
    ensures JobPays(count, job, c, f, s)
  {
  }

  lemma NextKeepsFixed(m: I.Incidents, tracker: Tracker, job: Job, next: Phase, op: Option<I.RepoOp>, c: string, f: nat, s: nat)
    requires AllOwned(m) && Tidy(job) && Does(m, tracker, job, next, op) && FixedJob(job, c, f, s)
    ensures FixedJob(job.(phase := next), c, f, s)
  {
    if !About(job, c) {
      StaysOff(m, tracker, job, next, op, c);
    }
    hide Does, Tidy, CheckMapOf, FailuresToOpen, SuccessesToResolve, Pipeline.Fires, HealthOf;
  }

  lemma StepKeepsFixed(w: World, move: Move, w': World, c: string, f: nat, s: nat)
    requires AllTidy(w) && Step(w, move, w') && FixedMove(move, c, f, s) && AllFixed(w, c, f, s)
    ensures AllFixed(w', c, f, s)
  {
    if move.JobMoves? {
      assert Tidy(w.jobs[move.j]);
      NextKeepsFixed(w.incidents, w.tracker, w.jobs[move.j], move.next, move.effect, c, f, s);
    }
    hide Does, Tidy, FixedJob, I.RepoStep, AllOwned;
  }

  /** With one result of the check in the batch, that is its last. */
  lemma TheOnlyResult(results: seq<CheckResult>, r: CheckResult)
    requires r in results && |HealthOf(results, r.checkID)| == 1
    ensures LastHealthy(results, r.checkID) == r.healthy
  {
    MentionedIn(results, r);
  }

  lemma CountingPays(job: Job, now: Instant, c: string, f: nat, s: nat)
    requires FixedJob(job, c, f, s)
    ensures AlertsPay(job, IncidentAlerts(job.setup, job.results, now), c)
  {
    hide HealthOf, IncidentAlerts, CheckMapOf, Pipeline.Fires;
    var alerts := IncidentAlerts(job.setup, job.results, now);
    if i :| 0 <= i < |alerts| && alerts[i].checkID == c {
      AlertsAreAmong(job.setup, job.results, now);
      assert alerts[i] in alerts;
      var r :| r in job.results && r.checkID == c && Pipeline.Fires(job.setup, r);
      TheOnlyResult(job.results, r);
    }
  }

  /** Passing the gate takes the failures that pay for an incident. */
  lemma GatePays(x: Context, job: Job, rest: seq<Alert>, c: string, f: nat, s: nat)
    requires rest != [] && AlertsPay(job, rest, c) && FixedJob(job, c, f, s)
    requires x.checks == CheckMapOf(job.setup.checks) && x.results == ResultMapOf(job.results)
    ensures JobPays(CountOf(x.tracker, c), job.(phase := AfterGate(x, rest)), c, f, s)
  {
    hide HealthOf, CheckMapOf, ResultMapOf, Pipeline.Fires, Suppressed, FailuresToOpen, SuccessesToResolve, CountOf, ReportOf;
    ReportAbout(x, rest[0]);
    ResultMapIsLast(job.results, c);
    assert forall i :: 0 <= i < |rest[1..]| ==> rest[1..][i] == rest[i + 1];
    assert AnyFor(rest[1..], c) ==> AnyFor(rest, c);
    assert rest[0].checkID == c ==> AnyFor(rest, c);
  }

  /** Finding a recovery takes the successes that pay for a resolution. */
  lemma RecoveryPays(tracker: Tracker, job: Job, r: CheckResult, c: string, f: nat, s: nat)
    requires r in job.results && FixedJob(job, c, f, s) && Recovered(tracker, CheckMapOf(job.setup.checks), r)
    ensures r.checkID == c ==>
      Mentions(job.results, c) && LastHealthy(job.results, c) && CountOf(tracker, c).successes >= s
  {
    hide HealthOf, CheckMapOf, Pipeline.Fires, FailuresToOpen, SuccessesToResolve, CountOf;
    if r.checkID == c {
      MentionedIn(job.results, r);
      TheOnlyResult(job.results, r);
    }
  }

  lemma OwnKeepsPays(m: I.Incidents, tracker: Tracker, job: Job, next: Phase, op: Option<I.RepoOp>, c: string, f: nat, s: nat)
    requires Tidy(job) && Does(m, tracker, job, next, op)
    requires FixedJob(job, c, f, s) && JobPays(CountOf(tracker, c), job, c, f, s)
    ensures !job.phase.Count? ==> JobPays(CountOf(tracker, c), job.(phase := next), c, f, s)
    ensures job.phase.Count? ==> forall count :: JobPays(count, job.(phase := next), c, f, s)
  {
    hide HealthOf, IncidentAlerts, CheckMapOf, ResultMapOf, FixedJob, CountOf, I.IsOpenFor, OpenFor, I.Unix, AnyFor, OwnID, Recovered,
      AfterGate;
    match job.phase
    case Count =>
      forall now { CountingPays(job, now, c, f, s); }
    case Gate(rest) =>
      if rest != [] {
        var windows, now :| next == AfterGate(GateContext(tracker, job, windows, now), rest);
        GatePays(GateContext(tracker, job, windows, now), job, rest, c, f, s);
      }
    case Recover(left) =>
      if left != [] && Recovered(tracker, CheckMapOf(job.setup.checks), left[0]) {
        RecoveryPays(tracker, job, left[0], c, f, s);
      }
    case _ =>
  }

  /** Whether the check has an open incident after the step of a job about it. */
  lemma OwnOpenness(m: I.Incidents, tracker: Tracker, job: Job, next: Phase, op: Option<I.RepoOp>, c: string)
    requires AllOwned(m) && Tidy(job) && Does(m, tracker, job, next, op) && JobFits(m, CountOf(tracker, c), job, c)
    ensures var m' := Operated(m, op);
      && (OpenFor(m', c) && !OpenFor(m, c) ==> job.phase.Create? && Reports(job.phase, c))
      && (OpenFor(m, c) && !OpenFor(m', c) ==> job.phase.Resolve? && job.phase.checkID == c)
      && (job.phase.Resolve? && job.phase.checkID == c ==> !OpenFor(m', c))
  {
    var m' := Operated(m, op);
    forall id
      ensures
        && (I.IsOpenFor(m', c, id) && !I.IsOpenFor(m, c, id) ==> job.phase.Create? && Reports(job.phase, c))
        && (I.IsOpenFor(m, c, id) && !I.IsOpenFor(m', c, id) ==> job.phase.Resolve? && job.phase.checkID == c)
        && (job.phase.Resolve? ==> !I.IsOpenFor(m', job.phase.checkID, job.phase.id))
    {
      JobOpens(m, tracker, job, next, op, c, id);
    }
    hide Does, Tidy, I.IsOpenFor, CountOf, AllOwned, Operated, Mentions, LastHealthy, Reports;
  }

  /** A creation for the check is recorded exactly when it opens an incident. */
  lemma OwnCreated(w: World, move: Move, c: string)
    requires move.JobMoves? && move.j < |w.jobs|
    requires Does(w.incidents, w.tracker, w.jobs[move.j], move.next, move.effect)
    requires w.jobs[move.j].phase.Create? && Reports(w.jobs[move.j].phase, c) ==> !OpenFor(w.incidents, c)
    ensures var creates := w.jobs[move.j].phase.Create? && Reports(w.jobs[move.j].phase, c);
      Times(Recorded(w, move.effect), c) ==
        Times(w.created, c) + if creates && OpenFor(Operated(w.incidents, move.effect), c) then 1 else 0
  {
    var job := w.jobs[move.j];
    OperationFits(w.incidents, w.tracker, job, move.next, move.effect);
    if job.phase.Create? {
      var op := move.effect.value;
      var newID := I.NewIncident(op.report, op.now).id;
      TimesSnoc(w.created, op.report.checkID, c);
      if Reports(job.phase, c) {
        var m' := I.RepoStep(w.incidents, op);
        forall id
          ensures I.IsOpenFor(m', c, id) <==> newID !in w.incidents && id == newID
        {
          OpenAfter(w.incidents, op, c, id);
        }
        assert I.IsOpenFor(m', c, newID) <==> newID !in w.incidents;
      }
    }
    hide Does, I.RepoStep, I.NewIncident, I.IsOpenFor, Times;
  }

  /** How a step of a job changes what the check has counted and created. */
  lemma OwnFigures(w: World, move: Move, w': World, c: string)
    requires Step(w, move, w') && Own(w, move, c)
    ensures var job := w.jobs[move.j];
      && CountOf(w'.tracker, c) == (if job.phase.Count? then CountOf(CountAll(w.tracker, job.results), c) else CountOf(w.tracker, c))
      && |HealthOf(w'.counted, c)| == |HealthOf(w.counted, c)| + (if job.phase.Count? then |HealthOf(job.results, c)| else 0)
      && w'.created == Recorded(w, move.effect)
      && w'.incidents == Operated(w.incidents, move.effect)
  {
    HealthJoins(w.counted, w.jobs[move.j].results, c);
    hide Does, HealthOf, CountOf, CountAll, Recorded, Operated;
  }

  /** The sum that `AllPaid` states, on plain figures. */
  predicate Balance(open: bool, count: ConsecutiveCount, k: nat, n: nat, f: nat, s: nat) {
    if open then k >= 1 && n + s >= k * (f + s) + count.successes else n >= k * (f + s) + count.failures
  }

  lemma PaidIsBalance(w: World, c: string, f: nat, s: nat)
    ensures AllPaid(w, c, f, s) <==>
      Balance(OpenFor(w.incidents, c), CountOf(w.tracker, c), Times(w.created, c), |HealthOf(w.counted, c)|, f, s)
  {
    hide OpenFor, CountOf, Times, HealthOf;
  }

  lemma CountingBalances(open: bool, count: ConsecutiveCount, healthy: bool, k: nat, n: nat, f: nat, s: nat)
    requires Balance(open, count, k, n, f, s)
    ensures Balance(open, if healthy then ConsecutiveCount(0, count.successes + 1) else ConsecutiveCount(count.failures + 1, 0),
                    k, n + 1, f, s)
  {
  }

  lemma CreationBalances(count: ConsecutiveCount, k: nat, n: nat, f: nat, s: nat)
    requires Balance(false, count, k, n, f, s) && count.failures >= f && count.successes == 0
    ensures Balance(true, count, k + 1, n, f, s)
  {
    Distribute(k, f + s);
  }

  lemma ResolutionBalances(count: ConsecutiveCount, k: nat, n: nat, f: nat, s: nat)
    requires Balance(true, count, k, n, f, s) && count.successes >= s && count.failures == 0
    ensures Balance(false, count, k, n, f, s)
  {
  }

  lemma ResultsOfFixed(job: Job, c: string, f: nat, s: nat)
    requires FixedJob(job, c, f, s)
    ensures |HealthOf(job.results, c)| == if Mentions(job.results, c) then 1 else 0
  {
    hide CheckMapOf, Pipeline.Fires, HealthOf;
  }

  lemma CreationIsPaid(m: I.Incidents, count: ConsecutiveCount, job: Job, c: string, f: nat, s: nat)
    requires job.phase.Create? && Reports(job.phase, c) && JobFits(m, count, job, c) && JobPays(count, job, c, f, s)
    ensures !OpenFor(m, c) && count.failures >= f && count.successes == 0
  {
    hide OpenFor, HealthOf, AnyFor;
  }

  lemma ResolutionIsPaid(m: I.Incidents, count: ConsecutiveCount, job: Job, c: string, f: nat, s: nat)
    requires job.phase.Resolve? && job.phase.checkID == c && JobFits(m, count, job, c) && JobPays(count, job, c, f, s)
    ensures count.successes >= s && count.failures == 0
  {
    hide OpenFor, HealthOf;
  }

  lemma StepParts(w: World, move: Move, w': World, c: string)
    requires AllTidy(w) && Step(w, move, w') && Own(w, move, c)
    ensures move.JobMoves? && move.j < |w.jobs| && AllOwned(w.incidents) && Tidy(w.jobs[move.j])
    ensures Does(w.incidents, w.tracker, w.jobs[move.j], move.next, move.effect)
  {
    hide Does, Tidy, AllOwned, Outcome, About;
  }

  /** The sum works out for every step of a job about the check. */
  lemma OwnKeepsPaid(w: World, move: Move, w': World, c: string, f: nat, s: nat)
    requires AllTidy(w) && Step(w, move, w') && Own(w, move, c)
    requires JobFits(w.incidents, CountOf(w.tracker, c), w.jobs[move.j], c)
    requires FixedJob(w.jobs[move.j], c, f, s) && JobPays(CountOf(w.tracker, c), w.jobs[move.j], c, f, s)
    requires AllPaid(w, c, f, s)
    ensures AllPaid(w', c, f, s)
  {
    hide *;
    StepParts(w, move, w', c);
    var job := w.jobs[move.j];
    var count, n, k, open := CountOf(w.tracker, c), |HealthOf(w.counted, c)|, Times(w.created, c), OpenFor(w.incidents, c);
    OwnFigures(w, move, w', c);
    OwnOpenness(w.incidents, w.tracker, job, move.next, move.effect, c);
    PaidIsBalance(w, c, f, s);
    PaidIsBalance(w', c, f, s);
    if job.phase.Create? && Reports(job.phase, c) {
      CreationIsPaid(w.incidents, count, job, c, f, s);
      CreationBalances(count, k, n, f, s);
      OwnCreated(w, move, c);
    } else {
      OwnCreated(w, move, c);
      if job.phase.Count? {
        ResultsOfFixed(job, c, f, s);
        CountingABatch(w.tracker, job.results, c);
        if |HealthOf(job.results, c)| == 1 {
          CountingBalances(open, count, HealthOf(job.results, c)[0], k, n, f, s);
        }
      } else if job.phase.Resolve? && job.phase.checkID == c && open {
        ResolutionIsPaid(w.incidents, count, job, c, f, s);
        ResolutionBalances(count, k, n, f, s);
      }
    }
  }

  lemma OwnKeepsPayInv(w: World, move: Move, w': World, c: string, f: nat, s: nat)
    requires AllTidy(w) && TakesTurns(w, c) && CheckInv(w, c) && PayInv(w, c, f, s)
    requires Step(w, move, w') && Own(w, move, c)
    ensures AllPaid(w', c, f, s)
    ensures forall j :: 0 <= j < |w'.jobs| && About(w'.jobs[j], c) ==> JobPays(CountOf(w'.tracker, c), w'.jobs[j], c, f, s)
  {
    var job := w.jobs[move.j];
    assert Tidy(job) && FixedJob(job, c, f, s);
    OwnKeepsPaid(w, move, w', c, f, s);
    OwnKeepsPays(w.incidents, w.tracker, job, move.next, move.effect, c, f, s);
    hide Does, Tidy, AllOwned, AllPaid, FixedJob, JobFits, OneFor, JobPays, CountOf, CountAll, Operated, HealthOf, Recorded, About;
  }

  lemma StepKeepsPayInv(w: World, move: Move, w': World, c: string, f: nat, s: nat)
    requires AllTidy(w) && TakesTurns(w, c) && CheckInv(w, c) && PayInv(w, c, f, s)
    requires Step(w, move, w') && FixedMove(move, c, f, s)
    ensures PayInv(w', c, f, s)
  {
    StepKeepsFixed(w, move, w', c, f, s);
    if Own(w, move, c) {
      OwnKeepsPayInv(w, move, w', c, f, s);
    } else {
      OthersKeepPaid(w, move, w', c, f, s);
      OthersKeepPays(w, move, w', c, f, s);
    }
    hide *;
  }

  lemma NothingPaidYet(c: string, f: nat, s: nat)
    ensures PayInv(World(map[], map[], [], [], []), c, f, s)
  {
  }

  lemma {:induction false} RunKeepsPayInv(ws: seq<World>, moves: seq<Move>, i: nat, c: string, f: nat, s: nat)
    requires Execution(ws, moves) && i < |ws|
    requires forall k :: 0 <= k < i ==> TakesTurns(ws[k], c) && FixedMove(moves[k], c, f, s)
    ensures PayInv(ws[i], c, f, s)
  {
    hide Step, AllTidy, CheckInv, TakesTurns, PayInv, FixedMove;
    if i == 0 {
      NothingPaidYet(c, f, s);
    } else {
      RunKeepsPayInv(ws, moves, i - 1, c, f, s);
      RunKeepsCheckInv(ws, moves, i - 1, c);
      RunKeepsTidy(ws, moves, i - 1);
      assert Step(ws[i - 1], moves[i - 1], ws[i - 1 + 1]);
      StepKeepsPayInv(ws[i - 1], moves[i - 1], ws[i], c, f, s);
    }
  }

  /** Under every interleaving: the k-th incident created for a check takes at least
      F + (k - 1)(F + S) counted results of that check, if its batches take turns and have one
      result of it each, its thresholds are F and S, its rules fire on unhealthy results only,
      its alerts come from its batches, and nobody resolves by hand. */
  lemma CreationsNeedResultsConcurrently(ws: seq<World>, moves: seq<Move>, i: nat, c: string, f: nat, s: nat)
    requires Execution(ws, moves) && i < |ws|
    requires forall k :: 0 <= k < i ==> TakesTurns(ws[k], c) && FixedMove(moves[k], c, f, s)
    requires Times(ws[i].created, c) >= 1
    ensures |HealthOf(ws[i].counted, c)| >= f + (Times(ws[i].created, c) - 1) * (f + s)
  {
    RunKeepsPayInv(ws, moves, i, c, f, s);
    assert AllPaid(ws[i], c, f, s);
    hide Execution, TakesTurns, FixedMove, PayInv, HealthOf, Times, Paid;
    PaidBounds(State(ws[i].incidents, ws[i].tracker), c, Times(ws[i].created, c), |HealthOf(ws[i].counted, c)|, f, s);
  }

  // ----- Recovery resolves

  predicate HealthyIn(results: seq<CheckResult>, c: string) {
    exists i :: 0 <= i < |results| && results[i].checkID == c && results[i].healthy
  }

  /** The job has counted results of the check and is not done with their recovery. */
  predicate Will(job: Job, c: string) {
    && Mentions(job.results, c)
    && match job.phase
       case Count => false
       case Recover(left) => HealthyIn(left, c)
       case FindRecovered(d, left) => d == c || HealthyIn(left, c)
       case Resolve(_, d, left) => d == c || HealthyIn(left, c)
       case Finished => false
       case _ => true
  }

  predicate SameThreshold(job: Job, c: string, s: nat) {
    && (Reports(job.phase, c) ==> Mentions(job.results, c))
    && (Mentions(job.results, c) ==> SuccessesToResolve(CheckMapOf(job.setup.checks), c) == s)
  }

  predicate SomeoneWill(w: World, c: string) {
    exists j :: 0 <= j < |w.jobs| && Will(w.jobs[j], c)
  }

  /** A check that has recovered and still has an open incident has a batch on its way to
      resolve it. */
  ghost predicate Owed(w: World, c: string, s: nat) {
    && (forall j :: 0 <= j < |w.jobs| ==> SameThreshold(w.jobs[j], c, s))
    && (CountOf(w.tracker, c).successes >= s && OpenFor(w.incidents, c) ==> SomeoneWill(w, c))
  }

  lemma WillIsAbout(job: Job, c: string)
    requires Will(job, c)
    ensures About(job, c)
  {
  }

  lemma NextKeepsThreshold(m: I.Incidents, tracker: Tracker, job: Job, next: Phase, op: Option<I.RepoOp>, c: string, s: nat)
    requires AllOwned(m) && Tidy(job) && Does(m, tracker, job, next, op) && SameThreshold(job, c, s)
    ensures SameThreshold(job.(phase := next), c, s)
  {
    if !About(job, c) {
      StaysOff(m, tracker, job, next, op, c);
    }
    hide Does, Tidy, CheckMapOf, SuccessesToResolve, HealthOf;
  }

  lemma OthersKeepOwed(w: World, move: Move, w': World, c: string, s: nat)
    requires AllTidy(w) && Step(w, move, w') && !Own(w, move, c) && Owed(w, c, s)
    ensures CountOf(w'.tracker, c).successes >= s && OpenFor(w'.incidents, c) ==> SomeoneWill(w', c)
  {
    OthersKeepCheck(w, move, w', c);
    forall id
      ensures I.IsOpenFor(w'.incidents, c, id) ==> I.IsOpenFor(w.incidents, c, id)
    {
      OthersKeepOpen(w, move, w', c, id);
    }
    if CountOf(w'.tracker, c).successes >= s && OpenFor(w'.incidents, c) {
      assert OpenFor(w.incidents, c);
      var j :| 0 <= j < |w.jobs| && Will(w.jobs[j], c);
      WillIsAbout(w.jobs[j], c);
      hide Does, AllTidy, I.IsOpenFor, HealthOf, CountOf, CountAll, Times, SameThreshold, I.RepoStep, Will, About;
      assert Will(w'.jobs[j], c);
    }
  }

  /** A recovered check has a healthy result among those of the batch just counted. */
  lemma RecoveredInBatch(results: seq<CheckResult>, c: string)
    requires Mentions(results, c) && LastHealthy(results, c)
    ensures HealthyIn(results, c)
  {
    HealthComesFromResults(results, c);
    var h := HealthOf(results, c);
    assert h[|h| - 1] in h;
    var r :| r in results && r.checkID == c && r.healthy;
    var i :| 0 <= i < |results| && results[i] == r;
  }

  lemma RestIsHealthy(left: seq<CheckResult>, c: string)
    requires left != [] && HealthyIn(left, c) && !(left[0].checkID == c && left[0].healthy)
    ensures HealthyIn(left[1..], c)
  {
    var i :| 0 <= i < |left| && left[i].checkID == c && left[i].healthy;
    assert left[1..][i - 1] == left[i];
  }

  /** A batch on its way to resolve goes on, or has just resolved. */
  lemma WillGoOn(m: I.Incidents, tracker: Tracker, job: Job, next: Phase, op: Option<I.RepoOp>, c: string, s: nat)
    requires Tidy(job) && Does(m, tracker, job, next, op) && JobFits(m, CountOf(tracker, c), job, c)
    requires SameThreshold(job, c, s) && CountOf(tracker, c).successes >= s && OpenFor(m, c) && Will(job, c)
    ensures Will(job.(phase := next), c) || (job.phase.Resolve? && job.phase.checkID == c)
  {
    hide I.RepoStep, I.IsOpenFor, IncidentAlerts, CheckMapOf, GateContext, OwnID, I.Unix, HealthOf, CountOf, HealthyIn, ReportOf,
      Admitted, OpenFor;
    if job.phase.Gate? && job.phase.rest == [] {
      RecoveredInBatch(job.results, c);
    } else if job.phase.Recover? {
      NoneIsHealthy(c);
      if job.phase.left != [] && !(job.phase.left[0].checkID == c && job.phase.left[0].healthy) {
        RestIsHealthy(job.phase.left, c);
      }
    }
  }

  /** After counting results of the check, or creating an incident for it, a batch will. */
  lemma WillBegins(m: I.Incidents, tracker: Tracker, job: Job, next: Phase, op: Option<I.RepoOp>, c: string)
    requires Does(m, tracker, job, next, op) && Mentions(job.results, c) && (job.phase.Count? || job.phase.Create?)
    ensures Will(job.(phase := next), c)
  {
    hide I.IsOpenFor, IncidentAlerts, I.Unix, HealthOf, HealthyIn;
  }

  /** The check's own batch leaves only when there is nothing left to resolve. */
  lemma OwnKeepsOwed(m: I.Incidents, tracker: Tracker, job: Job, next: Phase, op: Option<I.RepoOp>, c: string, s: nat)
    requires AllOwned(m) && Tidy(job) && Does(m, tracker, job, next, op) && JobFits(m, CountOf(tracker, c), job, c)
    requires Mentions(job.results, c) && SameThreshold(job, c, s)
    requires CountOf(tracker, c).successes >= s && OpenFor(m, c) ==> Will(job, c)
    ensures job.phase.Count? || (CountOf(tracker, c).successes >= s && OpenFor(Operated(m, op), c)) ==>
      Will(job.(phase := next), c)
  {
    hide *;
    OwnOpenness(m, tracker, job, next, op, c);
    if job.phase.Count? || job.phase.Create? {
      WillBegins(m, tracker, job, next, op, c);
    } else if CountOf(tracker, c).successes >= s && OpenFor(m, c) {
      WillGoOn(m, tracker, job, next, op, c, s);
    }
  }

  lemma NoneIsHealthy(c: string)
    ensures !HealthyIn([], c)
  {
  }

  lemma OwnStepKeepsOwed(w: World, move: Move, w': World, c: string, s: nat)
    requires AllTidy(w) && Step(w, move, w') && Own(w, move, c) && TakesTurns(w, c) && CheckInv(w, c) && Owed(w, c, s)
    ensures CountOf(w'.tracker, c).successes >= s && OpenFor(w'.incidents, c) ==> SomeoneWill(w', c)
  {
    var job := w.jobs[move.j];
    assert Tidy(job) && SameThreshold(job, c, s);
    assert Mentions(job.results, c);
    if CountOf(w.tracker, c).successes >= s && OpenFor(w.incidents, c) {
      var j :| 0 <= j < |w.jobs| && Will(w.jobs[j], c);
      WillIsAbout(w.jobs[j], c);
      assert j == move.j by { hide About, Will, Does; }
    }
    OwnKeepsOwed(w.incidents, w.tracker, job, move.next, move.effect, c, s);
    hide Does, Tidy, AllOwned, JobFits, OneFor, CountOf, CountAll, Operated, HealthOf, Recorded, About, Will, OpenFor, SameThreshold;
    assert w'.jobs[move.j] == job.(phase := move.next);
  }

  lemma StepKeepsOwed(w: World, move: Move, w': World, c: string, s: nat)
    requires AllTidy(w) && CheckInv(w, c) && Owed(w, c, s) && TakesTurns(w, c) && Step(w, move, w')
    requires move.Arrives? ==> SameThreshold(move.job, c, s)
    ensures Owed(w', c, s)
  {
    if move.JobMoves? {
      assert Tidy(w.jobs[move.j]);
      NextKeepsThreshold(w.incidents, w.tracker, w.jobs[move.j], move.next, move.effect, c, s);
    }
    if Own(w, move, c) {
      OwnStepKeepsOwed(w, move, w', c, s);
    } else {
      OthersKeepOwed(w, move, w', c, s);
    }
    hide Does, Tidy, AllOwned, CheckInv, TakesTurns, CountOf, CountAll, OpenFor, I.RepoStep, SameThreshold, SomeoneWill, Own;
  }

  lemma NothingOwedYet(c: string, s: nat)
    ensures Owed(World(map[], map[], [], [], []), c, s)
  {
  }

  lemma {:induction false} RunKeepsOwed(ws: seq<World>, moves: seq<Move>, i: nat, c: string, s: nat)
    requires Execution(ws, moves) && i < |ws|
    requires forall k :: 0 <= k < i ==>
      TakesTurns(ws[k], c) && (moves[k].Arrives? ==> SameThreshold(moves[k].job, c, s))
    ensures Owed(ws[i], c, s)
  {
    hide Step, AllTidy, CheckInv, TakesTurns, Owed, SameThreshold;
    if i == 0 {
      NothingOwedYet(c, s);
    } else {
      RunKeepsOwed(ws, moves, i - 1, c, s);
      RunKeepsCheckInv(ws, moves, i - 1, c);
      RunKeepsTidy(ws, moves, i - 1);
      assert Step(ws[i - 1], moves[i - 1], ws[i - 1 + 1]);
      StepKeepsOwed(ws[i - 1], moves[i - 1], ws[i], c, s);
    }
  }

  /** Under every interleaving: when a check's last SuccessesToResolve counted results are
      healthy and no batch that has counted results of it is under way, it has no open
      incident; provided its batches take turns and its alerts come from its batches. */
  lemma HealthyStreakResolvesConcurrently(ws: seq<World>, moves: seq<Move>, i: nat, c: string, s: nat)
    requires Execution(ws, moves) && i < |ws|
    requires forall k :: 0 <= k < i ==>
      TakesTurns(ws[k], c) && (moves[k].Arrives? ==> SameThreshold(moves[k].job, c, s))
    requires forall j :: 0 <= j < |ws[i].jobs| && About(ws[i].jobs[j], c) ==> ws[i].jobs[j].phase.Count?
    requires LastAre(HealthOf(ws[i].counted, c), true, s)
    ensures !OpenFor(ws[i].incidents, c)
  {
    RunKeepsOwed(ws, moves, i, c, s);
    TrackerCountsResults(ws, moves, i);
    CountsAreTrailingRuns(ws[i].counted, c);
    RunReaches(HealthOf(ws[i].counted, c), true, CountOf(ws[i].tracker, c).successes, s);
    if SomeoneWill(ws[i], c) {
      var j :| 0 <= j < |ws[i].jobs| && Will(ws[i].jobs[j], c);
      WillIsAbout(ws[i].jobs[j], c);
    }
    hide Execution, TakesTurns, SameThreshold, HealthOf, CountAll, TrailingRun, LastAre, OpenFor, CountOf, About;
  }
}
