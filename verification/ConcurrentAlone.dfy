/** The batches of the concurrent model are those of the pipeline: a batch, or an alert from
    elsewhere, that runs alone does to the incidents what its calls do as whole steps, and can
    do nothing else. */
module ConcurrentAlone {
  import opened Civil
  import opened Options
  import opened AlertRules
  import opened Maintenance
  import opened Pipeline
  import opened ConcurrentPipeline
  import I = Incidents

  /** Every reading of the clock gives `now`, and the gate sees the windows of the setup. */
  predicate AtTime(tracker: Tracker, job: Job, next: Phase, op: Option<I.RepoOp>, now: Instant) {
    match job.phase
    case Count => next == Gate(IncidentAlerts(job.setup, job.results, now))
    case Gate(rest) => rest != [] ==> next == AfterGate(GateContext(tracker, job, job.setup.windows, now), rest)
    case _ => op.Some? ==> I.OpTime(op.value, now) == now
  }

  ghost predicate Moves(w: World, j: nat, next: Phase, op: Option<I.RepoOp>, now: Instant)
    requires j < |w.jobs|
  {
    && Step(w, JobMoves(j, next, op), Outcome(w, j, next, op))
    && AtTime(w.tracker, w.jobs[j], next, op, now)
  }

  /** Job `j` makes `n` moves, nobody else any, and the world ends as `w'`. */
  ghost predicate Alone(w: World, j: nat, n: nat, now: Instant, w': World)
    requires j < |w.jobs|
    decreases n
  {
    if n == 0 then w' == w
    else exists next, op :: Moves(w, j, next, op, now) && Alone(Outcome(w, j, next, op), j, n - 1, now, w')
  }

  /** The whole calls that a job with these alerts left has still to make. */
  function CallsLeft(tracker: Tracker, setup: Setup, results: seq<CheckResult>, rest: seq<Alert>, now: Instant): seq<I.Op> {
    AlertOps(Context(setup.windows, CheckMapOf(setup.checks), ResultMapOf(results), tracker, now), rest)
    + Recoveries(tracker, setup, results, now)
  }

  function Recoveries(tracker: Tracker, setup: Setup, left: seq<CheckResult>, now: Instant): seq<I.Op> {
    RecoveryOps(tracker, CheckMapOf(setup.checks), left, now)
  }

  /** The rest of the job, as whole calls, can lead to `m'`. */
  ghost predicate LeadsTo(m: I.Incidents, tracker: Tracker, job: Job, now: Instant, m': I.Incidents) {
    match job.phase
    case Count => Reaches(m, BatchOps(job.setup, tracker, job.results, now), m')
    case Gate(rest) => Reaches(m, CallsLeft(tracker, job.setup, job.results, rest, now), m')
    case Find(r, rest) => Reaches(m, [I.Alert(r, now)] + CallsLeft(tracker, job.setup, job.results, rest, now), m')
    case Update(id, r, rest) => Reaches(I.RepoStep(m, I.Apply(id, r, now)), CallsLeft(tracker, job.setup, job.results, rest, now), m')
    case Create(r, rest) => Reaches(I.RepoStep(m, I.RepoOp.Create(r, now)), CallsLeft(tracker, job.setup, job.results, rest, now), m')
    case Recover(left) => Reaches(m, Recoveries(tracker, job.setup, left, now), m')
    case FindRecovered(c, left) => Reaches(m, [I.AutoResolve(c, now)] + Recoveries(tracker, job.setup, left, now), m')
    case Resolve(id, c, left) =>
      Reaches(I.RepoStep(m, I.RepoOp.Resolve(id, "system", now)), Recoveries(tracker, job.setup, left, now), m')
    case Finished => m' == m
  }

  // ----- The calls of a batch, from the front

  lemma {:induction false} AlertOpsCons(x: Context, alerts: seq<Alert>)
    requires alerts != []
    ensures AlertOps(x, alerts) ==
      (if Admitted(x, alerts[0].checkID) then [I.Alert(ReportOf(x, alerts[0]), x.now)] else []) + AlertOps(x, alerts[1..])
  {
    hide Admitted, ReportOf;
    var n := |alerts| - 1;
    if n > 0 {
      AlertOpsCons(x, alerts[..n]);
      assert alerts[..n][1..] == alerts[1..][..n - 1];
    }
  }

  lemma {:induction false} RecoveryOpsCons(tracker: Tracker, checks: CheckMap, results: seq<CheckResult>, now: Instant)
    requires results != []
    ensures RecoveryOps(tracker, checks, results, now) ==
      (if Recovered(tracker, checks, results[0]) then [I.AutoResolve(results[0].checkID, now)] else [])
      + RecoveryOps(tracker, checks, results[1..], now)
  {
    hide Recovered;
    var n := |results| - 1;
    if n > 0 {
      RecoveryOpsCons(tracker, checks, results[..n], now);
      assert results[..n][1..] == results[1..][..n - 1];
    }
  }

  lemma ReachesCons(m: I.Incidents, op: I.Op, ops: seq<I.Op>, m': I.Incidents)
    ensures Reaches(m, [op] + ops, m') <==> exists mid :: I.Step(m, op, mid) && Reaches(mid, ops, m')
  {
    hide I.Step;
    assert ([op] + ops)[0] == op && ([op] + ops)[1..] == ops;
  }

  // ----- One move

  /** What a move leads on to. */
  ghost predicate GoesOn(m: I.Incidents, tracker: Tracker, job: Job, now: Instant, m': I.Incidents, next: Phase, op: Option<I.RepoOp>) {
    && Does(m, tracker, job, next, op) && AtTime(tracker, job, next, op, now)
    && LeadsTo(Operated(m, op), if job.phase.Count? then CountAll(tracker, job.results) else tracker,
               job.(phase := next), now, m')
  }

  lemma CountGoesOn(m: I.Incidents, tracker: Tracker, job: Job, now: Instant, m': I.Incidents)
    requires job.phase.Count?
    ensures LeadsTo(m, tracker, job, now, m') <==> exists next, op :: GoesOn(m, tracker, job, now, m', next, op)
  {
    hide Reaches, IncidentAlerts, AlertOps, RecoveryOps, CountAll, CheckMapOf, ResultMapOf;
    var next := Gate(IncidentAlerts(job.setup, job.results, now));
    assert LeadsTo(m, tracker, job, now, m') <==> GoesOn(m, tracker, job, now, m', next, None);
  }

  /** The only way on from a gate. */
  function FromGate(tracker: Tracker, job: Job, rest: seq<Alert>, now: Instant): Phase {
    if rest == [] then Recover(job.results)
    else AfterGate(GateContext(tracker, job, job.setup.windows, now), rest)
  }

  lemma GateOffers(m: I.Incidents, tracker: Tracker, job: Job, now: Instant, m': I.Incidents)
    requires job.phase.Gate?
    ensures var next := FromGate(tracker, job, job.phase.rest, now);
      GoesOn(m, tracker, job, now, m', next, None) <==> LeadsTo(m, tracker, job.(phase := next), now, m')
    ensures forall next, op :: GoesOn(m, tracker, job, now, m', next, op) ==>
      next == FromGate(tracker, job, job.phase.rest, now) && op == None
  {
    hide LeadsTo, AfterGate, GateContext, CountAll;
  }

  /** Passing the gate makes no difference to the calls that are left. */
  lemma GateLeadsOn(m: I.Incidents, tracker: Tracker, job: Job, now: Instant, m': I.Incidents)
    requires job.phase.Gate?
    ensures LeadsTo(m, tracker, job, now, m') <==>
      LeadsTo(m, tracker, job.(phase := FromGate(tracker, job, job.phase.rest, now)), now, m')
  {
    var rest := job.phase.rest;
    var x := GateContext(tracker, job, job.setup.windows, now);
    var ys := Recoveries(tracker, job.setup, job.results, now);
    hide Reaches, Recoveries, CheckMapOf, ResultMapOf, Admitted, ReportOf;
    if rest == [] {
      assert AlertOps(x, []) + ys == ys;
    } else {
      AlertOpsCons(x, rest);
      hide AlertOps;
      var xs := AlertOps(x, rest[1..]);
      if Admitted(x, rest[0].checkID) {
        var op := I.Alert(ReportOf(x, rest[0]), x.now);
        assert [op] + xs + ys == [op] + (xs + ys);
      } else {
        assert [] + xs == xs;
      }
    }
  }

  lemma GateGoesOn(m: I.Incidents, tracker: Tracker, job: Job, now: Instant, m': I.Incidents)
    requires job.phase.Gate?
    ensures LeadsTo(m, tracker, job, now, m') <==> exists next, op :: GoesOn(m, tracker, job, now, m', next, op)
  {
    hide *;
    GateOffers(m, tracker, job, now, m');
    GateLeadsOn(m, tracker, job, now, m');
  }

  lemma CallFinds(m: I.Incidents, r: I.Report, now: Instant, mid: I.Incidents)
    ensures I.Step(m, I.Alert(r, now), mid) <==>
      if OpenFor(m, r.checkID) then exists id :: I.IsOpenFor(m, r.checkID, id) && mid == I.RepoStep(m, I.Apply(id, r, now))
      else mid == I.RepoStep(m, I.RepoOp.Create(r, now))
  {
    hide I.RepoStep, I.IsOpenFor;
  }

  lemma FindOffers(m: I.Incidents, tracker: Tracker, job: Job, now: Instant, m': I.Incidents, next: Phase, op: Option<I.RepoOp>)
    requires job.phase.Find?
    ensures var r, rest := job.phase.report, job.phase.rest;
      var ops := CallsLeft(tracker, job.setup, job.results, rest, now);
      GoesOn(m, tracker, job, now, m', next, op) <==>
        && op == None
        && if OpenFor(m, r.checkID)
           then && next.Update? && next == Update(next.id, r, rest) && I.IsOpenFor(m, r.checkID, next.id)
                && Reaches(I.RepoStep(m, I.Apply(next.id, r, now)), ops, m')
           else next == Create(r, rest) && Reaches(I.RepoStep(m, I.RepoOp.Create(r, now)), ops, m')
  {
    hide Reaches, CallsLeft, I.RepoStep, I.IsOpenFor, OpenFor, CountAll;
  }

  lemma FindGoesOn(m: I.Incidents, tracker: Tracker, job: Job, now: Instant, m': I.Incidents)
    requires job.phase.Find?
    ensures LeadsTo(m, tracker, job, now, m') <==> exists next, op :: GoesOn(m, tracker, job, now, m', next, op)
  {
    var r, rest := job.phase.report, job.phase.rest;
    var ops := CallsLeft(tracker, job.setup, job.results, rest, now);
    ReachesCons(m, I.Alert(r, now), ops, m');
    hide Reaches, CallsLeft, I.RepoStep, I.IsOpenFor, I.Step, OpenFor, GoesOn;
    if LeadsTo(m, tracker, job, now, m') {
      var mid :| I.Step(m, I.Alert(r, now), mid) && Reaches(mid, ops, m');
      hide LeadsTo;
      CallFinds(m, r, now, mid);
      if OpenFor(m, r.checkID) {
        var id :| I.IsOpenFor(m, r.checkID, id) && mid == I.RepoStep(m, I.Apply(id, r, now));
        FindOffers(m, tracker, job, now, m', Update(id, r, rest), None);
      } else {
        FindOffers(m, tracker, job, now, m', Create(r, rest), None);
      }
    }
    forall next, op | GoesOn(m, tracker, job, now, m', next, op)
      ensures LeadsTo(m, tracker, job, now, m')
    {
      FindOffers(m, tracker, job, now, m', next, op);
      var mid := I.RepoStep(m, if next.Update? then I.Apply(next.id, r, now) else I.RepoOp.Create(r, now));
      CallFinds(m, r, now, mid);
      assert I.Step(m, I.Alert(r, now), mid) && Reaches(mid, ops, m');
    }
  }

  lemma RepositoryGoesOn(m: I.Incidents, tracker: Tracker, job: Job, now: Instant, m': I.Incidents)
    requires job.phase.Update? || job.phase.Create? || job.phase.Resolve?
    requires I.Unix(now) >= 0
    ensures LeadsTo(m, tracker, job, now, m') <==> exists next, op :: GoesOn(m, tracker, job, now, m', next, op)
  {
    hide Reaches, CallsLeft, Recoveries, I.RepoStep, I.Unix;
    var (next, op) :=
      match job.phase
      case Update(id, r, rest) => (Gate(rest), I.Apply(id, r, now))
      case Create(r, rest) => (Gate(rest), I.RepoOp.Create(r, now))
      case Resolve(id, c, left) => (Recover(left), I.RepoOp.Resolve(id, "system", now));
    assert LeadsTo(m, tracker, job, now, m') <==> GoesOn(m, tracker, job, now, m', next, Some(op));
  }

  /** The only way on while looking for recoveries. */
  function FromRecover(tracker: Tracker, job: Job, left: seq<CheckResult>): Phase {
    if left == [] then Finished
    else if Recovered(tracker, CheckMapOf(job.setup.checks), left[0]) then FindRecovered(left[0].checkID, left[1..])
    else Recover(left[1..])
  }

  lemma RecoverOffers(m: I.Incidents, tracker: Tracker, job: Job, now: Instant, m': I.Incidents)
    requires job.phase.Recover?
    ensures var next := FromRecover(tracker, job, job.phase.left);
      GoesOn(m, tracker, job, now, m', next, None) <==> LeadsTo(m, tracker, job.(phase := next), now, m')
    ensures forall next, op :: GoesOn(m, tracker, job, now, m', next, op) ==>
      next == FromRecover(tracker, job, job.phase.left) && op == None
  {
    hide LeadsTo, Recovered, CheckMapOf, CountAll;
  }

  lemma RecoverLeadsOn(m: I.Incidents, tracker: Tracker, job: Job, now: Instant, m': I.Incidents)
    requires job.phase.Recover?
    ensures LeadsTo(m, tracker, job, now, m') <==>
      LeadsTo(m, tracker, job.(phase := FromRecover(tracker, job, job.phase.left)), now, m')
  {
    var left, checks := job.phase.left, CheckMapOf(job.setup.checks);
    if left == [] {
      assert RecoveryOps(tracker, checks, left, now) == [];
      hide CheckMapOf, RecoveryOps, Recovered;
    } else {
      RecoveryOpsCons(tracker, checks, left, now);
      hide Reaches, RecoveryOps, CheckMapOf, Recovered;
      var ops := RecoveryOps(tracker, checks, left[1..], now);
      assert [] + ops == ops;
    }
  }

  lemma RecoverGoesOn(m: I.Incidents, tracker: Tracker, job: Job, now: Instant, m': I.Incidents)
    requires job.phase.Recover?
    ensures LeadsTo(m, tracker, job, now, m') <==> exists next, op :: GoesOn(m, tracker, job, now, m', next, op)
  {
    hide *;
    RecoverOffers(m, tracker, job, now, m');
    RecoverLeadsOn(m, tracker, job, now, m');
  }

  lemma RecoveryFinds(m: I.Incidents, c: string, now: Instant, mid: I.Incidents)
    ensures I.Step(m, I.AutoResolve(c, now), mid) <==>
      if OpenFor(m, c) then exists id :: I.IsOpenFor(m, c, id) && mid == I.RepoStep(m, I.RepoOp.Resolve(id, "system", now))
      else mid == m
  {
    hide I.RepoStep, I.IsOpenFor;
  }

  lemma RecoveryOffers(m: I.Incidents, tracker: Tracker, job: Job, now: Instant, m': I.Incidents, next: Phase, op: Option<I.RepoOp>)
    requires job.phase.FindRecovered?
    ensures var c, left := job.phase.checkID, job.phase.left;
      var ops := Recoveries(tracker, job.setup, left, now);
      GoesOn(m, tracker, job, now, m', next, op) <==>
        && op == None
        && if OpenFor(m, c)
           then && next.Resolve? && next == Resolve(next.id, c, left) && I.IsOpenFor(m, c, next.id)
                && Reaches(I.RepoStep(m, I.RepoOp.Resolve(next.id, "system", now)), ops, m')
           else next == Recover(left) && Reaches(m, ops, m')
  {
    hide Reaches, Recoveries, I.RepoStep, I.IsOpenFor, OpenFor, CountAll;
  }

  lemma FindRecoveredGoesOn(m: I.Incidents, tracker: Tracker, job: Job, now: Instant, m': I.Incidents)
    requires job.phase.FindRecovered?
    ensures LeadsTo(m, tracker, job, now, m') <==> exists next, op :: GoesOn(m, tracker, job, now, m', next, op)
  {
    var c, left := job.phase.checkID, job.phase.left;
    var ops := Recoveries(tracker, job.setup, left, now);
    ReachesCons(m, I.AutoResolve(c, now), ops, m');
    hide Reaches, Recoveries, I.RepoStep, I.IsOpenFor, I.Step, OpenFor, GoesOn;
    if LeadsTo(m, tracker, job, now, m') {
      var mid :| I.Step(m, I.AutoResolve(c, now), mid) && Reaches(mid, ops, m');
      hide LeadsTo;
      RecoveryFinds(m, c, now, mid);
      if OpenFor(m, c) {
        var id :| I.IsOpenFor(m, c, id) && mid == I.RepoStep(m, I.RepoOp.Resolve(id, "system", now));
        RecoveryOffers(m, tracker, job, now, m', Resolve(id, c, left), None);
      } else {
        RecoveryOffers(m, tracker, job, now, m', Recover(left), None);
      }
    }
    forall next, op | GoesOn(m, tracker, job, now, m', next, op)
      ensures LeadsTo(m, tracker, job, now, m')
    {
      RecoveryOffers(m, tracker, job, now, m', next, op);
      var mid := if next.Resolve? then I.RepoStep(m, I.RepoOp.Resolve(next.id, "system", now)) else m;
      RecoveryFinds(m, c, now, mid);
      assert I.Step(m, I.AutoResolve(c, now), mid) && Reaches(mid, ops, m');
    }
  }

  lemma SomeMoveGoesOn(m: I.Incidents, tracker: Tracker, job: Job, now: Instant, m': I.Incidents)
    requires !job.phase.Finished? && I.Unix(now) >= 0
    ensures LeadsTo(m, tracker, job, now, m') <==> exists next, op :: GoesOn(m, tracker, job, now, m', next, op)
  {
    hide *;
    match job.phase
    case Count => CountGoesOn(m, tracker, job, now, m');
    case Gate(_) => GateGoesOn(m, tracker, job, now, m');
    case Find(_, _) => FindGoesOn(m, tracker, job, now, m');
    case Recover(_) => RecoverGoesOn(m, tracker, job, now, m');
    case FindRecovered(_, _) => FindRecoveredGoesOn(m, tracker, job, now, m');
    case _ => RepositoryGoesOn(m, tracker, job, now, m');
  }

  // ----- Whole runs of one job

  function Stage(phase: Phase): nat {
    match phase
    case Count => 3
    case Recover(_) => 1
    case FindRecovered(_, _) => 1
    case Resolve(_, _, _) => 1
    case Finished => 0
    case _ => 2
  }

  function Size(phase: Phase): nat {
    match phase
    case Gate(rest) => 3 * |rest|
    case Find(_, rest) => 3 * |rest| + 2
    case Update(_, _, rest) => 3 * |rest| + 1
    case Create(_, rest) => 3 * |rest| + 1
    case Recover(left) => 3 * |left|
    case FindRecovered(_, left) => 3 * |left| + 2
    case Resolve(_, _, left) => 3 * |left| + 1
    case _ => 0
  }

  lemma MovesGoOn(m: I.Incidents, tracker: Tracker, job: Job, next: Phase, op: Option<I.RepoOp>)
    requires Does(m, tracker, job, next, op)
    ensures Stage(next) < Stage(job.phase) || (Stage(next) == Stage(job.phase) && Size(next) < Size(job.phase))
  {
    hide IncidentAlerts, Admitted, Recovered, OpenFor, I.IsOpenFor, GateContext, ReportOf, CheckMapOf, I.Unix;
  }

  lemma MovesIsGoing(w: World, j: nat, next: Phase, op: Option<I.RepoOp>, now: Instant, m': I.Incidents)
    requires j < |w.jobs|
    ensures var w' := Outcome(w, j, next, op);
      && w'.jobs == w.jobs[j := w.jobs[j].(phase := next)]
      && w'.tracker == (if w.jobs[j].phase.Count? then CountAll(w.tracker, w.jobs[j].results) else w.tracker)
      && (Moves(w, j, next, op, now) && LeadsTo(w'.incidents, w'.tracker, w'.jobs[j], now, m')
          <==> GoesOn(w.incidents, w.tracker, w.jobs[j], now, m', next, op))
  {
    hide Does, AtTime, LeadsTo, Operated, CountAll, Recorded;
  }

  lemma {:induction false} AloneLeadsTo(w: World, j: nat, n: nat, now: Instant, w': World)
    requires j < |w.jobs| && I.Unix(now) >= 0
    requires Alone(w, j, n, now, w') && j < |w'.jobs| && w'.jobs[j].phase.Finished?
    ensures LeadsTo(w.incidents, w.tracker, w.jobs[j], now, w'.incidents)
    decreases n
  {
    hide Moves, GoesOn, I.Unix, Operated, CountAll, Recorded;
    if n == 0 {
      FinishedLeads(w, j, now);
    } else {
      hide LeadsTo;
      var next, op :| Moves(w, j, next, op, now) && Alone(Outcome(w, j, next, op), j, n - 1, now, w');
      MovesIsGoing(w, j, next, op, now, w'.incidents);
      FinishedDoesNothing(w, j, next, op, now);
      AloneLeadsTo(Outcome(w, j, next, op), j, n - 1, now, w');
      SomeMoveGoesOn(w.incidents, w.tracker, w.jobs[j], now, w'.incidents);
    }
  }

  lemma FinishedLeads(w: World, j: nat, now: Instant)
    requires j < |w.jobs| && w.jobs[j].phase.Finished?
    ensures LeadsTo(w.incidents, w.tracker, w.jobs[j], now, w.incidents)
  {
  }

  lemma FinishedDoesNothing(w: World, j: nat, next: Phase, op: Option<I.RepoOp>, now: Instant)
    requires j < |w.jobs| && Moves(w, j, next, op, now)
    ensures !w.jobs[j].phase.Finished?
    ensures Stage(next) < Stage(w.jobs[j].phase) || (Stage(next) == Stage(w.jobs[j].phase) && Size(next) < Size(w.jobs[j].phase))
  {
    MovesGoOn(w.incidents, w.tracker, w.jobs[j], next, op);
    hide Outcome, AtTime, Size;
  }

  lemma {:induction false} LeadsToIsRun(w: World, j: nat, now: Instant, m': I.Incidents) returns (n: nat, w': World)
    requires j < |w.jobs| && I.Unix(now) >= 0
    requires LeadsTo(w.incidents, w.tracker, w.jobs[j], now, m')
    ensures Alone(w, j, n, now, w') && j < |w'.jobs| && w'.jobs[j].phase.Finished? && w'.incidents == m'
    decreases Stage(w.jobs[j].phase), Size(w.jobs[j].phase)
  {
    hide Moves, GoesOn, I.Unix, Outcome, Stage, Size;
    if w.jobs[j].phase.Finished? {
      n, w' := 0, w;
    } else {
      hide LeadsTo;
      SomeMoveGoesOn(w.incidents, w.tracker, w.jobs[j], now, m');
      var next, op :| GoesOn(w.incidents, w.tracker, w.jobs[j], now, m', next, op);
      MovesIsGoing(w, j, next, op, now, m');
      FinishedDoesNothing(w, j, next, op, now);
      n, w' := LeadsToIsRun(Outcome(w, j, next, op), j, now, m');
      n := n + 1;
    }
  }

  /** A batch that runs alone from counting to its end can leave exactly the incidents that the
      calls of the batch, made one after the other, can leave. */
  lemma BatchAloneIsBatch(w: World, j: nat, now: Instant, m': I.Incidents)
    requires j < |w.jobs| && w.jobs[j].phase.Count? && I.Unix(now) >= 0
    ensures var job := w.jobs[j];
      Reaches(w.incidents, BatchOps(job.setup, w.tracker, job.results, now), m') <==>
      exists n: nat, w' ::
        && Alone(w, j, n, now, w') && j < |w'.jobs| && w'.jobs[j].phase.Finished? && w'.incidents == m'
  {
    hide Reaches, BatchOps, Alone, I.Unix;
    if LeadsTo(w.incidents, w.tracker, w.jobs[j], now, m') {
      var n, w' := LeadsToIsRun(w, j, now, m');
    }
    forall n: nat, w' | Alone(w, j, n, now, w') && j < |w'.jobs| && w'.jobs[j].phase.Finished? && w'.incidents == m'
      ensures LeadsTo(w.incidents, w.tracker, w.jobs[j], now, m')
    {
      AloneLeadsTo(w, j, n, now, w');
    }
  }

  /** So can an alert from elsewhere: exactly what the manager's call leaves. */
  lemma AlertAloneIsCall(w: World, j: nat, now: Instant, m': I.Incidents)
    requires j < |w.jobs| && Begins(w.jobs[j]) && w.jobs[j].phase.Find? && I.Unix(now) >= 0
    ensures I.Step(w.incidents, I.Alert(w.jobs[j].phase.report, now), m') <==>
      exists n: nat, w' ::
        && Alone(w, j, n, now, w') && j < |w'.jobs| && w'.jobs[j].phase.Finished? && w'.incidents == m'
  {
    var job := w.jobs[j];
    var call := I.Alert(job.phase.report, now);
    assert CallsLeft(w.tracker, job.setup, job.results, [], now) == [];
    ReachesCons(w.incidents, call, [], m');
    hide Alone, I.Unix, I.Step, CallsLeft;
    if LeadsTo(w.incidents, w.tracker, job, now, m') {
      var n, w' := LeadsToIsRun(w, j, now, m');
    }
    forall n: nat, w' | Alone(w, j, n, now, w') && j < |w'.jobs| && w'.jobs[j].phase.Finished? && w'.incidents == m'
      ensures LeadsTo(w.incidents, w.tracker, job, now, m')
    {
      AloneLeadsTo(w, j, n, now, w');
    }
  }

  // ----- What the records say

  lemma OperationAdds(m: I.Incidents, op: I.RepoOp)
    ensures var m' := I.RepoStep(m, op);
      if op.Create? && I.NewIncident(op.report, op.now).id !in m
      then m' == m[I.NewIncident(op.report, op.now).id := I.NewIncident(op.report, op.now)]
      else m'.Keys <= m.Keys
  {
    hide I.Updated, I.Acknowledged, I.Resolved, I.NewIncident;
  }

  lemma NewIncidentNamesCheck(r: I.Report, now: Instant)
    ensures I.NewIncident(r, now).checkID == r.checkID
  {
  }

  /** `created` grows by one entry exactly when a step stores a new incident, which at most one
      is, and the entry is that incident's check. */
  lemma CreatedIsNew(w: World, move: Move, w': World)
    requires Step(w, move, w')
    ensures w'.created == w.created <==> w'.incidents.Keys <= w.incidents.Keys
    ensures forall id :: id in w'.incidents && id !in w.incidents ==> w'.created == w.created + [w'.incidents[id].checkID]
    ensures forall a, b :: a in w'.incidents.Keys - w.incidents.Keys && b in w'.incidents.Keys - w.incidents.Keys ==> a == b
  {
    hide CountAll, I.RepoStep, I.NewIncident, Does, Begins;
    match move
    case JobMoves(_, _, op) =>
      if op.Some? {
        OperationAdds(w.incidents, op.value);
        if op.value.Create? {
          NewIncidentNamesCheck(op.value.report, op.value.now);
        }
      }
    case Arrives(_) =>
    case Outside(op) => OperationAdds(w.incidents, op);
  }

  /** What a batch running alone leaves besides the incidents: its results are counted, once, and
      the other jobs are where they were. */
  lemma {:induction false} AloneCounts(w: World, j: nat, n: nat, now: Instant, w': World)
    requires j < |w.jobs| && Alone(w, j, n, now, w')
    ensures |w'.jobs| == |w.jobs| && forall k :: 0 <= k < |w.jobs| && k != j ==> w'.jobs[k] == w.jobs[k]
    ensures w'.jobs[j].results == w.jobs[j].results
    ensures var counts := w.jobs[j].phase.Count? && !w'.jobs[j].phase.Count?;
      && w'.tracker == (if counts then CountAll(w.tracker, w.jobs[j].results) else w.tracker)
      && w'.counted == (if counts then w.counted + w.jobs[j].results else w.counted)
    ensures !w.jobs[j].phase.Count? ==> !w'.jobs[j].phase.Count?
    decreases n
  {
    hide Moves, CountAll, Operated, Recorded;
    if n > 0 {
      var next, op :| Moves(w, j, next, op, now) && Alone(Outcome(w, j, next, op), j, n - 1, now, w');
      NeverBackToCount(w, j, next, op, now);
      AloneCounts(Outcome(w, j, next, op), j, n - 1, now, w');
    }
  }

  lemma NeverBackToCount(w: World, j: nat, next: Phase, op: Option<I.RepoOp>, now: Instant)
    requires j < |w.jobs| && Moves(w, j, next, op, now)
    ensures !next.Count?
  {
    MovesGoOn(w.incidents, w.tracker, w.jobs[j], next, op);
    hide Outcome, AtTime, Size, Does;
  }
}
