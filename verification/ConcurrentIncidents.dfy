/** Under concurrency: one open incident per check, and counters that follow the results. */
module ConcurrentIncidents {
  import opened Civil
  import opened Options
  import opened AlertRules
  import opened Maintenance
  import opened Pipeline
  import I = Incidents
  import opened ConcurrentPipeline

  // ----- One open incident per check

  ghost predicate OneFor(m: I.Incidents, c: string) {
    forall i, j :: I.IsOpenFor(m, c, i) && I.IsOpenFor(m, c, j) ==> i == j
  }

  /** What a job about a check relies on: the check's counters are those its own results left,
      no incident has come up since it looked, and none but the one it found is open. */
  ghost predicate JobFits(m: I.Incidents, count: ConsecutiveCount, job: Job, c: string) {
    && (!job.phase.Count? && Mentions(job.results, c) ==>
          && (count.successes >= 1 <==> LastHealthy(job.results, c))
          && (count.failures >= 1 <==> !LastHealthy(job.results, c)))
    && (job.phase.Create? && Reports(job.phase, c) ==> !OpenFor(m, c))
    && (job.phase.Resolve? && job.phase.checkID == c ==> forall id :: I.IsOpenFor(m, c, id) ==> id == job.phase.id)
  }

  ghost predicate CheckInv(w: World, c: string) {
    && OneFor(w.incidents, c)
    && forall j :: 0 <= j < |w.jobs| && About(w.jobs[j], c) ==>
         JobFits(w.incidents, CountOf(w.tracker, c), w.jobs[j], c)
  }

  lemma FewerOpen(m: I.Incidents, m': I.Incidents, count: ConsecutiveCount, job: Job, c: string)
    requires JobFits(m, count, job, c) && forall id :: I.IsOpenFor(m', c, id) ==> I.IsOpenFor(m, c, id)
    ensures JobFits(m', count, job, c)
  {
    hide I.IsOpenFor, Mentions, LastHealthy;
  }

  /** Jobs about the check after somebody else's step were so before, or have just begun. */
  lemma OthersJobs(w: World, move: Move, w': World, c: string, j: nat)
    requires AllTidy(w) && Step(w, move, w') && !Own(w, move, c)
    requires j < |w'.jobs| && About(w'.jobs[j], c)
    ensures if j < |w.jobs| then w'.jobs[j] == w.jobs[j] else Begins(w'.jobs[j])
  {
    if move.JobMoves? {
      assert Tidy(w.jobs[move.j]);
      StaysOff(w.incidents, w.tracker, w.jobs[move.j], move.next, move.effect, c);
    }
    hide Does, I.RepoStep, HealthOf, CountAll, Tidy, About, Begins;
  }

  lemma BeginningFits(m: I.Incidents, count: ConsecutiveCount, job: Job, c: string)
    requires Begins(job)
    ensures JobFits(m, count, job, c)
  {
  }

  lemma OthersKeepCheckInv(w: World, move: Move, w': World, c: string)
    requires AllTidy(w) && Step(w, move, w') && !Own(w, move, c) && CheckInv(w, c)
    ensures CheckInv(w', c)
  {
    hide Step, AllTidy, Own, I.IsOpenFor, HealthOf, CountOf, Times, JobFits, About, Begins;
    OthersKeepCheck(w, move, w', c);
    forall id
      ensures I.IsOpenFor(w'.incidents, c, id) ==> I.IsOpenFor(w.incidents, c, id)
    {
      OthersKeepOpen(w, move, w', c, id);
    }
    forall j | 0 <= j < |w'.jobs| && About(w'.jobs[j], c)
      ensures JobFits(w'.incidents, CountOf(w'.tracker, c), w'.jobs[j], c)
    {
      OthersJobs(w, move, w', c, j);
      if j < |w.jobs| {
        FewerOpen(w.incidents, w'.incidents, CountOf(w.tracker, c), w.jobs[j], c);
      } else {
        BeginningFits(w'.incidents, CountOf(w'.tracker, c), w'.jobs[j], c);
      }
    }
  }

  lemma OwnKeepsOneFor(m: I.Incidents, tracker: Tracker, job: Job, next: Phase, op: Option<I.RepoOp>, c: string)
    requires AllOwned(m) && Tidy(job) && Does(m, tracker, job, next, op)
    requires OneFor(m, c) && JobFits(m, CountOf(tracker, c), job, c)
    ensures OneFor(Operated(m, op), c)
  {
    var m' := Operated(m, op);
    if job.phase.Create? && Reports(job.phase, c) {
      OperationFits(m, tracker, job, next, op);
      forall id
        ensures I.IsOpenFor(m', c, id) ==> id == I.NewIncident(op.value.report, op.value.now).id
      {
        OpenAfter(m, op.value, c, id);
      }
      hide I.NewIncident;
    } else {
      forall id
        ensures I.IsOpenFor(m', c, id) ==> I.IsOpenFor(m, c, id)
      {
        JobOpens(m, tracker, job, next, op, c, id);
      }
    }
    hide Does, I.RepoStep, I.IsOpenFor, Mentions, CountOf, OwnID;
  }

  lemma OwnKeepsHealth(tracker: Tracker, job: Job, m: I.Incidents, c: string)
    requires JobFits(m, CountOf(tracker, c), job, c) && Mentions(job.results, c)
    ensures var count := CountOf(if job.phase.Count? then CountAll(tracker, job.results) else tracker, c);
      && (count.successes >= 1 <==> LastHealthy(job.results, c))
      && (count.failures >= 1 <==> !LastHealthy(job.results, c))
  {
    CountingABatch(tracker, job.results, c);
    hide HealthOf, CountAll, CountOf, I.IsOpenFor, OpenFor;
  }

  /** What the job has looked up is still so right after. */
  lemma LookUpFits(m: I.Incidents, tracker: Tracker, job: Job, next: Phase, op: Option<I.RepoOp>, c: string)
    requires Does(m, tracker, job, next, op) && OneFor(m, c)
    ensures next.Create? && Reports(next, c) ==> op.None? && !OpenFor(m, c)
    ensures next.Resolve? && next.checkID == c ==> op.None? && forall id :: I.IsOpenFor(m, c, id) ==> id == next.id
    ensures next != Count
  {
    hide I.IsOpenFor, IncidentAlerts, Admitted, Recovered, CheckMapOf, GateContext, I.Unix, ReportOf;
  }

  lemma OwnKeepsFits(m: I.Incidents, tracker: Tracker, job: Job, next: Phase, op: Option<I.RepoOp>, c: string)
    requires AllOwned(m) && Tidy(job) && Does(m, tracker, job, next, op)
    requires OneFor(m, c) && JobFits(m, CountOf(tracker, c), job, c)
    ensures var tracker' := if job.phase.Count? then CountAll(tracker, job.results) else tracker;
      JobFits(Operated(m, op), CountOf(tracker', c), job.(phase := next), c)
  {
    LookUpFits(m, tracker, job, next, op, c);
    if Mentions(job.results, c) {
      OwnKeepsHealth(tracker, job, m, c);
    }
    hide Does, Tidy, AllOwned, I.RepoStep, I.IsOpenFor, OpenFor, Mentions, LastHealthy, CountAll, CountOf, OneFor;
  }

  lemma OwnKeepsCheckInv(w: World, move: Move, w': World, c: string)
    requires AllTidy(w) && Step(w, move, w') && Own(w, move, c) && TakesTurns(w, c) && CheckInv(w, c)
    ensures CheckInv(w', c)
  {
    var job := w.jobs[move.j];
    assert Tidy(job);
    OwnKeepsOneFor(w.incidents, w.tracker, job, move.next, move.effect, c);
    OwnKeepsFits(w.incidents, w.tracker, job, move.next, move.effect, c);
    hide Does, Tidy, AllOwned, JobFits, OneFor, CountOf, CountAll, Operated, HealthOf, I.RepoStep, About;
  }

  lemma StepKeepsCheckInv(w: World, move: Move, w': World, c: string)
    requires AllTidy(w) && Step(w, move, w') && TakesTurns(w, c) && CheckInv(w, c)
    ensures CheckInv(w', c)
  {
    hide *;
    if Own(w, move, c) {
      OwnKeepsCheckInv(w, move, w', c);
    } else {
      OthersKeepCheckInv(w, move, w', c);
    }
  }

  lemma NothingYet(c: string)
    ensures var w := World(map[], map[], [], [], []);
      AllTidy(w) && CheckInv(w, c) && w.tracker == CountAll(map[], w.counted)
  {
  }

  lemma {:induction false} RunKeepsCheckInv(ws: seq<World>, moves: seq<Move>, i: nat, c: string)
    requires Execution(ws, moves) && i < |ws| && forall k :: 0 <= k < i ==> TakesTurns(ws[k], c)
    ensures CheckInv(ws[i], c)
  {
    hide Step, AllTidy, CheckInv, TakesTurns;
    if i == 0 {
      NothingYet(c);
    } else {
      RunKeepsCheckInv(ws, moves, i - 1, c);
      RunKeepsTidy(ws, moves, i - 1);
      assert Step(ws[i - 1], moves[i - 1], ws[i - 1 + 1]);
      StepKeepsCheckInv(ws[i - 1], moves[i - 1], ws[i], c);
    }
  }

  /** If the batches and alerts of a check take turns, it never has two open incidents, whatever
      those of other checks and the calls from elsewhere do in between. */
  lemma OneOpenPerCheckConcurrently(ws: seq<World>, moves: seq<Move>, i: nat, c: string)
    requires Execution(ws, moves) && i < |ws| && forall k :: 0 <= k < i ==> TakesTurns(ws[k], c)
    ensures OneFor(ws[i].incidents, c)
  {
    hide Execution, TakesTurns;
    RunKeepsCheckInv(ws, moves, i, c);
  }

  // ----- Counters

  lemma StepCounts(w: World, move: Move, w': World)
    requires Step(w, move, w') && w.tracker == CountAll(map[], w.counted)
    ensures w'.tracker == CountAll(map[], w'.counted)
  {
    if move.JobMoves? {
      CountAllJoins(map[], w.counted, w.jobs[move.j].results);
    }
    hide Does, CountAll, I.RepoStep, Recorded, Operated;
  }

  lemma {:induction false} TrackerCountsResults(ws: seq<World>, moves: seq<Move>, i: nat)
    requires Execution(ws, moves) && i < |ws|
    ensures ws[i].tracker == CountAll(map[], ws[i].counted)
  {
    hide Step, CountAll;
    if i == 0 {
      NothingYet("");
    } else {
      TrackerCountsResults(ws, moves, i - 1);
      assert Step(ws[i - 1], moves[i - 1], ws[i - 1 + 1]);
      StepCounts(ws[i - 1], moves[i - 1], ws[i]);
    }
  }
}
