/** The worker pool of `RunOnce`: a producer, the workers and the collector over two
    unbuffered channels, interleaved one atomic step at a time; and the `running` flag that
    keeps two RunOnce calls apart. */
module Runner {
  import opened Sequences

  type CheckID = string

  datatype Check = Check(id: CheckID, enabled: bool)

  /** A result names the check it belongs to; its payload is whatever the execution made. */
  datatype Result = Result(checkID: CheckID, payload: int)

  predicate IsEnabled(c: Check) {
    c.enabled
  }

  method EnabledChecks(checks: seq<Check>) returns (out: seq<Check>)
    ensures out == Filter(checks, IsEnabled)
    ensures forall c :: c in out <==> c in checks && c.enabled
  {
    forall c
      ensures c in Filter(checks, IsEnabled) <==> c in checks && c.enabled
    {
      FilterMembers(checks, IsEnabled, c);
    }
    out := [];
    for i := 0 to |checks|
      invariant out == Filter(checks[..i], IsEnabled)
    {
      FilterPrefix(checks, i, IsEnabled);
      if checks[i].enabled {
        out := out + [checks[i]];
      }
    }
    assert checks[..|checks|] == checks;
  }

  /** One worker at least, never more than there are checks, and otherwise as configured. */
  function WorkerCount(configured: int, n: nat): (r: nat)
    ensures r >= 1
    ensures n >= 1 ==> r <= n
    ensures 1 <= configured <= n ==> r == configured
    ensures configured <= 0 ==> r == 1
    ensures 1 <= n <= configured ==> r == n
  {
    var w := if configured > n then n else configured;
    if w <= 0 then 1 else w
  }

  // ----- The pool

  datatype Worker = Receiving | Executing(check: Check) | Sending(result: Result) | Exited
  datatype Producer = Offering(next: nat) | Waiting | ClosedOut
  datatype Collector = Ranging | Returned

  /** `jobs` and `out` are open until the producer closes them.  `wg` counts the workers that
      have not called Done.  A send on a closed channel, or a Done too many, panics. */
  datatype Pool = Pool(
    workers: seq<Worker>,
    producer: Producer,
    collector: Collector,
    jobsClosed: bool,
    outClosed: bool,
    wg: nat,
    panicked: bool,
    results: seq<Result>)

  predicate Start(checks: seq<Check>, configured: int, p: Pool) {
    var w := WorkerCount(configured, |checks|);
    p == Pool(seq(w, i => Receiving), Offering(0), Ranging, false, false, w, false, [])
  }

  /** The producer hands the next check to a receiving worker. */
  predicate Handoff(checks: seq<Check>, p: Pool, w: nat, p': Pool) {
    && w < |p.workers| && p.workers[w].Receiving?
    && p.producer.Offering? && p.producer.next < |checks|
    && p' == if p.jobsClosed then p.(panicked := true)
             else p.(workers := p.workers[w := Executing(checks[p.producer.next])],
                     producer := Offering(p.producer.next + 1))
  }

  predicate Execute(p: Pool, w: nat, payload: int, p': Pool) {
    && w < |p.workers| && p.workers[w].Executing?
    && p' == p.(workers := p.workers[w := Sending(Result(p.workers[w].check.id, payload))])
  }

  /** A worker hands its result to the collector. */
  predicate Deliver(p: Pool, w: nat, p': Pool) {
    && w < |p.workers| && p.workers[w].Sending?
    && if p.outClosed then p' == p.(panicked := true)
       else
         && p.collector.Ranging?
         && p' == p.(workers := p.workers[w := Receiving], results := p.results + [p.workers[w].result])
  }

  /** Range over the closed jobs channel ends, and the deferred wg.Done runs. */
  predicate Exit(p: Pool, w: nat, p': Pool) {
    && w < |p.workers| && p.workers[w].Receiving? && p.jobsClosed
    && p' == if p.wg == 0 then p.(panicked := true)
             else p.(workers := p.workers[w := Exited], wg := p.wg - 1)
  }

  predicate CloseJobs(checks: seq<Check>, p: Pool, p': Pool) {
    && p.producer.Offering? && p.producer.next >= |checks|
    && p' == if p.jobsClosed then p.(panicked := true) else p.(jobsClosed := true, producer := Waiting)
  }

  predicate CloseOut(p: Pool, p': Pool) {
    && p.producer.Waiting? && p.wg == 0
    && p' == if p.outClosed then p.(panicked := true) else p.(outClosed := true, producer := ClosedOut)
  }

  predicate Finish(p: Pool, p': Pool) {
    p.collector.Ranging? && p.outClosed && p' == p.(collector := Returned)
  }

  ghost predicate Next(checks: seq<Check>, p: Pool, p': Pool) {
    && !p.panicked
    && (|| (exists w: nat :: Handoff(checks, p, w, p'))
        || (exists w: nat, payload :: Execute(p, w, payload, p'))
        || (exists w: nat :: Deliver(p, w, p'))
        || (exists w: nat :: Exit(p, w, p'))
        || CloseJobs(checks, p, p')
        || CloseOut(p, p')
        || Finish(p, p'))
  }

  ghost predicate Run(checks: seq<Check>, configured: int, ps: seq<Pool>) {
    && |ps| > 0
    && Start(checks, configured, ps[0])
    && forall i :: 0 <= i < |ps| - 1 ==> Next(checks, ps[i], ps[i + 1])
  }

  // ----- The invariant

  function CheckIDs(checks: seq<Check>): seq<CheckID> {
    seq(|checks|, i requires 0 <= i < |checks| => checks[i].id)
  }

  function ResultIDs(results: seq<Result>): seq<CheckID> {
    seq(|results|, i requires 0 <= i < |results| => results[i].checkID)
  }

  // How often check ID `x` occurs among checks, among results, and in the workers' hands.

  function ChecksOf(checks: seq<Check>, x: CheckID): nat {
    if checks == [] then 0
    else ChecksOf(checks[..|checks| - 1], x) + if checks[|checks| - 1].id == x then 1 else 0
  }

  function ResultsOf(results: seq<Result>, x: CheckID): nat {
    if results == [] then 0
    else ResultsOf(results[..|results| - 1], x) + if results[|results| - 1].checkID == x then 1 else 0
  }

  function Holds(w: Worker, x: CheckID): nat {
    match w
    case Executing(c) => if c.id == x then 1 else 0
    case Sending(r) => if r.checkID == x then 1 else 0
    case _ => 0
  }

  function InHand(ws: seq<Worker>, x: CheckID): nat {
    if ws == [] then 0 else InHand(ws[..|ws| - 1], x) + Holds(ws[|ws| - 1], x)
  }

  lemma {:induction false} InHandUpdate(ws: seq<Worker>, i: nat, w: Worker, x: CheckID)
    requires i < |ws|
    ensures InHand(ws[i := w], x) == InHand(ws, x) - Holds(ws[i], x) + Holds(w, x)
    ensures Holds(ws[i], x) <= InHand(ws, x)
  {
    var last := |ws| - 1;
    if i == last {
      assert ws[i := w][..last] == ws[..last];
    } else {
      InHandUpdate(ws[..last], i, w, x);
      assert ws[i := w][..last] == ws[..last][i := w];
    }
  }

  lemma {:induction false} NothingInHand(ws: seq<Worker>, x: CheckID)
    requires forall i :: 0 <= i < |ws| ==> Holds(ws[i], x) == 0
    ensures InHand(ws, x) == 0
  {
    if ws != [] {
      NothingInHand(ws[..|ws| - 1], x);
    }
  }

  lemma {:induction false} ChecksTally(checks: seq<Check>, x: CheckID)
    ensures multiset(CheckIDs(checks))[x] == ChecksOf(checks, x)
  {
    if checks != [] {
      var front := checks[..|checks| - 1];
      ChecksTally(front, x);
      assert CheckIDs(checks) == CheckIDs(front) + [checks[|checks| - 1].id];
    }
  }

  lemma {:induction false} ResultsTally(results: seq<Result>, x: CheckID)
    ensures multiset(ResultIDs(results))[x] == ResultsOf(results, x)
  {
    if results != [] {
      var front := results[..|results| - 1];
      ResultsTally(front, x);
      assert ResultIDs(results) == ResultIDs(front) + [results[|results| - 1].checkID];
    }
  }

  function Active(w: Worker): nat {
    if w.Exited? then 0 else 1
  }

  function Offered(checks: seq<Check>, p: Pool): nat {
    match p.producer
    case Offering(next) => if next <= |checks| then next else |checks|
    case _ => |checks|
  }

  /** The channels are closed in order and at the right time. */
  ghost predicate Channels(checks: seq<Check>, p: Pool) {
    && |p.workers| > 0
    && !p.panicked
    && (p.producer.Offering? ==> p.producer.next <= |checks|)
    && (p.jobsClosed <==> !p.producer.Offering?)
    && (p.outClosed <==> p.producer.ClosedOut?)
    && p.wg == Sum(p.workers, Active)
    && (p.outClosed ==> p.wg == 0)
    && (p.collector.Returned? ==> p.outClosed)
    && (!p.jobsClosed ==> forall w :: 0 <= w < |p.workers| ==> !p.workers[w].Exited?)
  }

  /** Every check offered so far is in the results or in one worker's hand. */
  predicate Conserved(checks: seq<Check>, p: Pool, x: CheckID) {
    ResultsOf(p.results, x) + InHand(p.workers, x) == ChecksOf(checks[..Offered(checks, p)], x)
  }

  lemma {:induction false} AllActive(ws: seq<Worker>)
    requires forall i :: 0 <= i < |ws| ==> !ws[i].Exited?
    ensures Sum(ws, Active) == |ws|
  {
    if ws != [] {
      AllActive(ws[..|ws| - 1]);
    }
  }

  /** A worker that has not exited keeps the wait group from being empty. */
  lemma ActiveCounts(p: Pool, w: nat)
    requires p.wg == Sum(p.workers, Active) && w < |p.workers| && !p.workers[w].Exited?
    ensures p.wg > 0
  {
    SumUpdate(p.workers, w, p.workers[w], Active);
  }

  lemma StartIsSound(checks: seq<Check>, configured: int, p: Pool, x: CheckID)
    requires Start(checks, configured, p)
    ensures Channels(checks, p) && Conserved(checks, p, x)
  {
    NothingInHand(p.workers, x);
    AllActive(p.workers);
  }

  lemma HandoffIsSound(checks: seq<Check>, p: Pool, w: nat, p': Pool, x: CheckID)
    requires Channels(checks, p) && Conserved(checks, p, x) && Handoff(checks, p, w, p')
    ensures Channels(checks, p') && Conserved(checks, p', x)
  {
    var n := p.producer.next;
    SumUpdate(p.workers, w, p'.workers[w], Active);
    InHandUpdate(p.workers, w, p'.workers[w], x);
    assert checks[..n + 1][..n] == checks[..n];
  }

  lemma ExecuteIsSound(checks: seq<Check>, p: Pool, w: nat, payload: int, p': Pool, x: CheckID)
    requires Channels(checks, p) && Conserved(checks, p, x) && Execute(p, w, payload, p')
    ensures Channels(checks, p') && Conserved(checks, p', x)
  {
    SumUpdate(p.workers, w, p'.workers[w], Active);
    InHandUpdate(p.workers, w, p'.workers[w], x);
  }

  lemma DeliverIsSound(checks: seq<Check>, p: Pool, w: nat, p': Pool, x: CheckID)
    requires Channels(checks, p) && Conserved(checks, p, x) && Deliver(p, w, p')
    ensures Channels(checks, p') && Conserved(checks, p', x)
  {
    ActiveCounts(p, w);
    SumUpdate(p.workers, w, p'.workers[w], Active);
    InHandUpdate(p.workers, w, p'.workers[w], x);
    ResultsSnoc(p.results, p'.results[|p.results|], x);
    hide ChecksOf, InHand, ResultsOf, Sum;
  }

  lemma ResultsSnoc(results: seq<Result>, r: Result, x: CheckID)
    ensures ResultsOf(results + [r], x) == ResultsOf(results, x) + if r.checkID == x then 1 else 0
  {
    assert (results + [r])[..|results|] == results;
  }

  lemma ExitIsSound(checks: seq<Check>, p: Pool, w: nat, p': Pool, x: CheckID)
    requires Channels(checks, p) && Conserved(checks, p, x) && Exit(p, w, p')
    ensures Channels(checks, p') && Conserved(checks, p', x)
  {
    ActiveCounts(p, w);
    SumUpdate(p.workers, w, p'.workers[w], Active);
    InHandUpdate(p.workers, w, p'.workers[w], x);
  }

  lemma CloseIsSound(checks: seq<Check>, p: Pool, p': Pool, x: CheckID)
    requires Channels(checks, p) && Conserved(checks, p, x)
    requires CloseJobs(checks, p, p') || CloseOut(p, p') || Finish(p, p')
    ensures Channels(checks, p') && Conserved(checks, p', x)
  {
  }

  lemma NextIsSound(checks: seq<Check>, p: Pool, p': Pool, x: CheckID)
    requires Channels(checks, p) && Conserved(checks, p, x) && Next(checks, p, p')
    ensures Channels(checks, p') && Conserved(checks, p', x)
  {
    hide Channels, Conserved, Handoff, Execute, Deliver, Exit, CloseJobs, CloseOut, Finish;
    if w: nat :| Handoff(checks, p, w, p') {
      HandoffIsSound(checks, p, w, p', x);
    } else if w: nat, payload :| Execute(p, w, payload, p') {
      ExecuteIsSound(checks, p, w, payload, p', x);
    } else if w: nat :| Deliver(p, w, p') {
      DeliverIsSound(checks, p, w, p', x);
    } else if w: nat :| Exit(p, w, p') {
      ExitIsSound(checks, p, w, p', x);
    } else {
      CloseIsSound(checks, p, p', x);
    }
  }

  lemma {:induction false} RunIsSound(checks: seq<Check>, configured: int, ps: seq<Pool>, i: nat, x: CheckID)
    requires Run(checks, configured, ps) && i < |ps|
    ensures Channels(checks, ps[i]) && Conserved(checks, ps[i], x)
  {
    if i == 0 {
      StartIsSound(checks, configured, ps[0], x);
    } else {
      hide Channels, Conserved, Start;
      RunIsSound(checks, configured, ps, i - 1, x);
      assert Next(checks, ps[i - 1], ps[i - 1 + 1]);
      NextIsSound(checks, ps[i - 1], ps[i], x);
    }
  }

  /** No run panics: nothing is ever sent on a closed channel, no channel is closed twice and
      the wait group never goes negative. */
  lemma NeverPanics(checks: seq<Check>, configured: int, ps: seq<Pool>, i: nat)
    requires Run(checks, configured, ps) && i < |ps|
    ensures !ps[i].panicked
  {
    RunIsSound(checks, configured, ps, i, "");
  }

  /** When the collector returns, each check has been executed exactly once: the results
      carry the same multiset of check IDs. */
  lemma CollectsEachCheckOnce(checks: seq<Check>, configured: int, ps: seq<Pool>, i: nat)
    requires Run(checks, configured, ps) && i < |ps| && ps[i].collector.Returned?
    ensures multiset(ResultIDs(ps[i].results)) == multiset(CheckIDs(checks))
  {
    var p := ps[i];
    forall x
      ensures multiset(ResultIDs(p.results))[x] == multiset(CheckIDs(checks))[x]
    {
      RunIsSound(checks, configured, ps, i, x);
      SumZero(p.workers, Active);
      forall w | 0 <= w < |p.workers|
        ensures Holds(p.workers[w], x) == 0
      {
        assert Active(p.workers[w]) == 0;
      }
      NothingInHand(p.workers, x);
      assert checks[..|checks|] == checks;
      ChecksTally(checks, x);
      ResultsTally(p.results, x);
    }
  }

  // ----- Termination

  function WorkerRank(w: Worker): nat {
    match w
    case Executing(_) => 3
    case Sending(_) => 2
    case Receiving => 1
    case Exited => 0
  }

  function Rank(checks: seq<Check>, p: Pool): nat {
    3 * (|checks| - Offered(checks, p)) + Sum(p.workers, WorkerRank)
    + (match p.producer case Offering(_) => 2 case Waiting => 1 case ClosedOut => 0)
    + (if p.collector.Ranging? then 1 else 0)
  }

  lemma WorkerStepLowersRank(checks: seq<Check>, p: Pool, w: nat, payload: int, p': Pool)
    requires !p'.panicked
    requires Handoff(checks, p, w, p') || Execute(p, w, payload, p') || Deliver(p, w, p') || Exit(p, w, p')
    ensures Rank(checks, p') < Rank(checks, p)
  {
    SumUpdate(p.workers, w, p'.workers[w], WorkerRank);
  }

  lemma NextLowersRank(checks: seq<Check>, p: Pool, p': Pool)
    requires !p'.panicked && Next(checks, p, p')
    ensures Rank(checks, p') < Rank(checks, p)
  {
    hide Handoff, Execute, Deliver, Exit;
    if w: nat :| Handoff(checks, p, w, p') || Deliver(p, w, p') || Exit(p, w, p') {
      WorkerStepLowersRank(checks, p, w, 0, p');
    } else if w: nat, payload :| Execute(p, w, payload, p') {
      WorkerStepLowersRank(checks, p, w, payload, p');
    }
  }

  /** Every scheduling comes to an end within a number of steps fixed at the start. */
  lemma {:induction false} RunsAreBounded(checks: seq<Check>, configured: int, ps: seq<Pool>, i: nat)
    requires Run(checks, configured, ps) && i < |ps|
    ensures i + Rank(checks, ps[i]) <= Rank(checks, ps[0])
  {
    if i > 0 {
      RunsAreBounded(checks, configured, ps, i - 1);
      NeverPanics(checks, configured, ps, i);
      assert Next(checks, ps[i - 1], ps[i - 1 + 1]);
      NextLowersRank(checks, ps[i - 1], ps[i]);
    }
  }

  /** Where a run can end, the collector has returned: no scheduling deadlocks the pool. */
  lemma RunsEndCollected(checks: seq<Check>, configured: int, ps: seq<Pool>, i: nat)
    requires Run(checks, configured, ps) && i < |ps|
    requires forall p' :: !Next(checks, ps[i], p')
    ensures ps[i].collector.Returned?
  {
    RunIsSound(checks, configured, ps, i, "");
    var p := ps[i];
    if !p.collector.Returned? {
      var p' := SomeNext(checks, p);
    }
  }

  lemma SomeNext(checks: seq<Check>, p: Pool) returns (p': Pool)
    requires Channels(checks, p) && p.collector.Ranging?
    ensures Next(checks, p, p')
  {
    if p.outClosed {
      p' := p.(collector := Returned);
      assert Finish(p, p');
    } else if w: nat :| w < |p.workers| && p.workers[w].Executing? {
      p' := p.(workers := p.workers[w := Sending(Result(p.workers[w].check.id, 0))]);
      assert Execute(p, w, 0, p');
    } else if w: nat :| w < |p.workers| && p.workers[w].Sending? {
      p' := p.(workers := p.workers[w := Receiving], results := p.results + [p.workers[w].result]);
      assert Deliver(p, w, p');
    } else if p.producer.Offering? {
      if p.producer.next < |checks| {
        p' := p.(workers := p.workers[0 := Executing(checks[p.producer.next])],
                 producer := Offering(p.producer.next + 1));
        assert Handoff(checks, p, 0, p');
      } else {
        p' := p.(jobsClosed := true, producer := Waiting);
        assert CloseJobs(checks, p, p');
      }
    } else if w: nat :| w < |p.workers| && p.workers[w].Receiving? {
      ActiveCounts(p, w);
      p' := p.(workers := p.workers[w := Exited], wg := p.wg - 1);
      assert Exit(p, w, p');
    } else {
      SumZero(p.workers, Active);
      p' := p.(outClosed := true, producer := ClosedOut);
      assert CloseOut(p, p');
    }
  }

  // ----- The running flag

  datatype Caller = Outside | Holding | Body | Releasing | Skipped | Done

  /** `mu` is held by the caller it names. */
  datatype Flag = Flag(running: bool, locked: bool, holder: nat, callers: seq<Caller>)

  predicate FlagStart(f: Flag) {
    !f.running && !f.locked && forall c :: c in f.callers ==> c == Outside
  }

  predicate FlagStep(f: Flag, c: nat, f': Flag)
    requires c < |f.callers|
  {
    match f.callers[c]
    case Outside =>
      !f.locked && f' == f.(locked := true, holder := c, callers := f.callers[c := Holding])
    case Holding =>
      if f.running then f' == f.(locked := false, callers := f.callers[c := Skipped])
      else f' == f.(running := true, locked := false, callers := f.callers[c := Body])
    case Body =>
      !f.locked && f' == f.(locked := true, holder := c, callers := f.callers[c := Releasing])
    case Releasing =>
      f' == f.(running := false, locked := false, callers := f.callers[c := Done])
    case _ => false
  }

  ghost predicate SomeCallerSteps(f: Flag, f': Flag) {
    exists c: nat :: c < |f.callers| && FlagStep(f, c, f')
  }

  ghost predicate FlagRun(fs: seq<Flag>) {
    && |fs| > 0 && FlagStart(fs[0])
    && forall i :: 0 <= i < |fs| - 1 ==> SomeCallerSteps(fs[i], fs[i + 1])
  }

  predicate HasLock(c: Caller) {
    c.Holding? || c.Releasing?
  }

  predicate Inside(c: Caller) {
    c.Body? || c.Releasing?
  }

  ghost predicate SomebodyInside(f: Flag) {
    exists c :: 0 <= c < |f.callers| && Inside(f.callers[c])
  }

  ghost predicate SomebodyLocks(f: Flag) {
    exists c :: 0 <= c < |f.callers| && HasLock(f.callers[c])
  }

  /** The mutex is held by exactly the caller that has it, `running` is set exactly while a
      caller is inside, and at most one is. */
  ghost predicate FlagInv(f: Flag) {
    && (forall c :: 0 <= c < |f.callers| && HasLock(f.callers[c]) ==> f.locked && f.holder == c)
    && (f.locked ==> SomebodyLocks(f))
    && (f.running <==> SomebodyInside(f))
    && (forall c, d :: 0 <= c < d < |f.callers| ==> !(Inside(f.callers[c]) && Inside(f.callers[d])))
  }

  lemma FlagStepKeepsInv(f: Flag, c: nat, f': Flag)
    requires FlagInv(f) && c < |f.callers| && FlagStep(f, c, f')
    ensures FlagInv(f')
  {
    assert |f'.callers| == |f.callers| && forall d :: 0 <= d < |f.callers| && d != c ==> f'.callers[d] == f.callers[d];
    assert f'.locked ==> HasLock(f'.callers[c]);
    if SomebodyInside(f) {
      var d :| 0 <= d < |f.callers| && Inside(f.callers[d]);
      assert d != c ==> Inside(f'.callers[d]);
      assert d == c && f'.running ==> Inside(f'.callers[c]);
    } else {
      assert f'.running ==> Inside(f'.callers[c]);
    }
  }

  lemma {:induction false} FlagRunKeepsInv(fs: seq<Flag>, i: nat)
    requires FlagRun(fs) && i < |fs|
    ensures FlagInv(fs[i])
  {
    if i > 0 {
      FlagRunKeepsInv(fs, i - 1);
      assert SomeCallerSteps(fs[i - 1], fs[i - 1 + 1]);
      var c: nat :| c < |fs[i - 1].callers| && FlagStep(fs[i - 1], c, fs[i]);
      FlagStepKeepsInv(fs[i - 1], c, fs[i]);
    } else {
      forall c | 0 <= c < |fs[0].callers|
        ensures fs[0].callers[c] == Outside
      {
        assert fs[0].callers[c] in fs[0].callers;
      }
    }
  }

  /** Two overlapping RunOnce calls are never both in the body, and `running` is set exactly
      while one is. */
  lemma OneRunAtATime(fs: seq<Flag>, i: nat)
    requires FlagRun(fs) && i < |fs|
    ensures forall c, d :: 0 <= c < d < |fs[i].callers| ==>
      !(Inside(fs[i].callers[c]) && Inside(fs[i].callers[d]))
    ensures fs[i].running <==> SomebodyInside(fs[i])
  {
    FlagRunKeepsInv(fs, i);
  }

  /** A call that has taken the lock is skipped if and only if another is inside at that moment;
      otherwise it enters the body. */
  lemma SkippedIffBusy(fs: seq<Flag>, i: nat, c: nat)
    requires FlagRun(fs) && i + 1 < |fs|
    requires c < |fs[i].callers| && fs[i].callers[c].Holding? && FlagStep(fs[i], c, fs[i + 1])
    ensures fs[i + 1].callers[c].Skipped? || fs[i + 1].callers[c].Body?
    ensures fs[i + 1].callers[c].Skipped? <==> exists d :: 0 <= d < |fs[i].callers| && d != c && Inside(fs[i].callers[d])
  {
    FlagRunKeepsInv(fs, i);
    if SomebodyInside(fs[i]) {
      var d :| 0 <= d < |fs[i].callers| && Inside(fs[i].callers[d]);
      assert d != c;
    }
  }

  /** Nobody waits for the mutex for ever: while a call is unfinished, some call can go on. */
  lemma FlagNeverStuck(fs: seq<Flag>, i: nat, c: nat) returns (d: nat, f': Flag)
    requires FlagRun(fs) && i < |fs|
    requires c < |fs[i].callers| && !fs[i].callers[c].Skipped? && !fs[i].callers[c].Done?
    ensures d < |fs[i].callers| && FlagStep(fs[i], d, f')
  {
    FlagRunKeepsInv(fs, i);
    var f := fs[i];
    d := c;
    if f.locked {
      var h :| 0 <= h < |f.callers| && HasLock(f.callers[h]);
      d := h;
    }
    match f.callers[d]
    case Outside => f' := f.(locked := true, holder := d, callers := f.callers[d := Holding]);
    case Holding =>
      f' := if f.running then f.(locked := false, callers := f.callers[d := Skipped])
            else f.(running := true, locked := false, callers := f.callers[d := Body]);
    case Body => f' := f.(locked := true, holder := d, callers := f.callers[d := Releasing]);
    case Releasing => f' := f.(running := false, locked := false, callers := f.callers[d := Done]);
    case _ => f' := f;
  }
}
