/** What a Stop call can rely on: that nothing runs after it, that it ends, also under continuing
    arrivals, and that this holds only for the call that found the scheduler running. */
module SchedulerStop {
  import opened Sequences
  import opened Scheduler

  // ----- Safety

  ghost predicate Stopped(s: State) {
    exists t :: 0 <= t < |s.threads| && s.threads[t].StopReturned?
  }

  lemma NothingAfterReturn(t: nat, pc: Pc, s: Shared, pc': Pc, s': Shared)
    requires ThreadStep(t, pc, s, pc', s')
    ensures !Finished(pc)
  {
  }

  lemma StepKeepsStopped(s: State, s': State)
    requires Next(s, s') && Stopped(s)
    ensures Stopped(s')
  {
    hide ThreadStep;
    var t :| 0 <= t < |s.threads| && s.threads[t].StopReturned?;
    if u: nat :| u < |s.threads| && Step(s, u, s') {
      NothingAfterReturn(u, s.threads[u], s.shared, s'.threads[u], s'.shared);
    }
    assert s'.threads[t].StopReturned?;
  }

  /** From the moment the Stop call that cleared `running` returns, no check body is
      executing, in that state or any later one: none was left behind and none starts. */
  lemma {:induction false} NothingRunsAfterStop(states: seq<State>, i: nat, j: nat)
    requires Run(states) && i <= j < |states|
    requires Stopped(states[i])
    ensures Stopped(states[j])
    ensures forall t :: 0 <= t < |states[j].threads| ==> !InBody(states[j].threads[t])
    decreases j - i
  {
    if i < j {
      NothingRunsAfterStop(states, i, j - 1);
      assert Next(states[j - 1], states[j - 1 + 1]);
      StepKeepsStopped(states[j - 1], states[j]);
    }
    RunKeepsInv(states, j);
    SumZero(states[j].threads, BodyCount);
    forall t | 0 <= t < |states[j].threads|
      ensures !InBody(states[j].threads[t])
    {
      assert BodyCount(states[j].threads[t]) == 0;
    }
  }

  /** wg.Add is never about to be called while a Stop call is in wg.Wait. */
  lemma AddNeverRacesWait(states: seq<State>, i: nat, t: nat, u: nat)
    requires Run(states) && i < |states|
    requires t < |states[i].threads| && u < |states[i].threads|
    requires states[i].threads[t].StopWait?
    ensures !states[i].threads[u].GateOpen?
  {
    RunKeepsInv(states, i);
    assert HoldsWgMu(states[i].threads[t]);
  }

  // ----- Stop returns

  ghost predicate Enabled(s: State, t: nat) {
    t < |s.threads| && exists s' :: Step(s, t, s')
  }

  /** What a thread at `pc` waits for, if anything: the two mutexes and wg.Wait. */
  predicate Blocked(pc: Pc, s: Shared) {
    match pc
    case Begin(_) => s.wgMu != Nobody
    case StopGate => s.wgMu != Nobody
    case CooldownLock(_) => s.mu != Nobody
    case CallbackLock(_) => s.mu != Nobody
    case StopBegin => s.mu != Nobody
    case UseBegin(_) => s.mu != Nobody
    case StopWait => s.wg > 0
    case _ => false
  }

  lemma SomeStep(t: nat, pc: Pc, s: Shared) returns (pc': Pc, s': Shared)
    requires !Finished(pc) && !Blocked(pc, s) && (pc.Leave? ==> s.wg > 0)
    ensures ThreadStep(t, pc, s, pc', s')
  {
    pc', s' := Done, s;
    match pc
    case Begin(left) => pc', s' := Gate(left), s.(wgMu := Thread(t));
    case Gate(left) => pc' := if s.cancelled then GateShut else GateOpen(left);
    case GateShut => s' := s.(wgMu := Nobody);
    case GateOpen(left) => pc', s' := Counted(left), s.(wg := s.wg + 1);
    case Counted(left) => pc', s' := Recheck(left), s.(wgMu := Nobody);
    case Recheck(left) => pc' := if s.cancelled then Leave else CooldownLock(left);
    case CooldownLock(left) => pc', s' := CooldownRead(left), s.(mu := Thread(t));
    case CooldownRead(left) => pc', s' := CooldownTest(left), s.(mu := Nobody);
    case CooldownTest(left) => pc' := Leave;
    case Attempt(left) => pc' := if left == 0 then StoreLock else Execute(left - 1);
    case Execute(left) => pc' := Attempt(left);
    case CallbackLock(left) => pc', s' := CallbackRead(left), s.(mu := Thread(t));
    case CallbackRead(left) => pc', s' := Callback(left), s.(mu := Nobody);
    case Callback(left) => pc' := Leave;
    case StoreLock => pc' := Leave;
    case StoreWrite => pc', s' := Leave, s.(mu := Nobody);
    case Leave => s' := s.(wg := s.wg - 1);
    case StopBegin => pc', s' := StopTest, s.(mu := Thread(t));
    case StopTest => pc', s' := if s.running then StopClear else StopNoop, s.(running := false);
    case StopNoop => pc', s' := StopIgnored, s.(mu := Nobody);
    case StopClear => pc', s' := StopCancelled, s.(cancelled := true);
    case StopCancelled => pc', s' := StopGate, s.(mu := Nobody);
    case StopGate => pc', s' := StopWait, s.(wgMu := Thread(t));
    case StopWait => pc' := StopWaited;
    case StopWaited => pc', s' := StopReturned, s.(wgMu := Nobody);
    case UseBegin(starts) => pc', s' := UseHolds(starts), s.(mu := Thread(t));
    case UseHolds(starts) => pc', s' := UseDone, s.(mu := Nobody, running := s.running || starts);
    case _ => assert false;
  }

  lemma Unblocked(s: State, t: nat)
    requires Inv(s) && t < |s.threads|
    requires !Finished(s.threads[t]) && !Blocked(s.threads[t], s.shared)
    ensures Enabled(s, t)
  {
    hide ThreadStep;
    SumUpdate(s.threads, t, s.threads[t], BodyCount);
    var pc', shared' := SomeStep(t, s.threads[t], s.shared);
    assert Step(s, t, State(shared', s.threads[t := pc']));
  }

  /** A thread that waits for `mu` waits for one that can move. */
  lemma MuHolderMoves(s: State)
    requires Inv(s) && s.shared.mu != Nobody
    ensures exists t: nat :: Enabled(s, t)
  {
    assert HoldsMu(s.threads[s.shared.mu.id]);
    Unblocked(s, s.shared.mu.id);
  }

  /** A counted body waits for `mu` at most, never for `wgMu`. */
  lemma BodyMoves(s: State, t: nat)
    requires Inv(s) && t < |s.threads| && InBody(s.threads[t])
    ensures exists u: nat :: Enabled(s, u)
  {
    if Blocked(s.threads[t], s.shared) {
      MuHolderMoves(s);
    } else {
      Unblocked(s, t);
    }
  }

  lemma SomebodyMoves(s: State, t: nat)
    requires Inv(s) && t < |s.threads| && !Finished(s.threads[t])
    ensures exists u: nat :: Enabled(s, u)
  {
    if !Blocked(s.threads[t], s.shared) {
      Unblocked(s, t);
    } else if s.shared.wg > 0 {
      SumZero(s.threads, BodyCount);
      var u :| 0 <= u < |s.threads| && BodyCount(s.threads[u]) != 0;
      BodyMoves(s, u);
    } else if s.threads[t].Begin? || s.threads[t].StopGate? {
      assert HoldsWgMu(s.threads[s.shared.wgMu.id]);
      Unblocked(s, s.shared.wgMu.id);
    } else {
      MuHolderMoves(s);
    }
  }

  /** No reachable state is a deadlock: where no thread can take a step, every call has
      returned, every Stop among them. */
  lemma NoDeadlock(states: seq<State>, i: nat)
    requires Run(states) && i < |states|
    requires forall t: nat :: !Enabled(states[i], t)
    ensures forall t :: 0 <= t < |states[i].threads| ==> Finished(states[i].threads[t])
  {
    RunKeepsInv(states, i);
    forall t | 0 <= t < |states[i].threads|
      ensures Finished(states[i].threads[t])
    {
      if !Finished(states[i].threads[t]) {
        SomebodyMoves(states[i], t);
      }
    }
  }

  /** An upper bound on the steps a call has left. */
  function Rank(pc: Pc): nat {
    match pc
    case Begin(left) => 5 * left + 11
    case Gate(left) => 5 * left + 10
    case GateShut => 1
    case GateOpen(left) => 5 * left + 9
    case Counted(left) => 5 * left + 8
    case Recheck(left) => 5 * left + 7
    case CooldownLock(left) => 5 * left + 6
    case CooldownRead(left) => 5 * left + 5
    case CooldownTest(left) => 5 * left + 4
    case Attempt(left) => 5 * left + 4
    case Execute(left) => 5 * left + 8
    case CallbackLock(left) => 5 * left + 7
    case CallbackRead(left) => 5 * left + 6
    case Callback(left) => 5 * left + 5
    case StoreLock => 3
    case StoreWrite => 2
    case Leave => 1
    case StopBegin => 7
    case StopTest => 6
    case StopNoop => 1
    case StopClear => 5
    case StopCancelled => 4
    case StopGate => 3
    case StopWait => 2
    case StopWaited => 1
    case UseBegin(_) => 2
    case UseHolds(_) => 1
    case _ => 0
  }

  lemma StepUsesRankInBody(t: nat, pc: Pc, s: Shared, pc': Pc, s': Shared)
    requires ThreadStep(t, pc, s, pc', s') && InBody(pc)
    ensures Rank(pc') < Rank(pc)
  {
  }

  lemma StepUsesRank(t: nat, pc: Pc, s: Shared, pc': Pc, s': Shared)
    requires ThreadStep(t, pc, s, pc', s')
    ensures Rank(pc') < Rank(pc)
  {
    if InBody(pc) {
      hide ThreadStep, Rank;
      StepUsesRankInBody(t, pc, s, pc', s');
    }
  }

  lemma StepLowersRank(s: State, t: nat, s': State)
    requires t < |s.threads| && Step(s, t, s')
    ensures Sum(s'.threads, Rank) < Sum(s.threads, Rank)
  {
    hide ThreadStep, Rank;
    StepUsesRank(t, s.threads[t], s.shared, s'.threads[t], s'.shared);
    SumUpdate(s.threads, t, s'.threads[t], Rank);
  }

  /** While no new call arrives, only boundedly many steps are possible under any scheduling;
      with NoDeadlock, every Stop returns. */
  lemma {:induction false} StepsAreBounded(states: seq<State>, i: nat, j: nat)
    requires Run(states) && i <= j < |states|
    requires forall k :: i <= k < j ==> !Spawn(states[k], states[k + 1])
    ensures j - i + Sum(states[j].threads, Rank) <= Sum(states[i].threads, Rank)
    decreases j - i
  {
    hide ThreadStep, Rank;
    if i < j {
      StepsAreBounded(states, i, j - 1);
      assert Next(states[j - 1], states[j - 1 + 1]) && !Spawn(states[j - 1], states[j - 1 + 1]);
      var t: nat :| t < |states[j - 1].threads| && Step(states[j - 1], t, states[j]);
      StepLowersRank(states[j - 1], t, states[j]);
    }
  }

  // ----- Stop under continuing arrivals

  /** A step of one of the first `n` threads. */
  predicate Moved(s: State, s': State, n: nat) {
    n <= |s.threads| && n <= |s'.threads| && s.threads[..n] != s'.threads[..n]
  }

  /** How many steps from `i` to `j` the first `n` threads take. */
  function StepsOfFirst(states: seq<State>, n: nat, i: nat, j: nat): nat
    requires i <= j < |states|
  {
    if i == j then 0
    else StepsOfFirst(states, n, i, j - 1) + if Moved(states[j - 1], states[j], n) then 1 else 0
  }

  lemma NextLowersRankOfFirst(s: State, s': State, n: nat)
    requires Next(s, s') && n <= |s.threads|
    ensures |s.threads| <= |s'.threads|
    ensures Sum(s'.threads[..n], Rank) + (if Moved(s, s', n) then 1 else 0) <= Sum(s.threads[..n], Rank)
  {
    hide ThreadStep, Rank, Arrives;
    if Spawn(s, s') {
      assert s'.threads[..n] == s.threads[..n];
    } else {
      var t: nat :| t < |s.threads| && Step(s, t, s');
      if t < n {
        StepUsesRank(t, s.threads[t], s.shared, s'.threads[t], s'.shared);
        SumUpdate(s.threads[..n], t, s'.threads[t], Rank);
        assert s'.threads[..n] == s.threads[..n][t := s'.threads[t]];
      } else {
        assert s'.threads[..n] == s.threads[..n];
      }
    }
  }

  /** However many calls arrive, those present at one moment take at most as many steps from
      then on as their ranks add up to. */
  lemma {:induction false} PresentStepsAreBounded(states: seq<State>, i: nat, j: nat)
    requires Run(states) && i <= j < |states|
    ensures var n := |states[i].threads|;
      && n <= |states[j].threads|
      && StepsOfFirst(states, n, i, j) + Sum(states[j].threads[..n], Rank) <= Sum(states[i].threads, Rank)
    decreases j - i
  {
    hide Next, Moved, Sum;
    var n := |states[i].threads|;
    if i < j {
      PresentStepsAreBounded(states, i, j - 1);
      assert Next(states[j - 1], states[j - 1 + 1]);
      NextLowersRankOfFirst(states[j - 1], states[j], n);
    } else {
      assert states[i].threads[..n] == states[i].threads;
    }
  }

  lemma NextMovesOn(s: State, s': State, t: nat)
    requires Next(s, s') && t < |s.threads|
    ensures t < |s'.threads|
    ensures s'.threads[t] == s.threads[t] || Rank(s'.threads[t]) < Rank(s.threads[t])
  {
    hide ThreadStep, Rank, Arrives;
    if u: nat :| u < |s.threads| && Step(s, u, s') {
      StepUsesRank(u, s.threads[u], s.shared, s'.threads[u], s'.shared);
    }
  }

  /** A call never comes back to where it was. */
  lemma {:induction false} CallsOnlyMoveOn(states: seq<State>, i: nat, j: nat, t: nat)
    requires Run(states) && i <= j < |states| && t < |states[i].threads|
    ensures t < |states[j].threads|
    ensures states[j].threads[t] == states[i].threads[t] || Rank(states[j].threads[t]) < Rank(states[i].threads[t])
    decreases j - i
  {
    hide Next, Rank;
    if i < j {
      CallsOnlyMoveOn(states, i, j - 1, t);
      assert Next(states[j - 1], states[j - 1 + 1]);
      NextMovesOn(states[j - 1], states[j], t);
    }
  }

  lemma JoinsThroughGate(t: nat, pc: Pc, s: Shared, pc': Pc, s': Shared)
    requires ThreadStep(t, pc, s, pc', s') && InBody(pc') && !InBody(pc)
    ensures pc.GateOpen?
  {
  }

  lemma BodiesDoNotJoin(states: seq<State>, i: nat, t: nat, u: nat)
    requires Run(states) && i + 1 < |states| && t < |states[i].threads| && states[i].threads[t].StopWait?
    requires u < |states[i + 1].threads| && InBody(states[i + 1].threads[u])
    ensures u < |states[i].threads| && InBody(states[i].threads[u])
  {
    var s, s' := states[i], states[i + 1];
    assert Next(s, s');
    if v: nat :| v < |s.threads| && Step(s, v, s') {
      hide ThreadStep, InBody, Run;
      if !InBody(s.threads[u]) {
        JoinsThroughGate(v, s.threads[v], s.shared, s'.threads[v], s'.shared);
        AddNeverRacesWait(states, i, t, v);
      }
    }
  }

  /** While a Stop call waits for the wait group, the only bodies it waits for are those that
      were counted when it began to wait: nothing that arrives later overtakes it. */
  lemma {:induction false} WaitingStopIsNotOvertaken(states: seq<State>, i: nat, j: nat, t: nat, u: nat)
    requires Run(states) && i <= j < |states| && t < |states[i].threads| && t < |states[j].threads|
    requires states[i].threads[t].StopWait? && states[j].threads[t].StopWait?
    requires u < |states[j].threads| && InBody(states[j].threads[u])
    ensures u < |states[i].threads| && InBody(states[i].threads[u])
    decreases j - i
  {
    hide *;
    if i < j {
      CallsOnlyMoveOn(states, i, j - 1, t);
      CallsOnlyMoveOn(states, j - 1, j, t);
      assert states[j - 1].threads[t] == StopWait;
      BodiesDoNotJoin(states, j - 1, t, u);
      WaitingStopIsNotOvertaken(states, i, j - 1, t, u);
    }
  }

  /** It can go on exactly when no body is left. */
  lemma WaitEndsWithTheBodies(states: seq<State>, i: nat, t: nat)
    requires Run(states) && i < |states| && t < |states[i].threads| && states[i].threads[t].StopWait?
    ensures Enabled(states[i], t) <==> NoBody(states[i])
  {
    var s := states[i];
    RunKeepsInv(states, i);
    SumZero(s.threads, BodyCount);
    hide Inv;
    assert NoBody(s) <==> s.shared.wg == 0 by {
      assert forall u :: 0 <= u < |s.threads| ==> (BodyCount(s.threads[u]) == 0 <==> !InBody(s.threads[u]));
    }
    if s.shared.wg == 0 {
      assert Step(s, t, State(s.shared, s.threads[t := StopWaited]));
    }
  }

  ghost predicate NoBody(s: State) {
    forall t :: 0 <= t < |s.threads| ==> !InBody(s.threads[t])
  }

  // ----- A Stop call that finds the scheduler stopped

  /** Whenever a call has come to `pc`, no check body is executing. */
  ghost predicate GuaranteesQuiet(pc: Pc) {
    forall states: seq<State>, i, t ::
      Run(states) && 0 <= i < |states| && 0 <= t < |states[i].threads| && states[i].threads[t] == pc ==>
        NoBody(states[i])
  }

  ghost predicate Reachable(s: State) {
    exists states: seq<State> :: Run(states) && states[|states| - 1] == s
  }

  lemma Arrive(shared: Shared, threads: seq<Pc>, pc: Pc)
    requires Reachable(State(shared, threads)) && Arrives(pc)
    ensures Reachable(State(shared, threads + [pc]))
  {
    hide Arrives;
    var states: seq<State> :| Run(states) && states[|states| - 1] == State(shared, threads);
    var s' := State(shared, threads + [pc]);
    assert Spawn(states[|states| - 1], s');
    assert Run(states + [s']);
  }

  /** The last call to arrive takes a step. */
  lemma Move(shared: Shared, before: seq<Pc>, pc: Pc, pc': Pc, shared': Shared)
    requires Reachable(State(shared, before + [pc])) && ThreadStep(|before|, pc, shared, pc', shared')
    ensures Reachable(State(shared', before + [pc']))
  {
    hide ThreadStep;
    var states: seq<State> :| Run(states) && states[|states| - 1] == State(shared, before + [pc]);
    var s' := State(shared', before + [pc']);
    assert s'.threads == (before + [pc])[|before| := pc'];
    assert Step(states[|states| - 1], |before|, s');
    assert Run(states + [s']);
  }

  lemma InitIsReachable()
    ensures Reachable(State(Shared(false, false, Nobody, Nobody, 0), []))
  {
    hide Next;
    var states := [State(Shared(false, false, Nobody, Nobody, 0), [])];
    assert Run(states) && states[|states| - 1] == states[0];
  }

  lemma UseSteps(t: nat, s: Shared)
    requires s.mu == Nobody
    ensures var held := s.(mu := Thread(t));
      && ThreadStep(t, UseBegin(true), s, UseHolds(true), held)
      && ThreadStep(t, UseHolds(true), held, UseDone, s.(running := true))
  {
  }

  lemma SchedulerStarts()
    ensures Reachable(State(Shared(true, false, Nobody, Nobody, 0), [UseDone]))
  {
    var idle := Shared(false, false, Nobody, Nobody, 0);
    InitIsReachable();
    UseSteps(0, idle);
    hide ThreadStep, Reachable;
    Arrive(idle, [], UseBegin(true));
    Move(idle, [], UseBegin(true), UseHolds(true), idle.(mu := Thread(0)));
    Move(idle.(mu := Thread(0)), [], UseHolds(true), UseDone, idle.(running := true));
    assert [] + [UseDone] == [UseDone];
  }

  lemma GateSteps(t: nat, n: nat, s: Shared)
    requires s.wgMu == Nobody && !s.cancelled
    ensures var gated := s.(wgMu := Thread(t));
      && ThreadStep(t, Begin(n), s, Gate(n), gated)
      && ThreadStep(t, Gate(n), gated, GateOpen(n), gated)
      && ThreadStep(t, GateOpen(n), gated, Counted(n), gated.(wg := s.wg + 1))
      && ThreadStep(t, Counted(n), gated.(wg := s.wg + 1), Recheck(n), s.(wg := s.wg + 1))
  {
  }

  lemma BodySteps(t: nat, n: nat, s: Shared)
    requires s.mu == Nobody && !s.cancelled && n > 0
    ensures var held := s.(mu := Thread(t));
      && ThreadStep(t, Recheck(n), s, CooldownLock(n), s)
      && ThreadStep(t, CooldownLock(n), s, CooldownRead(n), held)
      && ThreadStep(t, CooldownRead(n), held, CooldownTest(n), s)
      && ThreadStep(t, CooldownTest(n), s, Execute(n - 1), s)
  {
  }

  lemma BodyExecutes(n: nat)
    requires n > 0
    ensures Reachable(State(Shared(true, false, Nobody, Nobody, 1), [UseDone] + [Execute(n - 1)]))
  {
    SchedulerStarts();
    var started, before := Shared(true, false, Nobody, Nobody, 0), [UseDone];
    var gated, counted := started.(wgMu := Thread(1)), started.(wg := 1);
    GateSteps(1, n, started);
    BodySteps(1, n, counted);
    hide Reachable, ThreadStep;
    Arrive(started, before, Begin(n));
    Move(started, before, Begin(n), Gate(n), gated);
    Move(gated, before, Gate(n), GateOpen(n), gated);
    Move(gated, before, GateOpen(n), Counted(n), gated.(wg := 1));
    Move(gated.(wg := 1), before, Counted(n), Recheck(n), counted);
    Move(counted, before, Recheck(n), CooldownLock(n), counted);
    Move(counted, before, CooldownLock(n), CooldownRead(n), counted.(mu := Thread(1)));
    Move(counted.(mu := Thread(1)), before, CooldownRead(n), CooldownTest(n), counted);
    Move(counted, before, CooldownTest(n), Execute(n - 1), counted);
  }

  lemma StopSteps(t: nat, s: Shared)
    requires s.mu == Nobody && s.running
    ensures var held, cleared := s.(mu := Thread(t)), s.(mu := Thread(t), running := false);
      && ThreadStep(t, StopBegin, s, StopTest, held)
      && ThreadStep(t, StopTest, held, StopClear, cleared)
      && ThreadStep(t, StopClear, cleared, StopCancelled, cleared.(cancelled := true))
      && ThreadStep(t, StopCancelled, cleared.(cancelled := true), StopGate, cleared.(cancelled := true, mu := Nobody))
      && (s.wgMu == Nobody ==>
            ThreadStep(t, StopGate, s.(running := false, cancelled := true), StopWait,
                       s.(running := false, cancelled := true, wgMu := Thread(t))))
  {
  }

  /** A Stop call clears `running` and goes to wait for the body. */
  lemma FirstStopWaits()
    ensures Reachable(State(Shared(false, true, Nobody, Thread(2), 1), [UseDone] + [Execute(0)] + [StopWait]))
  {
    BodyExecutes(1);
    StopSteps(2, Shared(true, false, Nobody, Nobody, 1));
    hide ThreadStep, Reachable;
    var s, before := Shared(true, false, Nobody, Nobody, 1), [UseDone] + [Execute(0)];
    var held, cleared := s.(mu := Thread(2)), s.(mu := Thread(2), running := false);
    Arrive(s, before, StopBegin);
    Move(s, before, StopBegin, StopTest, held);
    Move(held, before, StopTest, StopClear, cleared);
    Move(cleared, before, StopClear, StopCancelled, cleared.(cancelled := true));
    var stopped := s.(running := false, cancelled := true);
    Move(cleared.(cancelled := true), before, StopCancelled, StopGate, stopped);
    Move(stopped, before, StopGate, StopWait, stopped.(wgMu := Thread(2)));
  }

  /** A second one returns at once, while the check is executing and the first still waits. */
  lemma SecondStopReturnsEarly()
    ensures Reachable(State(Shared(false, true, Nobody, Thread(2), 1),
                            [UseDone] + [Execute(0)] + [StopWait] + [StopIgnored]))
  {
    FirstStopWaits();
    hide Reachable;
    var s, before := Shared(false, true, Nobody, Thread(2), 1), [UseDone] + [Execute(0)] + [StopWait];
    var held := s.(mu := Thread(3));
    Arrive(s, before, StopBegin);
    Move(s, before, StopBegin, StopTest, held);
    Move(held, before, StopTest, StopNoop, held);
    Move(held, before, StopNoop, StopIgnored, s);
  }

  lemma RunIsNotEmpty(states: seq<State>)
    requires Run(states)
    ensures |states| > 0
  {
  }

  /** That a Stop call has returned guarantees that no body is executing if and only if it is
      the call that found `running` set. */
  lemma ReturnedStopQuietIffItCleared(pc: Pc)
    requires pc.StopReturned? || pc.StopIgnored?
    ensures GuaranteesQuiet(pc) <==> pc.StopReturned?
  {
    if pc.StopReturned? {
      forall states: seq<State>, i, t |
        Run(states) && 0 <= i < |states| && 0 <= t < |states[i].threads| && states[i].threads[t] == pc
        ensures NoBody(states[i])
      {
        NothingRunsAfterStop(states, i, i);
      }
    } else {
      SecondStopReturnsEarly();
      hide Run;
      var s := State(Shared(false, true, Nobody, Thread(2), 1), [UseDone] + [Execute(0)] + [StopWait] + [StopIgnored]);
      var states: seq<State> :| Run(states) && states[|states| - 1] == s;
      assert |states| > 0 by { RunIsNotEmpty(states); }
      assert states[|states| - 1].threads[3] == pc && InBody(s.threads[1]);
      assert !NoBody(states[|states| - 1]);
    }
  }

  // ----- Checks after cancellation, and attempts

  /** Not past its second look at the context, or on its way out. */
  predicate NotPastRecheck(pc: Pc) {
    pc.Begin? || pc.Gate? || pc.GateShut? || pc.GateOpen? || pc.Counted? || pc.Recheck? || pc.Leave? || pc.Done?
  }

  lemma StepStaysOut(t: nat, pc: Pc, s: Shared, pc': Pc, s': Shared)
    requires ThreadStep(t, pc, s, pc', s') && s.cancelled && NotPastRecheck(pc)
    ensures NotPastRecheck(pc')
  {
  }

  lemma NextStaysOut(s: State, s': State, t: nat)
    requires Next(s, s') && s.shared.cancelled && t < |s.threads| && NotPastRecheck(s.threads[t])
    ensures s'.shared.cancelled && t < |s'.threads| && NotPastRecheck(s'.threads[t])
  {
    hide ThreadStep, Arrives, NotPastRecheck;
    if u: nat :| u < |s.threads| && Step(s, u, s') {
      StepCancels(u, s.threads[u], s.shared, s'.threads[u], s'.shared);
      if u == t {
        StepStaysOut(u, s.threads[u], s.shared, s'.threads[u], s'.shared);
      }
    }
  }

  /** A call that has not looked at the context a second time when it is cancelled executes no
      check any more. */
  lemma {:induction false} NoNewExecutionAfterCancel(states: seq<State>, i: nat, j: nat, t: nat)
    requires Run(states) && i <= j < |states| && states[i].shared.cancelled
    requires t < |states[i].threads| && NotPastRecheck(states[i].threads[t])
    ensures states[j].shared.cancelled && t < |states[j].threads|
    ensures NotPastRecheck(states[j].threads[t]) && !states[j].threads[t].Execute?
    decreases j - i
  {
    hide Next;
    if i < j {
      NoNewExecutionAfterCancel(states, i, j - 1, t);
      assert Next(states[j - 1], states[j - 1 + 1]);
      NextStaysOut(states[j - 1], states[j], t);
    }
  }

  /** The attempts a call may still begin. */
  function AttemptsLeft(pc: Pc): nat {
    match pc
    case Begin(left) => left
    case Gate(left) => left
    case GateOpen(left) => left
    case Counted(left) => left
    case Recheck(left) => left
    case CooldownLock(left) => left
    case CooldownRead(left) => left
    case CooldownTest(left) => left
    case Attempt(left) => left
    case Execute(left) => left
    case CallbackLock(left) => left
    case CallbackRead(left) => left
    case Callback(left) => left
    case _ => 0
  }

  /** A call that may still execute its check, or has given up after its last attempt. */
  predicate InAttempts(pc: Pc) {
    pc.Begin? || pc.Gate? || pc.GateOpen? || pc.Counted? || pc.Recheck? || pc.CooldownLock? || pc.CooldownRead?
    || pc.CooldownTest? || pc.Attempt? || pc.Execute? || pc.CallbackLock? || pc.CallbackRead? || pc.Callback?
    || pc.StoreLock? || pc.StoreWrite?
  }

  lemma StepKeepsAttempts(t: nat, pc: Pc, s: Shared, pc': Pc, s': Shared)
    requires ThreadStep(t, pc, s, pc', s') && InAttempts(pc')
    ensures InAttempts(pc) && AttemptsLeft(pc') + (if pc'.Execute? then 1 else 0) == AttemptsLeft(pc)
  {
  }

  lemma StepUsesAttempt(t: nat, pc: Pc, s: Shared, pc': Pc, s': Shared)
    requires ThreadStep(t, pc, s, pc', s')
    ensures AttemptsLeft(pc') + (if pc'.Execute? then 1 else 0) <= AttemptsLeft(pc)
  {
    hide ThreadStep;
    if InAttempts(pc') {
      hide InAttempts, AttemptsLeft;
      StepKeepsAttempts(t, pc, s, pc', s');
    }
  }

  /** How often the call begins to execute its check. */
  function Executions(states: seq<State>, t: nat, i: nat, j: nat): nat
    requires i <= j < |states|
  {
    if i == j then 0
    else Executions(states, t, i, j - 1) + if Starts(states[j - 1], states[j], t) then 1 else 0
  }

  predicate Starts(s: State, s': State, t: nat) {
    t < |s.threads| && t < |s'.threads| && s'.threads[t].Execute? && s'.threads[t] != s.threads[t]
  }

  lemma NextUsesAttempt(s: State, s': State, t: nat)
    requires Next(s, s') && t < |s.threads|
    ensures t < |s'.threads|
    ensures AttemptsLeft(s'.threads[t]) + (if Starts(s, s', t) then 1 else 0) <= AttemptsLeft(s.threads[t])
    ensures InAttempts(s'.threads[t]) ==>
      && InAttempts(s.threads[t])
      && AttemptsLeft(s'.threads[t]) + (if Starts(s, s', t) then 1 else 0) == AttemptsLeft(s.threads[t])
  {
    hide ThreadStep, Arrives, AttemptsLeft, InAttempts;
    if u: nat :| u < |s.threads| && Step(s, u, s') {
      StepUsesAttempt(u, s.threads[u], s.shared, s'.threads[u], s'.shared);
      if InAttempts(s'.threads[u]) {
        StepKeepsAttempts(u, s.threads[u], s.shared, s'.threads[u], s'.shared);
      }
    }
  }

  /** A check is executed at most once more than its retry count. */
  lemma {:induction false} AttemptsAreBounded(states: seq<State>, i: nat, j: nat, t: nat)
    requires Run(states) && i <= j < |states| && t < |states[i].threads|
    ensures t < |states[j].threads|
    ensures Executions(states, t, i, j) + AttemptsLeft(states[j].threads[t]) <= AttemptsLeft(states[i].threads[t])
    decreases j - i
  {
    hide Next, Starts, AttemptsLeft;
    if i < j {
      AttemptsAreBounded(states, i, j - 1, t);
      assert Next(states[j - 1], states[j - 1 + 1]);
      NextUsesAttempt(states[j - 1], states[j], t);
    }
  }

  /** A call that goes on has used exactly the attempts it no longer has: it comes to set the
      cooldown only after it has executed its check once more than the retry count. */
  lemma {:induction false} GivesUpAfterLastAttempt(states: seq<State>, i: nat, j: nat, t: nat)
    requires Run(states) && i <= j < |states| && t < |states[i].threads|
    requires t < |states[j].threads| && InAttempts(states[j].threads[t])
    ensures InAttempts(states[i].threads[t])
    ensures Executions(states, t, i, j) + AttemptsLeft(states[j].threads[t]) == AttemptsLeft(states[i].threads[t])
    ensures states[j].threads[t].StoreLock? || states[j].threads[t].StoreWrite? ==>
      Executions(states, t, i, j) == AttemptsLeft(states[i].threads[t])
    decreases j - i
  {
    hide Next, Starts;
    if i < j {
      AttemptsAreBounded(states, i, j - 1, t);
      hide AttemptsLeft, InAttempts;
      assert Next(states[j - 1], states[j - 1 + 1]);
      NextUsesAttempt(states[j - 1], states[j], t);
      GivesUpAfterLastAttempt(states, i, j - 1, t);
      NoneLeft(states[j].threads[t]);
    }
  }

  lemma NoneLeft(pc: Pc)
    ensures pc.StoreLock? || pc.StoreWrite? ==> AttemptsLeft(pc) == 0
  {
  }

  /** And failing checks come that far: a retry may follow every attempt but the last. */
  lemma {:induction false} EveryAttemptCanBeMade(n: nat, left: nat)
    requires left < n
    ensures Reachable(State(Shared(true, false, Nobody, Nobody, 1), [UseDone] + [Execute(left)]))
    decreases n - left
  {
    if left == n - 1 {
      BodyExecutes(n);
    } else {
      EveryAttemptCanBeMade(n, left + 1);
      var s := Shared(true, false, Nobody, Nobody, 1);
      RetrySteps(1, left, s);
      hide Reachable, ThreadStep;
      Move(s, [UseDone], Execute(left + 1), Attempt(left + 1), s);
      Move(s, [UseDone], Attempt(left + 1), Execute(left), s);
    }
  }

  lemma RetrySteps(t: nat, left: nat, s: Shared)
    ensures ThreadStep(t, Execute(left + 1), s, Attempt(left + 1), s)
    ensures ThreadStep(t, Attempt(left + 1), s, Execute(left), s)
  {
  }

  /** A call may leave early when its cooldown lasts or its check is healthy, and between two
      attempts exactly when the context is cancelled; after the last it may set the cooldown. */
  lemma WaysToLeave(t: nat, left: nat, s: Shared)
    ensures ThreadStep(t, CooldownTest(left), s, Leave, s) && ThreadStep(t, Callback(left), s, Leave, s)
    ensures ThreadStep(t, Attempt(left + 1), s, Leave, s) <==> s.cancelled
    ensures ThreadStep(t, Attempt(0), s, StoreLock, s)
    ensures s.mu == Nobody ==> ThreadStep(t, StoreLock, s, StoreWrite, s.(mu := Thread(t)))
  {
  }
}
