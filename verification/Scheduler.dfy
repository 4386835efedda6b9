/** The stop protocol of the check scheduler: any number of `runCheck` calls, `Stop` calls
    and short users of `mu` (RescheduleAll, UpsertSchedule, RemoveSchedule, Start), each a
    thread, interleaved one atomic step at a time.

    The two mutexes, the wait group, the `running` flag and the cancelled context are the
    shared state.  The outcome of every check execution, of every cooldown lookup and of
    every two-way `select` is arbitrary. */
module Scheduler {
  import opened Sequences

  datatype Pc =
      // runCheck
    | Begin(left: nat)           // about to lock wgMu; `left` attempts allowed
    | Gate(left: nat)            // holds wgMu, about to look at the context
    | GateShut                   // holds wgMu, saw the context cancelled
    | GateOpen(left: nat)        // holds wgMu, saw it alive, about to wg.Add(1)
    | Counted(left: nat)         // holds wgMu, counted
    | Recheck(left: nat)         // wgMu released, second look at the context
    | CooldownLock(left: nat)    // about to lock mu for the cooldown
    | CooldownRead(left: nat)    // holds mu
    | CooldownTest(left: nat)    // mu released
    | Attempt(left: nat)         // top of the retry loop
    | Execute(left: nat)         // inside runner.RunCheck
    | CallbackLock(left: nat)    // result in hand, about to lock mu
    | CallbackRead(left: nat)    // holds mu
    | Callback(left: nat)        // mu released, running the callback
    | StoreLock                  // retries used up, about to lock mu for the cooldown
    | StoreWrite                 // holds mu
    | Leave                      // the deferred wg.Done is still to come
    | Done
      // Stop
    | StopBegin                  // about to lock mu
    | StopTest                   // holds mu, about to test running
    | StopNoop                   // holds mu, was not running
    | StopClear                  // holds mu, cleared running, about to cancel
    | StopCancelled              // holds mu, context cancelled
    | StopGate                   // mu released, about to lock wgMu
    | StopWait                   // holds wgMu, in wg.Wait
    | StopWaited                 // holds wgMu, Wait has returned
    | StopReturned               // the Stop call that cleared running has returned
    | StopIgnored                // a Stop call that found the scheduler stopped has returned
      // a short critical section on mu
    | UseBegin(starts: bool)
    | UseHolds(starts: bool)
    | UseDone

  datatype Owner = Nobody | Thread(id: nat)

  datatype Shared = Shared(
    running: bool,
    cancelled: bool,
    mu: Owner,
    wgMu: Owner,
    wg: nat)

  datatype State = State(shared: Shared, threads: seq<Pc>)

  predicate Init(s: State) {
    s == State(Shared(false, false, Nobody, Nobody, 0), [])
  }

  predicate HoldsMu(pc: Pc) {
    pc.CooldownRead? || pc.CallbackRead? || pc.StoreWrite? || pc.StopTest? || pc.StopNoop?
    || pc.StopClear? || pc.StopCancelled? || pc.UseHolds?
  }

  predicate HoldsWgMu(pc: Pc) {
    pc.Gate? || pc.GateShut? || pc.GateOpen? || pc.Counted? || pc.StopWait? || pc.StopWaited?
  }

  /** Counted in the wait group: from wg.Add to wg.Done. */
  predicate InBody(pc: Pc) {
    pc.Counted? || pc.Recheck? || pc.CooldownLock? || pc.CooldownRead? || pc.CooldownTest?
    || pc.Attempt? || pc.Execute? || pc.CallbackLock? || pc.CallbackRead? || pc.Callback?
    || pc.StoreLock? || pc.StoreWrite? || pc.Leave?
  }

  function BodyCount(pc: Pc): nat {
    if InBody(pc) then 1 else 0
  }

  predicate Finished(pc: Pc) {
    pc.Done? || pc.StopReturned? || pc.StopIgnored? || pc.UseDone?
  }

  /** The Stop call that cleared `running` is past cancelling. */
  predicate HasCancelled(pc: Pc) {
    pc.StopCancelled? || pc.StopGate? || pc.StopWait? || pc.StopWaited? || pc.StopReturned?
  }

  /** What a new thread starts as; a check is attempted once more than its retry count. */
  predicate Arrives(pc: Pc) {
    (pc.Begin? && pc.left > 0) || pc.StopBegin? || pc.UseBegin?
  }

  predicate Spawn(s: State, s': State) {
    && |s'.threads| == |s.threads| + 1
    && Arrives(s'.threads[|s.threads|])
    && s' == s.(threads := s.threads + [s'.threads[|s.threads|]])
  }

  /** One step of thread `t`, from `pc` and shared state `s` to `pc'` and `s'`. */
  predicate ThreadStep(t: nat, pc: Pc, s: Shared, pc': Pc, s': Shared) {
    match pc
    case Begin(left) => s.wgMu == Nobody && pc' == Gate(left) && s' == s.(wgMu := Thread(t))
    case Gate(left) => pc' == (if s.cancelled then GateShut else GateOpen(left)) && s' == s
    case GateShut => pc' == Done && s' == s.(wgMu := Nobody)
    case GateOpen(left) => pc' == Counted(left) && s' == s.(wg := s.wg + 1)
    case Counted(left) => pc' == Recheck(left) && s' == s.(wgMu := Nobody)
    case Recheck(left) => pc' == (if s.cancelled then Leave else CooldownLock(left)) && s' == s
    case CooldownLock(left) => s.mu == Nobody && pc' == CooldownRead(left) && s' == s.(mu := Thread(t))
    case CooldownRead(left) => pc' == CooldownTest(left) && s' == s.(mu := Nobody)
    case CooldownTest(left) => (pc' == Leave || (left > 0 && pc' == Execute(left - 1))) && s' == s
    case Attempt(left) =>
      // between attempts: time.After, or the cancelled context, or no attempt left
      && (if left == 0 then pc' == StoreLock
          else pc' == Execute(left - 1) || (s.cancelled && pc' == Leave))
      && s' == s
    case Execute(left) => (pc' == CallbackLock(left) || pc' == Attempt(left)) && s' == s
    case CallbackLock(left) => s.mu == Nobody && pc' == CallbackRead(left) && s' == s.(mu := Thread(t))
    case CallbackRead(left) => pc' == Callback(left) && s' == s.(mu := Nobody)
    case Callback(left) => (pc' == Leave || pc' == Attempt(left)) && s' == s
    case StoreLock =>
      || (pc' == Leave && s' == s)
      || (s.mu == Nobody && pc' == StoreWrite && s' == s.(mu := Thread(t)))
    case StoreWrite => pc' == Leave && s' == s.(mu := Nobody)
    case Leave => s.wg > 0 && pc' == Done && s' == s.(wg := s.wg - 1)
    case StopBegin => s.mu == Nobody && pc' == StopTest && s' == s.(mu := Thread(t))
    case StopTest => if s.running then pc' == StopClear && s' == s.(running := false) else pc' == StopNoop && s' == s
    case StopNoop => pc' == StopIgnored && s' == s.(mu := Nobody)
    case StopClear => pc' == StopCancelled && s' == s.(cancelled := true)
    case StopCancelled => pc' == StopGate && s' == s.(mu := Nobody)
    case StopGate => s.wgMu == Nobody && pc' == StopWait && s' == s.(wgMu := Thread(t))
    case StopWait => s.wg == 0 && pc' == StopWaited && s' == s
    case StopWaited => pc' == StopReturned && s' == s.(wgMu := Nobody)
    case UseBegin(starts) => s.mu == Nobody && pc' == UseHolds(starts) && s' == s.(mu := Thread(t))
    case UseHolds(starts) => pc' == UseDone && s' == s.(mu := Nobody, running := s.running || starts)
    case _ => false
  }

  predicate Step(s: State, t: nat, s': State)
    requires t < |s.threads|
  {
    && |s'.threads| == |s.threads|
    && ThreadStep(t, s.threads[t], s.shared, s'.threads[t], s'.shared)
    && s'.threads == s.threads[t := s'.threads[t]]
  }

  predicate Next(s: State, s': State) {
    Spawn(s, s') || exists t: nat :: t < |s.threads| && Step(s, t, s')
  }

  /** A run from the initial state, with calls arriving at any time. */
  predicate Run(states: seq<State>) {
    && |states| > 0
    && Init(states[0])
    && forall i :: 0 <= i < |states| - 1 ==> Next(states[i], states[i + 1])
  }

  // ----- The invariant

  ghost predicate Locks(s: State) {
    && (forall t :: 0 <= t < |s.threads| ==> (HoldsMu(s.threads[t]) <==> s.shared.mu == Thread(t)))
    && (forall t :: 0 <= t < |s.threads| ==> (HoldsWgMu(s.threads[t]) <==> s.shared.wgMu == Thread(t)))
    && (s.shared.mu.Thread? ==> s.shared.mu.id < |s.threads|)
    && (s.shared.wgMu.Thread? ==> s.shared.wgMu.id < |s.threads|)
  }

  /** `pc` is past wg.Wait in the Stop call that cancelled. */
  predicate SawEmpty(pc: Pc) {
    pc.StopWaited? || pc.StopReturned?
  }

  /** Once a Stop call has seen the wait group empty, the context is cancelled, the group
      stays empty and no thread is on its way to joining it. */
  ghost predicate Quiet(s: State) {
    && (forall t :: 0 <= t < |s.threads| && HasCancelled(s.threads[t]) ==> s.shared.cancelled)
    && (forall t :: 0 <= t < |s.threads| && SawEmpty(s.threads[t]) ==> s.shared.wg == 0)
    && (forall t, u :: 0 <= t < |s.threads| && SawEmpty(s.threads[t]) && 0 <= u < |s.threads| ==>
          !s.threads[u].GateOpen?)
  }

  ghost predicate Inv(s: State) {
    Locks(s) && s.shared.wg == Sum(s.threads, BodyCount) && Quiet(s)
  }

  lemma ArrivalHoldsNothing(pc: Pc)
    requires Arrives(pc)
    ensures !HoldsMu(pc) && !HoldsWgMu(pc) && BodyCount(pc) == 0
    ensures !HasCancelled(pc) && !SawEmpty(pc) && !pc.GateOpen?
  {
  }

  lemma SpawnKeepsInv(s: State, s': State)
    requires Inv(s) && Spawn(s, s')
    ensures Inv(s')
  {
    hide Arrives, HoldsMu, HoldsWgMu, HasCancelled, SawEmpty, BodyCount;
    ArrivalHoldsNothing(s'.threads[|s.threads|]);
    SumSnoc(s.threads, s'.threads[|s.threads|], BodyCount);
  }

  /** A mutex changes hands only from nobody to the stepping thread or back. */
  predicate Handover(t: nat, held: bool, owner: Owner, held': bool, owner': Owner) {
    || (held' == held && owner' == owner)
    || (!held && owner == Nobody && held' && owner' == Thread(t))
    || (held && !held' && owner' == Nobody)
  }

  predicate OfCheck(pc: Pc) {
    InBody(pc) || pc.Begin? || pc.Gate? || pc.GateShut? || pc.GateOpen? || pc.Done?
  }

  lemma StepHandsMuOverInCheck(t: nat, pc: Pc, s: Shared, pc': Pc, s': Shared)
    requires ThreadStep(t, pc, s, pc', s') && OfCheck(pc)
    ensures Handover(t, HoldsMu(pc), s.mu, HoldsMu(pc'), s'.mu)
  {
  }

  lemma StepHandsMuOver(t: nat, pc: Pc, s: Shared, pc': Pc, s': Shared)
    requires ThreadStep(t, pc, s, pc', s')
    ensures Handover(t, HoldsMu(pc), s.mu, HoldsMu(pc'), s'.mu)
  {
    if OfCheck(pc) {
      hide ThreadStep, HoldsMu, Handover;
      StepHandsMuOverInCheck(t, pc, s, pc', s');
    }
  }

  lemma StepHandsWgMuOverInCheck(t: nat, pc: Pc, s: Shared, pc': Pc, s': Shared)
    requires ThreadStep(t, pc, s, pc', s') && OfCheck(pc)
    ensures Handover(t, HoldsWgMu(pc), s.wgMu, HoldsWgMu(pc'), s'.wgMu)
  {
  }

  lemma StepHandsWgMuOver(t: nat, pc: Pc, s: Shared, pc': Pc, s': Shared)
    requires ThreadStep(t, pc, s, pc', s')
    ensures Handover(t, HoldsWgMu(pc), s.wgMu, HoldsWgMu(pc'), s'.wgMu)
  {
    if OfCheck(pc) {
      hide ThreadStep, HoldsWgMu, Handover;
      StepHandsWgMuOverInCheck(t, pc, s, pc', s');
    }
  }

  lemma StepCounts(t: nat, pc: Pc, s: Shared, pc': Pc, s': Shared)
    requires ThreadStep(t, pc, s, pc', s')
    ensures s'.wg == s.wg - BodyCount(pc) + BodyCount(pc')
    ensures s'.wg > s.wg ==> pc.GateOpen?
  {
  }

  lemma StepCancels(t: nat, pc: Pc, s: Shared, pc': Pc, s': Shared)
    requires ThreadStep(t, pc, s, pc', s')
    ensures s.cancelled ==> s'.cancelled
    ensures HasCancelled(pc') ==> HasCancelled(pc) || s'.cancelled
  {
  }

  lemma StepLeavesWait(t: nat, pc: Pc, s: Shared, pc': Pc, s': Shared)
    requires ThreadStep(t, pc, s, pc', s')
    ensures SawEmpty(pc') ==> SawEmpty(pc) || (s.wg == s'.wg == 0 && pc.StopWait? && HasCancelled(pc))
    ensures pc'.GateOpen? ==> !s.cancelled && !SawEmpty(pc')
  {
  }

  lemma StepKeepsLocks(s: State, t: nat, s': State)
    requires Inv(s) && t < |s.threads| && Step(s, t, s')
    ensures Locks(s')
  {
    hide ThreadStep, HoldsMu, HoldsWgMu;
    StepHandsMuOver(t, s.threads[t], s.shared, s'.threads[t], s'.shared);
    StepHandsWgMuOver(t, s.threads[t], s.shared, s'.threads[t], s'.shared);
  }

  lemma StepKeepsCount(s: State, t: nat, s': State)
    requires Inv(s) && t < |s.threads| && Step(s, t, s')
    ensures s'.shared.wg == Sum(s'.threads, BodyCount)
  {
    hide ThreadStep, BodyCount;
    StepCounts(t, s.threads[t], s.shared, s'.threads[t], s'.shared);
    SumUpdate(s.threads, t, s'.threads[t], BodyCount);
  }

  lemma StepKeepsQuiet(s: State, t: nat, s': State)
    requires Inv(s) && t < |s.threads| && Step(s, t, s')
    ensures Quiet(s')
  {
    hide ThreadStep, SawEmpty, HasCancelled, HoldsMu, BodyCount;
    StepCounts(t, s.threads[t], s.shared, s'.threads[t], s'.shared);
    StepCancels(t, s.threads[t], s.shared, s'.threads[t], s'.shared);
    StepLeavesWait(t, s.threads[t], s.shared, s'.threads[t], s'.shared);
    forall u | 0 <= u < |s.threads| && SawEmpty(s.threads[u])
      ensures HasCancelled(s.threads[u])
    {
      SawEmptyHasCancelled(s.threads[u]);
    }
    forall u | 0 <= u < |s.threads| && s.threads[t].StopWait?
      ensures !s.threads[u].GateOpen?
    {
      assert HoldsWgMu(s.threads[t]);
    }
  }

  lemma SawEmptyHasCancelled(pc: Pc)
    requires SawEmpty(pc)
    ensures HasCancelled(pc)
  {
  }

  lemma {:induction false} RunKeepsInv(states: seq<State>, i: nat)
    requires Run(states) && i < |states|
    ensures Inv(states[i])
  {
    if i > 0 {
      RunKeepsInv(states, i - 1);
      var s, s' := states[i - 1], states[i];
      assert Next(states[i - 1], states[i - 1 + 1]);
      if Spawn(s, s') {
        SpawnKeepsInv(s, s');
      } else {
        var t: nat :| t < |s.threads| && Step(s, t, s');
        StepKeepsLocks(s, t, s');
        StepKeepsCount(s, t, s');
        StepKeepsQuiet(s, t, s');
      }
    }
  }
}
