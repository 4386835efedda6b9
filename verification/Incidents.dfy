/** The incident repository and manager: creation, updates by alerts, acknowledgement,
    resolution and pruning. */
module Incidents {
  import opened Civil
  import opened Options
  import opened AlertMessages

  datatype Status = StatusOpen | StatusAcknowledged | StatusResolved

  type Metadata = map<string, string>

  datatype Incident = Incident(
    id: string,
    checkID: string,
    checkName: string,
    kind: string,
    status: Status,
    severity: string,
    message: string,
    startedAt: Instant,
    updatedAt: Instant,
    resolvedAt: Option<Instant>,
    acknowledgedAt: Option<Instant>,
    acknowledgedBy: string,
    resolvedBy: string,
    metadata: Metadata)

  type Incidents = map<string, Incident>

  /** What an alert says about a check. */
  datatype Report = Report(
    checkID: string,
    checkName: string,
    kind: string,
    severity: string,
    message: string,
    metadata: Metadata)

  // ----- The changes to one incident

  function Level(severity: string): Option<nat> {
    if severity == "warning" then Some(1) else if severity == "critical" then Some(2) else None
  }

  predicate SeverityHasIncreased(before: string, after: string) {
    match (Level(before), Level(after))
    case (None, _) => true
    case (_, None) => false
    case (Some(x), Some(y)) => y > x
  }

  function Updated(inc: Incident, r: Report, now: Instant): Incident {
    inc.(severity := if SeverityHasIncreased(inc.severity, r.severity) then r.severity else inc.severity,
         message := r.message,
         metadata := inc.metadata + r.metadata,
         updatedAt := now)
  }

  function Acknowledged(inc: Incident, user: string, now: Instant): Option<Incident> {
    if inc.status.StatusResolved? then None
    else Some(inc.(status := StatusAcknowledged, acknowledgedAt := Some(now), acknowledgedBy := user, updatedAt := now))
  }

  function Resolved(inc: Incident, user: string, now: Instant): Option<Incident> {
    if inc.status.StatusResolved? then None
    else Some(inc.(status := StatusResolved, resolvedAt := Some(now), resolvedBy := user, updatedAt := now))
  }

  /** Seconds since 1970, as `Time.Unix` gives them. */
  function Unix(t: Instant): int {
    t / 1_000_000_000 - 62_135_596_800
  }

  function Signed(n: int): string {
    if n < 0 then "-" + Decimal(-n) else Decimal(n)
  }

  function GenerateIncidentID(checkID: string, now: Instant): string {
    checkID + "-" + Signed(Unix(now))
  }

  function NewIncident(r: Report, now: Instant): Incident {
    Incident(GenerateIncidentID(r.checkID, now), r.checkID, r.checkName, r.kind, StatusOpen, r.severity, r.message,
             now, now, None, None, "", "", r.metadata)
  }

  // ----- The repository's steps

  datatype RepoOp =
      Create(report: Report, now: Instant)
    | Apply(id: string, report: Report, now: Instant)
    | Acknowledge(id: string, user: string, now: Instant)
    | Resolve(id: string, user: string, now: Instant)
    | Prune(cutoff: Instant)

  /** An update writes the mutated copy back, unless the incident is missing or the mutator
      refuses. */
  function Mutated(m: Incidents, id: string, f: Incident -> Option<Incident>): Incidents {
    if id in m && f(m[id]).Some? then m[id := f(m[id]).value] else m
  }

  function Created(m: Incidents, inc: Incident): Incidents {
    if inc.id in m then m else m[inc.id := inc]
  }

  predicate Expired(inc: Incident, cutoff: Instant) {
    inc.status.StatusResolved? && inc.updatedAt < cutoff
  }

  function Pruned(m: Incidents, cutoff: Instant): Incidents {
    map id | id in m && !Expired(m[id], cutoff) :: m[id]
  }

  function RepoStep(m: Incidents, op: RepoOp): Incidents {
    match op
    case Create(r, now) => Created(m, NewIncident(r, now))
    case Apply(id, r, now) => Mutated(m, id, inc => Some(Updated(inc, r, now)))
    case Acknowledge(id, user, now) => Mutated(m, id, inc => Acknowledged(inc, user, now))
    case Resolve(id, user, now) => Mutated(m, id, inc => Resolved(inc, user, now))
    case Prune(cutoff) => Pruned(m, cutoff)
  }

  predicate IsOpenFor(m: Incidents, checkID: string, id: string) {
    id in m && m[id].checkID == checkID && !m[id].status.StatusResolved?
  }

  /** Every incident is stored under its own ID. */
  ghost predicate WellKeyed(m: Incidents) {
    forall id :: id in m ==> m[id].id == id && id != ""
  }

  class MemoryIncidentRepository {
    var incidents: Incidents

    constructor ()
      ensures incidents == map[]
    {
      incidents := map[];
    }

    method CreateIncident(inc: Incident) returns (ok: bool)
      modifies this
      ensures ok <==> inc.id !in old(incidents)
      ensures incidents == Created(old(incidents), inc)
      ensures !ok ==> incidents == old(incidents)
    {
      if inc.id in incidents {
        return false;
      }
      incidents := incidents[inc.id := inc];
      return true;
    }

    method UpdateIncident(id: string, mutator: Incident -> Option<Incident>) returns (ok: bool)
      modifies this
      ensures ok <==> id in old(incidents) && mutator(old(incidents)[id]).Some?
      ensures incidents == Mutated(old(incidents), id, mutator)
    {
      if id !in incidents {
        return false;
      }
      var copy := mutator(incidents[id]);
      if copy.None? {
        return false;
      }
      incidents := incidents[id := copy.value];
      return true;
    }

    /** Some open incident of the check: which one, the map's iteration order decides. */
    method FindOpenIncident(checkID: string) returns (r: Option<Incident>)
      ensures r.Some? ==> exists id :: IsOpenFor(incidents, checkID, id) && r.value == incidents[id]
      ensures r.None? ==> forall id :: !IsOpenFor(incidents, checkID, id)
    {
      var left := incidents.Keys;
      while left != {}
        invariant left <= incidents.Keys
        invariant forall id :: id in incidents && id !in left ==> !IsOpenFor(incidents, checkID, id)
        decreases left
      {
        var id :| id in left;
        if incidents[id].checkID == checkID && incidents[id].status != StatusResolved {
          assert IsOpenFor(incidents, checkID, id);
          return Some(incidents[id]);
        }
        left := left - {id};
      }
      return None;
    }

    method PruneBefore(cutoff: Instant)
      modifies this
      ensures forall id :: id in incidents <==>
        id in old(incidents) && !(old(incidents)[id].status == StatusResolved && old(incidents)[id].updatedAt < cutoff)
      ensures forall id :: id in incidents ==> incidents[id] == old(incidents)[id]
      ensures incidents == Pruned(old(incidents), cutoff)
    {
      var left := incidents.Keys;
      while left != {}
        invariant left <= incidents.Keys <= old(incidents).Keys
        invariant forall id :: id in incidents ==> incidents[id] == old(incidents)[id]
        invariant forall id :: id in old(incidents) && id !in left ==>
          (id in incidents <==> !Expired(old(incidents)[id], cutoff))
        decreases left
      {
        var id :| id in left;
        if incidents[id].status == StatusResolved && incidents[id].updatedAt < cutoff {
          incidents := incidents - {id};
        }
        left := left - {id};
      }
    }
  }

  // ----- The manager, each call one step

  datatype Op =
      Alert(report: Report, now: Instant)
    | Ack(id: string, user: string, now: Instant)
    | Close(id: string, user: string, now: Instant)
    | AutoResolve(checkID: string, now: Instant)
    | Forget(cutoff: Instant)

  /** What a call does to the repository, whichever open incident it finds. */
  ghost predicate Step(m: Incidents, op: Op, m': Incidents) {
    match op
    case Alert(r, now) =>
      if exists id :: IsOpenFor(m, r.checkID, id)
      then exists id :: IsOpenFor(m, r.checkID, id) && m' == RepoStep(m, Apply(id, r, now))
      else m' == RepoStep(m, Create(r, now))
    case Ack(id, user, now) => m' == RepoStep(m, Acknowledge(id, user, now))
    case Close(id, user, now) => m' == RepoStep(m, Resolve(id, user, now))
    case AutoResolve(c, now) =>
      if exists id :: IsOpenFor(m, c, id)
      then exists id :: IsOpenFor(m, c, id) && m' == RepoStep(m, Resolve(id, "system", now))
      else m' == m
    case Forget(cutoff) => m' == RepoStep(m, Prune(cutoff))
  }

  class IncidentManager {
    const repo: MemoryIncidentRepository

    constructor (repo: MemoryIncidentRepository)
      ensures this.repo == repo
    {
      this.repo := repo;
    }

    /** `created` is what the creation callback is called with, if it is. */
    method ProcessAlert(r: Report, now: Instant) returns (ok: bool, created: Option<Incident>)
      requires WellKeyed(repo.incidents)
      modifies repo
      ensures Step(old(repo.incidents), Alert(r, now), repo.incidents)
      ensures !ok ==> repo.incidents == old(repo.incidents)
      ensures created ==
        if NewIncident(r, now).id in old(repo.incidents) || exists id :: IsOpenFor(old(repo.incidents), r.checkID, id)
        then None else Some(NewIncident(r, now))
      ensures (exists id :: IsOpenFor(old(repo.incidents), r.checkID, id)) ==>
        exists id ::
          && IsOpenFor(old(repo.incidents), r.checkID, id) && id in repo.incidents
          && (repo.incidents[id].severity == r.severity || repo.incidents[id].severity == old(repo.incidents)[id].severity)
          && repo.incidents == old(repo.incidents)[id := old(repo.incidents)[id].(
               severity := repo.incidents[id].severity, message := r.message,
               metadata := old(repo.incidents)[id].metadata + r.metadata, updatedAt := now)]
      ensures created.Some? ==> repo.incidents == old(repo.incidents)[created.value.id := created.value]
      ensures created.Some? ==> var inc := created.value;
        && inc.checkID == r.checkID && inc.checkName == r.checkName && inc.kind == r.kind
        && inc.severity == r.severity && inc.message == r.message && inc.metadata == r.metadata
        && inc.status == StatusOpen && inc.startedAt == inc.updatedAt == now
        && inc.resolvedAt == inc.acknowledgedAt == None && inc.acknowledgedBy == inc.resolvedBy == ""
    {
      created := None;
      var found := repo.FindOpenIncident(r.checkID);
      if found.Some? && found.value.id != "" {
        ok := repo.UpdateIncident(found.value.id, inc => Some(Updated(inc, r, now)));
      } else {
        var incident := NewIncident(r, now);
        ok := repo.CreateIncident(incident);
        if ok {
          created := Some(incident);
        }
      }
    }

    method AcknowledgeIncident(id: string, user: string, now: Instant) returns (ok: bool)
      modifies repo
      ensures Step(old(repo.incidents), Ack(id, user, now), repo.incidents)
      ensures ok <==> id in old(repo.incidents) && !old(repo.incidents)[id].status.StatusResolved?
      ensures ok ==> repo.incidents == old(repo.incidents)[id := old(repo.incidents)[id].(
        status := StatusAcknowledged, acknowledgedAt := Some(now), acknowledgedBy := user, updatedAt := now)]
      ensures !ok ==> repo.incidents == old(repo.incidents)
    {
      ok := repo.UpdateIncident(id, inc => Acknowledged(inc, user, now));
    }

    /** `resolved` is what the resolution callback is called with, if it is. */
    method ResolveIncident(id: string, user: string, now: Instant) returns (ok: bool, resolved: Option<Incident>)
      modifies repo
      ensures Step(old(repo.incidents), Close(id, user, now), repo.incidents)
      ensures ok <==> id in old(repo.incidents) && !old(repo.incidents)[id].status.StatusResolved?
      ensures ok ==> repo.incidents == old(repo.incidents)[id := old(repo.incidents)[id].(
        status := StatusResolved, resolvedAt := Some(now), resolvedBy := user, updatedAt := now)]
      ensures ok ==> id in repo.incidents && resolved == Some(repo.incidents[id])
      ensures !ok ==> resolved == None && repo.incidents == old(repo.incidents)
    {
      resolved := None;
      ok := repo.UpdateIncident(id, inc => Resolved(inc, user, now));
      if ok {
        resolved := Some(repo.incidents[id]);
      }
    }

    method AutoResolveOnRecovery(checkID: string, now: Instant) returns (ok: bool, resolved: Option<Incident>)
      requires WellKeyed(repo.incidents)
      modifies repo
      ensures Step(old(repo.incidents), AutoResolve(checkID, now), repo.incidents)
      ensures resolved.Some? <==> exists id :: IsOpenFor(old(repo.incidents), checkID, id)
      ensures resolved.Some? ==> var inc := resolved.value;
        inc.checkID == checkID && inc.status == StatusResolved && inc.resolvedBy == "system" && inc.resolvedAt == Some(now)
    {
      var found := repo.FindOpenIncident(checkID);
      if found.None? || found.value.id == "" {
        return true, None;
      }
      assert IsOpenFor(repo.incidents, checkID, found.value.id);
      ok, resolved := ResolveIncident(found.value.id, "system", now);
    }
  }

  // ----- One open incident per check

  ghost predicate AtMostOneOpen(m: Incidents) {
    forall c, i, j :: IsOpenFor(m, c, i) && IsOpenFor(m, c, j) ==> i == j
  }

  ghost predicate Run(ms: seq<Incidents>, ops: seq<Op>) {
    && |ms| == |ops| + 1
    && ms[0] == map[]
    && forall i :: 0 <= i < |ops| ==> Step(ms[i], ops[i], ms[i + 1])
  }

  lemma IDsAreNotEmpty(checkID: string, now: Instant)
    ensures GenerateIncidentID(checkID, now) != ""
  {
  }

  lemma StepKeepsOneOpen(m: Incidents, op: Op, m': Incidents)
    requires WellKeyed(m) && AtMostOneOpen(m) && Step(m, op, m')
    ensures WellKeyed(m') && AtMostOneOpen(m')
  {
    if op.Alert? {
      IDsAreNotEmpty(op.report.checkID, op.now);
    }
    forall c, i | IsOpenFor(m', c, i) && !IsOpenFor(m, c, i)
      ensures op.Alert? && i == NewIncident(op.report, op.now).id && forall j :: !IsOpenFor(m, c, j)
    {
      hide GenerateIncidentID;
    }
  }

  /** When every call is one step, no run ever has two unresolved incidents for one check. */
  lemma {:induction false} OneOpenPerCheck(ms: seq<Incidents>, ops: seq<Op>, i: nat)
    requires Run(ms, ops) && i < |ms|
    ensures WellKeyed(ms[i]) && AtMostOneOpen(ms[i])
  {
    if i > 0 {
      hide Step, WellKeyed, AtMostOneOpen;
      OneOpenPerCheck(ms, ops, i - 1);
      assert Step(ms[i - 1], ops[i - 1], ms[i - 1 + 1]);
      StepKeepsOneOpen(ms[i - 1], ops[i - 1], ms[i]);
    }
  }

  /** So the iteration order of the map never shows: a call has one possible outcome. */
  lemma StepIsDeterministic(m: Incidents, op: Op, m1: Incidents, m2: Incidents)
    requires AtMostOneOpen(m) && Step(m, op, m1) && Step(m, op, m2)
    ensures m1 == m2
  {
  }

  // ----- Colliding IDs

  /** Seconds count from 1 January 1970. */
  lemma UnixCountsSeconds(t: Instant)
    ensures Unix(Days(DayNumber(1970, 1, 1))) == 0
    ensures Unix(t + 1_000_000_000) == Unix(t) + 1
  {
    UnixEpoch();
    hide DayNumber;
  }

  lemma {:induction false} DecimalIsInjective(a: nat, b: nat)
    requires Decimal(a) == Decimal(b)
    ensures a == b
  {
    var x, y := Decimal(a), Decimal(b);
    assert x[|x| - 1] == Digit(a % 10) && y[|y| - 1] == Digit(b % 10);
    if a >= 10 && b >= 10 {
      assert x[..|x| - 1] == Decimal(a / 10) && y[..|y| - 1] == Decimal(b / 10);
      DecimalIsInjective(a / 10, b / 10);
    }
  }

  lemma SignedIsInjective(a: int, b: int)
    requires Signed(a) == Signed(b)
    ensures a == b
  {
    hide Decimal;
    DigitsOnly(if a < 0 then -a else a);
    DigitsOnly(if b < 0 then -b else b);
    if a < 0 {
      assert Signed(a)[1..] == Decimal(-a) && Signed(b)[1..] == Decimal(-b);
      DecimalIsInjective(-a, -b);
    } else {
      DecimalIsInjective(a, b);
    }
  }

  lemma SamePrefix(p: string, x: string, y: string)
    requires p + x == p + y
    ensures x == y
  {
    assert x == (p + x)[|p|..] && y == (p + y)[|p|..];
  }

  /** A check's incident IDs collide exactly within one second. */
  lemma SameSecondSameID(checkID: string, t: Instant, u: Instant)
    ensures GenerateIncidentID(checkID, t) == GenerateIncidentID(checkID, u) <==> Unix(t) == Unix(u)
  {
    hide Unix, Signed;
    var p := checkID + "-";
    if p + Signed(Unix(t)) == p + Signed(Unix(u)) {
      SamePrefix(p, Signed(Unix(t)), Signed(Unix(u)));
      SignedIsInjective(Unix(t), Unix(u));
    }
  }

  lemma DigitsOnly(n: nat)
    ensures Decimal(n)[0] != '-'
  {
    assert Decimal(n)[0] in Decimal(n);
  }

  // ----- Find and update as separate steps, any number of calls interleaved

  datatype Task =
      AlertFinds(report: Report)
    | AlertUpdates(id: string, report: Report)
    | AlertCreates(report: Report)
    | RecoveryFinds(checkID: string)
    | Resolves(id: string, user: string)
    | Acknowledges(id: string, user: string)
    | Finished

  /** `applied` keeps, for every incident, all alerts applied to it since it was created, the
      one that created it first. */
  datatype World = World(incidents: Incidents, applied: map<string, seq<Report>>, tasks: seq<Task>, now: Instant)

  function Recorded(w: World, op: RepoOp): map<string, seq<Report>> {
    match op
    case Create(r, now) =>
      var id := NewIncident(r, now).id;
      if id in w.incidents then w.applied else w.applied[id := [r]]
    case Apply(id, r, now) =>
      if id in w.incidents && id in w.applied then w.applied[id := w.applied[id] + [r]] else w.applied
    case _ => w.applied
  }

  function Effect(w: World, op: RepoOp): World {
    w.(incidents := RepoStep(w.incidents, op), applied := Recorded(w, op))
  }

  function Becomes(w: World, t: nat, task: Task): World
    requires t < |w.tasks|
  {
    w.(tasks := w.tasks[t := task])
  }

  ghost predicate TaskStep(w: World, t: nat, w': World)
    requires t < |w.tasks|
  {
    match w.tasks[t]
    case AlertFinds(r) =>
      if exists id :: IsOpenFor(w.incidents, r.checkID, id)
      then exists id :: IsOpenFor(w.incidents, r.checkID, id) && w' == Becomes(w, t, AlertUpdates(id, r))
      else w' == Becomes(w, t, AlertCreates(r))
    case AlertUpdates(id, r) => w' == Effect(Becomes(w, t, Finished), Apply(id, r, w.now))
    case AlertCreates(r) => w' == Effect(Becomes(w, t, Finished), Create(r, w.now))
    case RecoveryFinds(c) =>
      if exists id :: IsOpenFor(w.incidents, c, id)
      then exists id :: IsOpenFor(w.incidents, c, id) && w' == Becomes(w, t, Resolves(id, "system"))
      else w' == Becomes(w, t, Finished)
    case Resolves(id, user) => w' == Effect(Becomes(w, t, Finished), Resolve(id, user, w.now))
    case Acknowledges(id, user) => w' == Effect(Becomes(w, t, Finished), Acknowledge(id, user, w.now))
    case Finished => false
  }

  predicate Arrives(task: Task) {
    task.AlertFinds? || task.RecoveryFinds? || task.Resolves? || task.Acknowledges?
  }

  ghost predicate WorldStep(w: World, w': World) {
    || (exists t: nat :: t < |w.tasks| && TaskStep(w, t, w'))
    || (exists task :: Arrives(task) && w' == w.(tasks := w.tasks + [task]))
    || (w.now <= w'.now && w' == w.(now := w'.now))
    || (exists cutoff :: w' == Effect(w, Prune(cutoff)))
  }

  lemma AlertTaskFinds(w: World, t: nat, mid: World)
    requires t < |w.tasks| && w.tasks[t].AlertFinds?
    ensures var r := w.tasks[t].report;
      TaskStep(w, t, mid) <==>
        if exists id :: IsOpenFor(w.incidents, r.checkID, id)
        then exists id :: IsOpenFor(w.incidents, r.checkID, id) && mid == Becomes(w, t, AlertUpdates(id, r))
        else mid == Becomes(w, t, AlertCreates(r))
  {
    hide Effect, IsOpenFor;
  }

  lemma AlertTaskEnds(w: World, t: nat, w': World)
    requires t < |w.tasks|
    ensures match w.tasks[t]
      case AlertUpdates(id, r) => TaskStep(w, t, w') <==> w' == Effect(Becomes(w, t, Finished), Apply(id, r, w.now))
      case AlertCreates(r) => TaskStep(w, t, w') <==> w' == Effect(Becomes(w, t, Finished), Create(r, w.now))
      case _ => true
  {
    hide Effect, IsOpenFor;
  }

  lemma AlertStep(m: Incidents, r: Report, now: Instant, m': Incidents)
    ensures Step(m, Alert(r, now), m') <==>
      if exists id :: IsOpenFor(m, r.checkID, id)
      then exists id :: IsOpenFor(m, r.checkID, id) && m' == RepoStep(m, Apply(id, r, now))
      else m' == RepoStep(m, Create(r, now))
  {
    hide RepoStep, IsOpenFor;
  }

  /** A call that nothing interrupts is one whole call of the manager, and can be any of its
      outcomes. */
  lemma AlertAloneIsCall(w: World, t: nat, m': Incidents)
    requires t < |w.tasks| && w.tasks[t].AlertFinds?
    ensures Step(w.incidents, Alert(w.tasks[t].report, w.now), m') <==>
      exists mid, w' :: TaskStep(w, t, mid) && |mid.tasks| > t && TaskStep(mid, t, w') && w'.incidents == m'
  {
    hide RepoStep, IsOpenFor, Recorded, TaskStep, Step;
    var r := w.tasks[t].report;
    AlertStep(w.incidents, r, w.now, m');
    if Step(w.incidents, Alert(r, w.now), m') {
      var op := Create(r, w.now);
      var mid := Becomes(w, t, AlertCreates(r));
      if exists id :: IsOpenFor(w.incidents, r.checkID, id) {
        var id :| IsOpenFor(w.incidents, r.checkID, id) && m' == RepoStep(w.incidents, Apply(id, r, w.now));
        op, mid := Apply(id, r, w.now), Becomes(w, t, AlertUpdates(id, r));
      }
      AlertTaskFinds(w, t, mid);
      AlertTaskEnds(mid, t, Effect(Becomes(mid, t, Finished), op));
    }
    forall mid, w' | TaskStep(w, t, mid) && |mid.tasks| > t && TaskStep(mid, t, w') && w'.incidents == m'
      ensures Step(w.incidents, Alert(r, w.now), m')
    {
      AlertTaskFinds(w, t, mid);
      AlertTaskEnds(mid, t, w');
    }
  }

  lemma ResolvesAtOnce(w: World, t: nat, w': World, id: string, user: string)
    requires t < |w.tasks| && w.tasks[t] == Resolves(id, user)
    ensures TaskStep(w, t, w') <==> w' == Effect(Becomes(w, t, Finished), Resolve(id, user, w.now))
  {
    hide RepoStep, Recorded, IsOpenFor;
  }

  lemma RecoveryFindsOpen(w: World, t: nat, mid: World)
    requires t < |w.tasks| && w.tasks[t].RecoveryFinds?
    ensures TaskStep(w, t, mid) <==>
      if exists id :: IsOpenFor(w.incidents, w.tasks[t].checkID, id)
      then exists id :: IsOpenFor(w.incidents, w.tasks[t].checkID, id) && mid == Becomes(w, t, Resolves(id, "system"))
      else mid == Becomes(w, t, Finished)
  {
    hide Effect, IsOpenFor;
  }

  lemma RecoveryStep(m: Incidents, c: string, now: Instant, m': Incidents)
    ensures Step(m, AutoResolve(c, now), m') <==>
      if exists id :: IsOpenFor(m, c, id)
      then exists id :: IsOpenFor(m, c, id) && m' == RepoStep(m, Resolve(id, "system", now))
      else m' == m
  {
    hide RepoStep, IsOpenFor;
  }

  lemma RecoveryAloneIsCall(w: World, t: nat, m': Incidents)
    requires t < |w.tasks| && w.tasks[t].RecoveryFinds?
    ensures Step(w.incidents, AutoResolve(w.tasks[t].checkID, w.now), m') <==>
      exists mid :: TaskStep(w, t, mid) && |mid.tasks| > t
        && if mid.tasks[t].Finished? then mid.incidents == m'
           else exists w' :: TaskStep(mid, t, w') && w'.incidents == m'
  {
    hide RepoStep, IsOpenFor, Recorded, TaskStep, Step;
    var c := w.tasks[t].checkID;
    RecoveryStep(w.incidents, c, w.now, m');
    forall mid {
      RecoveryFindsOpen(w, t, mid);
    }
    forall id, w' {
      ResolvesAtOnce(Becomes(w, t, Resolves(id, "system")), t, w', id, "system");
    }
    if Step(w.incidents, AutoResolve(c, w.now), m') {
      if exists id :: IsOpenFor(w.incidents, c, id) {
        var id :| IsOpenFor(w.incidents, c, id) && m' == RepoStep(w.incidents, Resolve(id, "system", w.now));
        var mid := Becomes(w, t, Resolves(id, "system"));
        assert TaskStep(w, t, mid) && TaskStep(mid, t, Effect(Becomes(mid, t, Finished), Resolve(id, "system", w.now)));
      } else {
        assert TaskStep(w, t, Becomes(w, t, Finished));
      }
    }
  }

  /** What one step of a call does: acknowledging and resolving are whole calls. */
  lemma OneStepOfACall(w: World, t: nat, w': World)
    requires t < |w.tasks| && TaskStep(w, t, w')
    ensures match w.tasks[t]
      case Acknowledges(id, user) => Step(w.incidents, Ack(id, user, w.now), w'.incidents)
      case Resolves(id, user) => Step(w.incidents, Close(id, user, w.now), w'.incidents)
      case AlertUpdates(id, r) => w'.incidents == RepoStep(w.incidents, Apply(id, r, w.now))
      case AlertCreates(r) => w'.incidents == RepoStep(w.incidents, Create(r, w.now))
      case _ => w'.incidents == w.incidents
    ensures w'.now == w.now && |w'.tasks| == |w.tasks|
    ensures forall u :: 0 <= u < |w.tasks| && u != t ==> w'.tasks[u] == w.tasks[u]
  {
    hide RepoStep, IsOpenFor, Recorded;
  }

  ghost predicate WorldRun(ws: seq<World>) {
    && |ws| > 0
    && ws[0].incidents == map[] && ws[0].applied == map[] && ws[0].tasks == []
    && forall i :: 0 <= i < |ws| - 1 ==> WorldStep(ws[i], ws[i + 1])
  }

  function StatusRank(s: Status): nat {
    match s case StatusOpen => 0 case StatusAcknowledged => 1 case StatusResolved => 2
  }

  function SeverityRank(severity: string): nat {
    match Level(severity) case None => 0 case Some(n) => n
  }

  function MaxRank(reports: seq<Report>): nat {
    if reports == [] then 0
    else
      var m, r := MaxRank(reports[..|reports| - 1]), SeverityRank(reports[|reports| - 1].severity);
      if r > m then r else m
  }

  /** Critical outranks warning, and warning everything else. */
  lemma SeveritiesAreOrdered(other: string)
    ensures SeverityRank("critical") > SeverityRank("warning")
    ensures other != "critical" && other != "warning" ==> SeverityRank("warning") > SeverityRank(other) == 0
  {
  }

  /** The maximum is at least every rank, and one of them. */
  lemma {:induction false} MaxRankIsMaximum(reports: seq<Report>)
    ensures forall r :: r in reports ==> SeverityRank(r.severity) <= MaxRank(reports)
    ensures reports != [] ==> exists r :: r in reports && SeverityRank(r.severity) == MaxRank(reports)
  {
    if reports != [] {
      hide SeverityRank;
      var front, last := reports[..|reports| - 1], reports[|reports| - 1];
      MaxRankIsMaximum(front);
      assert reports == front + [last];
      assert last in reports;
      if front == [] {
        assert MaxRank(front) == 0;
      }
    }
  }

  /** The incident is about what its first alert was about, says what its last one said, and
      has metadata from its alerts only. */
  ghost predicate TellsOf(inc: Incident, reports: seq<Report>) {
    && reports != []
    && inc.checkID == reports[0].checkID && inc.checkName == reports[0].checkName && inc.kind == reports[0].kind
    && inc.message == reports[|reports| - 1].message
    && (forall k :: k in reports[|reports| - 1].metadata ==>
          k in inc.metadata && inc.metadata[k] == reports[|reports| - 1].metadata[k])
    && (forall k :: k in inc.metadata ==> exists r :: r in reports && k in r.metadata && r.metadata[k] == inc.metadata[k])
    && (exists r :: r in reports && r.severity == inc.severity)
    && SeverityRank(inc.severity) == MaxRank(reports)
  }

  /** The dates of an incident are in order, and it has a resolution date exactly when it is
      resolved. */
  predicate Consistent(inc: Incident, now: Instant) {
    && (inc.resolvedAt.Some? <==> inc.status.StatusResolved?)
    && (inc.status.StatusAcknowledged? ==> inc.acknowledgedAt.Some?)
    && inc.startedAt <= inc.updatedAt <= now
    && (inc.acknowledgedAt.Some? ==> inc.startedAt <= inc.acknowledgedAt.value <= now)
    && (inc.resolvedAt.Some? ==> inc.startedAt <= inc.resolvedAt.value <= now)
    && (inc.acknowledgedAt.Some? && inc.resolvedAt.Some? ==> inc.acknowledgedAt.value <= inc.resolvedAt.value)
  }

  ghost predicate Sound(w: World) {
    forall id :: id in w.incidents ==>
      && Consistent(w.incidents[id], w.now)
      && id in w.applied
      && TellsOf(w.incidents[id], w.applied[id])
  }

  lemma AlertRaisesToMax(inc: Incident, r: Report, now: Instant, reports: seq<Report>)
    requires SeverityRank(inc.severity) == MaxRank(reports)
    ensures SeverityRank(Updated(inc, r, now).severity) == MaxRank(reports + [r])
  {
    assert (reports + [r])[..|reports|] == reports;
  }

  lemma UpdateTells(inc: Incident, r: Report, now: Instant, reports: seq<Report>)
    requires TellsOf(inc, reports)
    ensures TellsOf(Updated(inc, r, now), reports + [r])
  {
    AlertRaisesToMax(inc, r, now, reports);
    hide SeverityRank, MaxRank, SeverityHasIncreased;
    var inc', all := Updated(inc, r, now), reports + [r];
    assert r in all && forall q :: q in reports ==> q in all;
    forall k | k in inc'.metadata
      ensures exists q :: q in all && k in q.metadata && q.metadata[k] == inc'.metadata[k]
    {
      if k !in r.metadata {
        var q :| q in reports && k in q.metadata && q.metadata[k] == inc.metadata[k];
        assert q in all;
      }
    }
    var q :| q in reports && q.severity == inc.severity;
    assert q in all;
  }

  lemma NewTells(r: Report, now: Instant)
    ensures TellsOf(NewIncident(r, now), [r])
  {
    hide GenerateIncidentID, SeverityRank;
    assert [r][..0] == [] && r in [r];
    assert MaxRank([r]) == SeverityRank(r.severity);
  }

  lemma SettledTells(inc: Incident, user: string, now: Instant, reports: seq<Report>)
    requires TellsOf(inc, reports)
    ensures Acknowledged(inc, user, now).Some? ==> TellsOf(Acknowledged(inc, user, now).value, reports)
    ensures Resolved(inc, user, now).Some? ==> TellsOf(Resolved(inc, user, now).value, reports)
  {
    hide SeverityRank, MaxRank;
  }

  /** How one repository step can change an incident that is there before and after it. */
  predicate Evolves(inc: Incident, inc': Incident) {
    && StatusRank(inc.status) <= StatusRank(inc'.status)
    && (inc.status.StatusResolved? ==> inc'.resolvedAt == inc.resolvedAt)
    && inc'.startedAt == inc.startedAt && inc'.checkID == inc.checkID
    && SeverityRank(inc.severity) <= SeverityRank(inc'.severity)
  }

  lemma RepoStepEvolves(m: Incidents, op: RepoOp, id: string)
    requires id in m && id in RepoStep(m, op)
    ensures Evolves(m[id], RepoStep(m, op)[id])
  {
  }

  function OpTime(op: RepoOp, now: Instant): Instant {
    if op.Prune? then now else op.now
  }

  lemma EffectIsConsistent(w: World, op: RepoOp, id: string)
    requires Sound(w) && OpTime(op, w.now) == w.now && id in RepoStep(w.incidents, op)
    ensures Consistent(RepoStep(w.incidents, op)[id], w.now)
  {
    hide TellsOf, GenerateIncidentID, SeverityHasIncreased;
  }

  lemma EffectTells(w: World, op: RepoOp, id: string)
    requires Sound(w) && id in RepoStep(w.incidents, op)
    ensures id in Recorded(w, op) && TellsOf(RepoStep(w.incidents, op)[id], Recorded(w, op)[id])
  {
    hide TellsOf, Consistent, GenerateIncidentID, Updated, Acknowledged, Resolved;
    match op
    case Create(r, now) => NewTells(r, now);
    case Apply(i, r, now) =>
      if i in w.incidents {
        UpdateTells(w.incidents[i], r, now, w.applied[i]);
      }
    case Acknowledge(i, user, now) =>
      if i in w.incidents {
        SettledTells(w.incidents[i], user, now, w.applied[i]);
      }
    case Resolve(i, user, now) =>
      if i in w.incidents {
        SettledTells(w.incidents[i], user, now, w.applied[i]);
      }
    case _ =>
  }

  lemma EffectIsSound(w: World, op: RepoOp)
    requires Sound(w) && OpTime(op, w.now) == w.now
    ensures Sound(Effect(w, op))
  {
    forall id | id in RepoStep(w.incidents, op)
      ensures Consistent(RepoStep(w.incidents, op)[id], w.now)
      ensures id in Recorded(w, op) && TellsOf(RepoStep(w.incidents, op)[id], Recorded(w, op)[id])
    {
      EffectIsConsistent(w, op, id);
      EffectTells(w, op, id);
    }
    hide TellsOf, Consistent, RepoStep, Recorded;
  }

  lemma WorldStepIsSound(w: World, w': World)
    requires Sound(w) && WorldStep(w, w')
    ensures Sound(w')
  {
    hide Consistent, TellsOf, Effect;
    if t: nat :| t < |w.tasks| && TaskStep(w, t, w') {
      var b := Becomes(w, t, Finished);
      match w.tasks[t]
      case AlertUpdates(id, r) => EffectIsSound(b, Apply(id, r, w.now));
      case AlertCreates(r) => EffectIsSound(b, Create(r, w.now));
      case Resolves(id, user) => EffectIsSound(b, Resolve(id, user, w.now));
      case Acknowledges(id, user) => EffectIsSound(b, Acknowledge(id, user, w.now));
      case _ =>
    } else if cutoff :| w' == Effect(w, Prune(cutoff)) {
      EffectIsSound(w, Prune(cutoff));
    } else if w.now <= w'.now && w' == w.(now := w'.now) {
      forall id | id in w.incidents ensures Consistent(w.incidents[id], w'.now) {
        LaterIsConsistent(w.incidents[id], w.now, w'.now);
      }
    }
  }

  lemma LaterIsConsistent(inc: Incident, now: Instant, later: Instant)
    requires Consistent(inc, now) && now <= later
    ensures Consistent(inc, later)
  {
  }

  /** Under every interleaving, with Find and Update as separate steps: an incident has a
      resolution date exactly when it is resolved, StartedAt <= AcknowledgedAt <= ResolvedAt,
      its check and kind are those of the alert that created it, its message and metadata those
      of the last one applied, and its severity has the highest rank of all of them. */
  lemma {:induction false} IncidentsStaySound(ws: seq<World>, i: nat)
    requires WorldRun(ws) && i < |ws|
    ensures Sound(ws[i])
  {
    if i > 0 {
      IncidentsStaySound(ws, i - 1);
      assert WorldStep(ws[i - 1], ws[i - 1 + 1]);
      WorldStepIsSound(ws[i - 1], ws[i]);
    }
  }

  /** Under every interleaving an incident's status only moves forward, resolved is final, and
      severity never drops. */
  lemma StatusOnlyMovesForward(ws: seq<World>, i: nat, id: string)
    requires WorldRun(ws) && i + 1 < |ws|
    requires id in ws[i].incidents && id in ws[i + 1].incidents
    ensures Evolves(ws[i].incidents[id], ws[i + 1].incidents[id])
  {
    hide Evolves, RepoStep;
    var w, w' := ws[i], ws[i + 1];
    assert WorldStep(w, w');
    Unchanged(w.incidents[id]);
    if t: nat :| t < |w.tasks| && TaskStep(w, t, w') {
      match w.tasks[t]
      case AlertUpdates(x, r) => RepoStepEvolves(w.incidents, Apply(x, r, w.now), id);
      case AlertCreates(r) => RepoStepEvolves(w.incidents, Create(r, w.now), id);
      case Resolves(x, user) => RepoStepEvolves(w.incidents, Resolve(x, user, w.now), id);
      case Acknowledges(x, user) => RepoStepEvolves(w.incidents, Acknowledge(x, user, w.now), id);
      case _ =>
    } else if cutoff :| w' == Effect(w, Prune(cutoff)) {
      RepoStepEvolves(w.incidents, Prune(cutoff), id);
    }
  }

  lemma Unchanged(inc: Incident)
    ensures Evolves(inc, inc)
  {
  }

  /** Two alerts for one check that both look before either creates, a second apart, leave two
      incidents open: one step per call is needed for OneOpenPerCheck. */
  lemma InterleavedAlertsCanDuplicate(r: Report, t: Instant)
    ensures var w := World(map[], map[], [AlertFinds(r), AlertFinds(r)], t);
      var w1 := Becomes(w, 0, AlertCreates(r));
      var w2 := Becomes(w1, 1, AlertCreates(r));
      var w3 := Effect(Becomes(w2, 0, Finished), Create(r, t));
      var w4 := w3.(now := t + 1_000_000_000);
      var w5 := Effect(Becomes(w4, 1, Finished), Create(r, t + 1_000_000_000));
      && WorldStep(w, w1) && WorldStep(w1, w2) && WorldStep(w2, w3) && WorldStep(w3, w4) && WorldStep(w4, w5)
      && !AtMostOneOpen(w5.incidents)
  {
    hide GenerateIncidentID;
    var u := t + 1_000_000_000;
    SameSecondSameID(r.checkID, t, u);
    var w := World(map[], map[], [AlertFinds(r), AlertFinds(r)], t);
    var w1 := Becomes(w, 0, AlertCreates(r));
    var w2 := Becomes(w1, 1, AlertCreates(r));
    var w3 := Effect(Becomes(w2, 0, Finished), Create(r, t));
    var w4 := w3.(now := u);
    var w5 := Effect(Becomes(w4, 1, Finished), Create(r, u));
    assert TaskStep(w, 0, w1) && TaskStep(w1, 1, w2) && TaskStep(w2, 0, w3) && TaskStep(w4, 1, w5);
    assert IsOpenFor(w5.incidents, r.checkID, NewIncident(r, t).id);
    assert IsOpenFor(w5.incidents, r.checkID, NewIncident(r, u).id);
  }

  // ----- When interleaved calls keep one open incident per check

  /** Step `t` creates an incident, under a free ID, for a check that got one since the call
      looked. */
  ghost predicate LateCreate(w: World, w': World, t: nat) {
    && t < |w.tasks| && w.tasks[t].AlertCreates?
    && var r := w.tasks[t].report;
       && w' == Effect(Becomes(w, t, Finished), Create(r, w.now))
       && (exists id :: IsOpenFor(w.incidents, r.checkID, id))
       && NewIncident(r, w.now).id !in w.incidents
  }

  ghost predicate StepIsLate(w: World, w': World) {
    exists t: nat :: LateCreate(w, w', t)
  }

  /** Step `k` of the run is such a creation. */
  ghost predicate Late(ws: seq<World>, k: nat) {
    k + 1 < |ws| && StepIsLate(ws[k], ws[k + 1])
  }

  lemma MutationKeepsOneOpen(m: Incidents, op: RepoOp)
    requires WellKeyed(m) && AtMostOneOpen(m) && !op.Create?
    ensures WellKeyed(RepoStep(m, op)) && AtMostOneOpen(RepoStep(m, op))
    ensures forall c, id :: IsOpenFor(RepoStep(m, op), c, id) ==> IsOpenFor(m, c, id)
  {
    hide SeverityHasIncreased;
    var m' := RepoStep(m, op);
    assert forall c, id :: IsOpenFor(m', c, id) ==> IsOpenFor(m, c, id);
  }

  lemma CreateKeepsKeys(m: Incidents, r: Report, now: Instant)
    requires WellKeyed(m)
    ensures WellKeyed(RepoStep(m, Create(r, now)))
  {
    IDsAreNotEmpty(r.checkID, now);
  }

  lemma CreateOpens(m: Incidents, r: Report, now: Instant)
    requires AtMostOneOpen(m)
    ensures var m', id := RepoStep(m, Create(r, now)), NewIncident(r, now).id;
      && (AtMostOneOpen(m') <==> id in m || forall i :: !IsOpenFor(m, r.checkID, i))
      && (forall c, i :: IsOpenFor(m', c, i) <==> IsOpenFor(m, c, i) || (id !in m && c == r.checkID && i == id))
  {
    hide GenerateIncidentID;
    var m', id := RepoStep(m, Create(r, now)), NewIncident(r, now).id;
    assert forall c, i :: IsOpenFor(m', c, i) <==> IsOpenFor(m, c, i) || (id !in m && c == r.checkID && i == id);
    if i :| id !in m && IsOpenFor(m, r.checkID, i) {
      assert IsOpenFor(m', r.checkID, i) && IsOpenFor(m', r.checkID, id);
    }
  }

  /** The repository operation a step performs, if any. */
  lemma StepOperates(w: World, w': World) returns (op: Option<RepoOp>, t: nat)
    requires WorldStep(w, w')
    ensures op.None? ==> w'.incidents == w.incidents
    ensures op.Some? ==> w'.incidents == RepoStep(w.incidents, op.value)
    ensures op.Some? && op.value.Create? ==>
      && t < |w.tasks| && w.tasks[t] == AlertCreates(op.value.report) && op.value.now == w.now
      && w' == Effect(Becomes(w, t, Finished), op.value)
  {
    hide RepoStep;
    op, t := None, 0;
    if u: nat :| u < |w.tasks| && TaskStep(w, u, w') {
      t := u;
      match w.tasks[u]
      case AlertUpdates(id, r) => op := Some(Apply(id, r, w.now));
      case AlertCreates(r) => op := Some(Create(r, w.now));
      case Resolves(id, user) => op := Some(Resolve(id, user, w.now));
      case Acknowledges(id, user) => op := Some(Acknowledge(id, user, w.now));
      case _ =>
    } else if cutoff :| w' == Effect(w, Prune(cutoff)) {
      op := Some(Prune(cutoff));
    }
  }

  /** From a state with one open incident per check, a step breaks that if and only if it is a
      late creation. */
  lemma BreaksIffLate(w: World, w': World)
    requires WellKeyed(w.incidents) && AtMostOneOpen(w.incidents) && WorldStep(w, w')
    ensures WellKeyed(w'.incidents)
    ensures !AtMostOneOpen(w'.incidents) <==> StepIsLate(w, w')
  {
    hide RepoStep, WorldStep, WellKeyed, AtMostOneOpen, GenerateIncidentID;
    var op, t := StepOperates(w, w');
    if op.Some? && op.value.Create? {
      CreateKeepsKeys(w.incidents, op.value.report, w.now);
      CreateOpens(w.incidents, op.value.report, w.now);
      assert !AtMostOneOpen(w'.incidents) ==> LateCreate(w, w', t);
    } else if op.Some? {
      MutationKeepsOneOpen(w.incidents, op.value);
    }
    forall u: nat | LateCreate(w, w', u)
      ensures !AtMostOneOpen(w'.incidents)
    {
      CreateOpens(w.incidents, w.tasks[u].report, w.now);
    }
  }

  lemma {:induction false} KeptUntilLate(ws: seq<World>, i: nat)
    requires WorldRun(ws) && i < |ws|
    requires forall k :: 0 <= k < i ==> !Late(ws, k)
    ensures WellKeyed(ws[i].incidents) && AtMostOneOpen(ws[i].incidents)
  {
    if i > 0 {
      hide WorldStep, LateCreate;
      KeptUntilLate(ws, i - 1);
      assert WorldStep(ws[i - 1], ws[i - 1 + 1]);
      assert !Late(ws, i - 1);
      BreaksIffLate(ws[i - 1], ws[i]);
    }
  }

  /** In every interleaved run, each check has at most one open incident throughout if and
      only if no step creates an incident for a check that got one since the call looked. */
  lemma OneOpenIffNeverLate(ws: seq<World>)
    requires WorldRun(ws)
    ensures (forall i :: 0 <= i < |ws| ==> AtMostOneOpen(ws[i].incidents)) <==> forall k: nat :: !Late(ws, k)
  {
    hide AtMostOneOpen, WellKeyed, LateCreate, WorldStep;
    if forall k: nat :: !Late(ws, k) {
      forall i | 0 <= i < |ws|
        ensures AtMostOneOpen(ws[i].incidents)
      {
        KeptUntilLate(ws, i);
      }
    } else {
      var k := FirstLate(ws);
      KeptUntilLate(ws, k);
      assert WorldStep(ws[k], ws[k + 1]);
      BreaksIffLate(ws[k], ws[k + 1]);
    }
  }

  lemma FirstLate(ws: seq<World>) returns (k: nat)
    requires exists k: nat :: Late(ws, k)
    ensures Late(ws, k) && forall j :: 0 <= j < k ==> !Late(ws, j)
  {
    hide LateCreate;
    var late: nat :| Late(ws, late);
    k := 0;
    while !Late(ws, k)
      invariant k <= late && forall j :: 0 <= j < k ==> !Late(ws, j)
      decreases late - k
    {
      k := k + 1;
    }
  }

  /** The check an unfinished ProcessAlert call is about. */
  function AlertsFor(task: Task): Option<string> {
    match task
    case AlertFinds(r) => Some(r.checkID)
    case AlertUpdates(_, r) => Some(r.checkID)
    case AlertCreates(r) => Some(r.checkID)
    case _ => None
  }

  /** No check ever has two ProcessAlert calls in flight. */
  ghost predicate OneAlertAtATime(w: World) {
    forall t, u :: 0 <= t < u < |w.tasks| && AlertsFor(w.tasks[t]).Some? ==>
      AlertsFor(w.tasks[t]) != AlertsFor(w.tasks[u])
  }

  /** What a task is about to create is still missing. */
  ghost predicate NobodyLate(w: World) {
    forall t, id :: 0 <= t < |w.tasks| && w.tasks[t].AlertCreates? ==>
      !IsOpenFor(w.incidents, w.tasks[t].report.checkID, id)
  }

  lemma TaskStepKeepsNobodyLate(w: World, t: nat, w': World)
    requires WellKeyed(w.incidents) && AtMostOneOpen(w.incidents) && NobodyLate(w) && OneAlertAtATime(w)
    requires t < |w.tasks| && TaskStep(w, t, w')
    ensures NobodyLate(w')
  {
    hide RepoStep, WellKeyed, AtMostOneOpen, GenerateIncidentID, IsOpenFor;
    match w.tasks[t]
    case AlertUpdates(id, r) => MutationKeepsOneOpen(w.incidents, Apply(id, r, w.now));
    case AlertCreates(r) => CreateOpens(w.incidents, r, w.now);
    case Resolves(id, user) => MutationKeepsOneOpen(w.incidents, Resolve(id, user, w.now));
    case Acknowledges(id, user) => MutationKeepsOneOpen(w.incidents, Acknowledge(id, user, w.now));
    case _ =>
  }

  lemma StepKeepsNobodyLate(w: World, w': World)
    requires WellKeyed(w.incidents) && AtMostOneOpen(w.incidents) && NobodyLate(w) && OneAlertAtATime(w)
    requires WorldStep(w, w')
    ensures NobodyLate(w') && !StepIsLate(w, w')
  {
    hide WellKeyed, AtMostOneOpen, GenerateIncidentID, IsOpenFor, RepoStep, TaskStep;
    if t: nat :| t < |w.tasks| && TaskStep(w, t, w') {
      TaskStepKeepsNobodyLate(w, t, w');
    } else if cutoff :| w' == Effect(w, Prune(cutoff)) {
      MutationKeepsOneOpen(w.incidents, Prune(cutoff));
    }
  }

  lemma {:induction false} NobodyEverLate(ws: seq<World>, i: nat)
    requires WorldRun(ws) && i < |ws| && forall k :: 0 <= k < i ==> OneAlertAtATime(ws[k])
    ensures WellKeyed(ws[i].incidents) && AtMostOneOpen(ws[i].incidents) && NobodyLate(ws[i])
  {
    if i > 0 {
      hide WellKeyed, AtMostOneOpen, NobodyLate, OneAlertAtATime, WorldStep, LateCreate;
      NobodyEverLate(ws, i - 1);
      assert WorldStep(ws[i - 1], ws[i - 1 + 1]);
      StepKeepsNobodyLate(ws[i - 1], ws[i]);
      BreaksIffLate(ws[i - 1], ws[i]);
    }
  }

  /** With Find, Update and Create as separate steps, and acknowledgements, resolutions,
      recoveries and prunes interleaved at will: while no check has two ProcessAlert calls in
      flight, no check ever has two open incidents. */
  lemma OneOpenWhenAlertsTakeTurns(ws: seq<World>, i: nat)
    requires WorldRun(ws) && i < |ws| && forall k :: 0 <= k < i ==> OneAlertAtATime(ws[k])
    ensures AtMostOneOpen(ws[i].incidents)
    ensures forall k :: 0 <= k < i ==> !Late(ws, k)
  {
    hide WellKeyed, AtMostOneOpen, NobodyLate, OneAlertAtATime, WorldStep, LateCreate;
    NobodyEverLate(ws, i);
    forall k | 0 <= k < i
      ensures !Late(ws, k)
    {
      NobodyEverLate(ws, k);
      assert WorldStep(ws[k], ws[k + 1]);
      StepKeepsNobodyLate(ws[k], ws[k + 1]);
    }
  }
}
