/** MySQL samples, the counter deltas between them, and the repository that pairs each new
    sample with the one before it.  Floating-point quantities are exact reals. */
module MySQLSamples {
  import opened Civil
  import opened Sequences

  type CheckID = string

  datatype Sample = Sample(
    sampleID: string,
    checkID: CheckID,
    timestamp: Instant,
    connections: int,
    maxConnections: int,
    threadsRunning: int,
    abortedConnects: int,
    slowQueries: int,
    questions: int,
    rowLockWaits: int,
    tmpDiskTables: int,
    tmpTables: int,
    threadsCreated: int,
    connectionsRefused: int)

  datatype Delta = Delta(
    sampleID: string,
    checkID: CheckID,
    intervalSec: real,
    timestamp: Instant,
    abortedConnects: int,
    abortedConnectsPerSec: real,
    slowQueries: int,
    slowQueriesPerSec: real,
    questions: int,
    questionsPerSec: real,
    rowLockWaits: int,
    rowLockWaitsPerSec: real,
    tmpDiskTables: int,
    tmpDiskTablesPct: real,
    threadsCreated: int,
    threadsCreatedPerSec: real,
    connectionsRefused: int)

  /** max(0, current - previous), the difference being taken in 64 bits. */
  function CounterDiff(current: int, previous: int): (d: int)
    ensures d >= 0
  {
    var diff := Wrap64(current - previous);
    if diff < 0 then 0 else diff
  }

  function IntervalSeconds(current: Sample, previous: Sample): (r: real)
    ensures r > 0.0
  {
    var s := Sub(current.timestamp, previous.timestamp) as real / 1_000_000_000.0;
    if s <= 0.0 then 1.0 else s
  }

  function ComputeDelta(current: Sample, previous: Sample): Delta {
    var interval := IntervalSeconds(current, previous);
    var aborted := CounterDiff(current.abortedConnects, previous.abortedConnects);
    var slow := CounterDiff(current.slowQueries, previous.slowQueries);
    var questions := CounterDiff(current.questions, previous.questions);
    var waits := CounterDiff(current.rowLockWaits, previous.rowLockWaits);
    var disk := CounterDiff(current.tmpDiskTables, previous.tmpDiskTables);
    var tmp := CounterDiff(current.tmpTables, previous.tmpTables);
    var created := CounterDiff(current.threadsCreated, previous.threadsCreated);
    var refused := CounterDiff(current.connectionsRefused, previous.connectionsRefused);
    Delta(
      current.sampleID, current.checkID, interval, current.timestamp,
      aborted, aborted as real / interval,
      slow, slow as real / interval,
      questions, questions as real / interval,
      waits, waits as real / interval,
      disk, if tmp > 0 then disk as real / tmp as real * 100.0 else 0.0,
      created, created as real / interval,
      refused)
  }

  lemma RateTimesInterval(d: int, interval: real)
    requires interval > 0.0
    ensures d as real / interval * interval == d as real
  {
  }

  /** The rates are the counter deltas spread over the interval, which is never zero. */
  lemma RatesRecoverDeltas(current: Sample, previous: Sample)
    ensures var d := ComputeDelta(current, previous);
      && d.abortedConnectsPerSec * d.intervalSec == d.abortedConnects as real
      && d.slowQueriesPerSec * d.intervalSec == d.slowQueries as real
      && d.questionsPerSec * d.intervalSec == d.questions as real
      && d.rowLockWaitsPerSec * d.intervalSec == d.rowLockWaits as real
      && d.threadsCreatedPerSec * d.intervalSec == d.threadsCreated as real
  {
    hide CounterDiff, IntervalSeconds;
    var d := ComputeDelta(current, previous);
    RateTimesInterval(d.abortedConnects, d.intervalSec);
    RateTimesInterval(d.slowQueries, d.intervalSec);
    RateTimesInterval(d.questions, d.intervalSec);
    RateTimesInterval(d.rowLockWaits, d.intervalSec);
    RateTimesInterval(d.threadsCreated, d.intervalSec);
  }

  /** The interval is the time between the samples, in seconds, when the later one is later;
      durations end at 2^63 - 1 ns.  Otherwise it counts as one second. */
  lemma IntervalIsElapsedTime(current: Sample, previous: Sample)
    ensures var elapsed, seconds := current.timestamp - previous.timestamp, IntervalSeconds(current, previous);
      if elapsed <= 0 then seconds == 1.0
      else if elapsed <= MAX_INT64 then seconds * 1_000_000_000.0 == elapsed as real
      else seconds * 1_000_000_000.0 == MAX_INT64 as real
  {
  }

  /** A delta belongs to the later of its two samples, and its share of temporary tables on
      disk is that of the two gains. */
  lemma DeltaDescribesCurrent(current: Sample, previous: Sample)
    ensures var d := ComputeDelta(current, previous);
      var disk := CounterDiff(current.tmpDiskTables, previous.tmpDiskTables) as real;
      var tables := CounterDiff(current.tmpTables, previous.tmpTables) as real;
      && d.sampleID == current.sampleID && d.checkID == current.checkID && d.timestamp == current.timestamp
      && (tables > 0.0 ==> d.tmpDiskTablesPct * tables == 100.0 * disk)
      && (tables == 0.0 ==> d.tmpDiskTablesPct == 0.0)
  {
    hide CounterDiff, IntervalSeconds;
  }

  // ----- One counter of one check, over its samples

  datatype Counter =
    AbortedConnects | SlowQueries | Questions | RowLockWaits | TmpDiskTables | ThreadsCreated | ConnectionsRefused

  function Read(c: Counter, s: Sample): int {
    match c
    case AbortedConnects => s.abortedConnects
    case SlowQueries => s.slowQueries
    case Questions => s.questions
    case RowLockWaits => s.rowLockWaits
    case TmpDiskTables => s.tmpDiskTables
    case ThreadsCreated => s.threadsCreated
    case ConnectionsRefused => s.connectionsRefused
  }

  function ReadDelta(c: Counter, d: Delta): int {
    match c
    case AbortedConnects => d.abortedConnects
    case SlowQueries => d.slowQueries
    case Questions => d.questions
    case RowLockWaits => d.rowLockWaits
    case TmpDiskTables => d.tmpDiskTables
    case ThreadsCreated => d.threadsCreated
    case ConnectionsRefused => d.connectionsRefused
  }

  /** The deltas between consecutive samples. */
  function Pairwise(samples: seq<Sample>): (ds: seq<Delta>)
    ensures |ds| == if |samples| == 0 then 0 else |samples| - 1
  {
    if |samples| <= 1 then []
    else
      Pairwise(samples[..|samples| - 1]) + [ComputeDelta(samples[|samples| - 1], samples[|samples| - 2])]
  }

  lemma {:induction false} PairwiseAt(samples: seq<Sample>, k: nat)
    requires k + 1 < |samples|
    ensures Pairwise(samples)[k] == ComputeDelta(samples[k + 1], samples[k])
  {
    if k + 2 < |samples| {
      PairwiseAt(samples[..|samples| - 1], k);
    }
  }

  function Total(c: Counter, ds: seq<Delta>): int {
    if ds == [] then 0 else Total(c, ds[..|ds| - 1]) + ReadDelta(c, ds[|ds| - 1])
  }

  /** The counter's values are 64-bit and not negative, as MySQL reports them. */
  predicate CounterValues(c: Counter, samples: seq<Sample>) {
    forall i :: 0 <= i < |samples| ==> 0 <= Read(c, samples[i]) <= MAX_INT64
  }

  predicate NeverResets(c: Counter, samples: seq<Sample>) {
    forall i :: 0 <= i < |samples| - 1 ==> Read(c, samples[i]) <= Read(c, samples[i + 1])
  }

  /** What is lost at resets: the sum of all decreases. */
  function Dropped(c: Counter, samples: seq<Sample>): (r: nat)
    ensures r == 0 <==> NeverResets(c, samples)
  {
    if |samples| <= 1 then 0
    else
      var n := |samples|;
      var d := Read(c, samples[n - 2]) - Read(c, samples[n - 1]);
      Dropped(c, samples[..n - 1]) + if d > 0 then d else 0
  }

  lemma DeltaReadsCounter(c: Counter, current: Sample, previous: Sample)
    ensures ReadDelta(c, ComputeDelta(current, previous)) == CounterDiff(Read(c, current), Read(c, previous))
  {
  }

  /** What the counter gained; a reset gains nothing. */
  function Gain(c: Counter, current: Sample, previous: Sample): nat {
    if Read(c, current) > Read(c, previous) then Read(c, current) - Read(c, previous) else 0
  }

  lemma CounterDiffExact(current: int, previous: int)
    requires 0 <= current <= MAX_INT64 && 0 <= previous <= MAX_INT64
    ensures CounterDiff(current, previous) == if current > previous then current - previous else 0
  {
  }

  lemma PairwiseSnoc(samples: seq<Sample>, previous: Sample, current: Sample)
    ensures Pairwise(samples + [previous] + [current]) ==
      Pairwise(samples + [previous]) + [ComputeDelta(current, previous)]
  {
    hide ComputeDelta;
    var all := samples + [previous] + [current];
    assert all[..|all| - 1] == samples + [previous];
  }

  lemma TotalSnoc(c: Counter, ds: seq<Delta>, d: Delta)
    ensures Total(c, ds + [d]) == Total(c, ds) + ReadDelta(c, d)
  {
    hide ReadDelta;
    assert (ds + [d])[..|ds|] == ds;
  }

  lemma DroppedSnoc(c: Counter, samples: seq<Sample>, previous: Sample, current: Sample)
    ensures Dropped(c, samples + [previous] + [current]) ==
      Dropped(c, samples + [previous]) +
        if Read(c, previous) > Read(c, current) then Read(c, previous) - Read(c, current) else 0
  {
    hide Read;
    var all := samples + [previous] + [current];
    assert all[..|all| - 1] == samples + [previous];
  }

  lemma FrontValues(c: Counter, samples: seq<Sample>)
    requires |samples| > 0 && CounterValues(c, samples)
    ensures CounterValues(c, samples[..|samples| - 1])
    ensures 0 <= Read(c, samples[|samples| - 1]) <= MAX_INT64
    ensures |samples| > 1 ==> 0 <= Read(c, samples[|samples| - 2]) <= MAX_INT64
  {
    hide Read;
  }

  lemma LastTwo(samples: seq<Sample>)
    requires |samples| > 1
    ensures var n := |samples| - 1; samples[..n] == samples[..n - 1] + [samples[n - 1]] && samples == samples[..n] + [samples[n]]
  {
  }

  /** Deltas telescope, up to what resets drop. */
  lemma {:induction false} DeltasTelescope(c: Counter, samples: seq<Sample>)
    requires |samples| > 0 && CounterValues(c, samples)
    ensures Total(c, Pairwise(samples))
         == Read(c, samples[|samples| - 1]) - Read(c, samples[0]) + Dropped(c, samples)
  {
    if |samples| > 1 {
      hide *;
      var n := |samples| - 1;
      var rest, front, previous, current := samples[..n - 1], samples[..n], samples[n - 1], samples[n];
      LastTwo(samples);
      FrontValues(c, samples);
      DeltasTelescope(c, front);
      PairwiseSnoc(rest, previous, current);
      TotalSnoc(c, Pairwise(front), ComputeDelta(current, previous));
      DroppedSnoc(c, rest, previous, current);
      DeltaReadsCounter(c, current, previous);
      CounterDiffExact(Read(c, current), Read(c, previous));
    }
  }

  /** The deltas of a counter sum to at least last - first, and to exactly that when and only
      when the counter never resets. */
  lemma DeltasSum(c: Counter, samples: seq<Sample>)
    requires |samples| > 0 && CounterValues(c, samples)
    ensures var gain := Read(c, samples[|samples| - 1]) - Read(c, samples[0]);
      && Total(c, Pairwise(samples)) >= gain
      && (Total(c, Pairwise(samples)) == gain <==> NeverResets(c, samples))
  {
    DeltasTelescope(c, samples);
  }

  // ----- The repository

  datatype ComputeResult = Computed(delta: Delta) | SampleNotFound | NoPrevious

  function ByID(samples: seq<Sample>, id: string): (i: int)
    ensures -1 <= i < |samples|
    ensures i >= 0 ==> samples[i].sampleID == id
    ensures forall j :: 0 <= j < (if i < 0 then |samples| else i) ==> samples[j].sampleID != id
  {
    if samples == [] then -1
    else
      var front := samples[..|samples| - 1];
      var i := ByID(front, id);
      if i >= 0 then i
      else if samples[|samples| - 1].sampleID == id then |samples| - 1
      else -1
  }

  /** The newest sample of the same check with another ID. */
  function PreviousOf(samples: seq<Sample>, checkID: CheckID, id: string): (i: int)
    ensures -1 <= i < |samples|
    ensures i >= 0 ==> samples[i].checkID == checkID && samples[i].sampleID != id
    ensures forall j :: i < j < |samples| ==> !(samples[j].checkID == checkID && samples[j].sampleID != id)
  {
    if samples == [] then -1
    else if samples[|samples| - 1].checkID == checkID && samples[|samples| - 1].sampleID != id then |samples| - 1
    else PreviousOf(samples[..|samples| - 1], checkID, id)
  }

  function Compute(samples: seq<Sample>, id: string): ComputeResult {
    var i := ByID(samples, id);
    if i < 0 then SampleNotFound
    else
      var j := PreviousOf(samples, samples[i].checkID, id);
      if j < 0 then NoPrevious else Computed(ComputeDelta(samples[i], samples[j]))
  }

  class FileMySQLRepository {
    var samples: seq<Sample>
    var deltas: seq<Delta>

    constructor ()
      ensures samples == [] && deltas == []
    {
      samples, deltas := [], [];
    }

    /** `generated` is the ID made from the check and the clock, used when none is given. */
    method AppendSample(sample: Sample, generated: string) returns (id: string)
      modifies this`samples
      ensures id == if sample.sampleID == "" then generated else sample.sampleID
      ensures samples == old(samples) + [sample.(sampleID := id)]
    {
      var s := sample;
      if s.sampleID == "" {
        s := s.(sampleID := generated);
      }
      samples := samples + [s];
      id := s.sampleID;
    }

    method ComputeAndAppendDelta(id: string) returns (r: ComputeResult)
      modifies this`deltas
      ensures r == Compute(samples, id)
      ensures r.SampleNotFound? <==> forall i :: 0 <= i < |samples| ==> samples[i].sampleID != id
      ensures !r.SampleNotFound? ==> exists i ::
        && 0 <= i < |samples| && samples[i].sampleID == id
        && (r.NoPrevious? <==> forall j :: 0 <= j < |samples| ==>
              samples[j].checkID != samples[i].checkID || samples[j].sampleID == id)
      ensures deltas == old(deltas) + if r.Computed? then [r.delta] else []
    {
      hide ComputeDelta;
      var found := -1;
      var k := 0;
      while k < |samples| && found < 0
        invariant 0 <= k <= |samples|
        invariant found < 0 ==> forall j :: 0 <= j < k ==> samples[j].sampleID != id
        invariant found >= 0 ==> found < |samples| && samples[found].sampleID == id
        invariant found >= 0 ==> forall j :: 0 <= j < found ==> samples[j].sampleID != id
      {
        if samples[k].sampleID == id {
          found := k;
        }
        k := k + 1;
      }
      if found < 0 {
        return SampleNotFound;
      }
      var current := samples[found];
      var i := |samples| - 1;
      while i >= 0 && !(samples[i].checkID == current.checkID && samples[i].sampleID != id)
        invariant -1 <= i < |samples|
        invariant forall j :: i < j < |samples| ==>
          !(samples[j].checkID == current.checkID && samples[j].sampleID != id)
      {
        i := i - 1;
      }
      if i < 0 {
        return NoPrevious;
      }
      var delta := ComputeDelta(current, samples[i]);
      deltas := deltas + [delta];
      return Computed(delta);
    }
  }

  // ----- Whole runs: samples of many checks, each followed by its own delta

  datatype Event = Append(sample: Sample) | ComputeFor(id: string)

  datatype Repo = Repo(samples: seq<Sample>, deltas: seq<Delta>)

  function Apply(r: Repo, e: Event): Repo {
    match e
    case Append(s) => r.(samples := r.samples + [s])
    case ComputeFor(id) =>
      var c := Compute(r.samples, id);
      if c.Computed? then r.(deltas := r.deltas + [c.delta]) else r
  }

  function RunEvents(events: seq<Event>): Repo {
    if events == [] then Repo([], [])
    else Apply(RunEvents(events[..|events| - 1]), events[|events| - 1])
  }

  function SamplesOf(samples: seq<Sample>, c: CheckID): seq<Sample> {
    if samples == [] then []
    else
      var s := samples[|samples| - 1];
      SamplesOf(samples[..|samples| - 1], c) + if s.checkID == c then [s] else []
  }

  function DeltasOf(deltas: seq<Delta>, c: CheckID): seq<Delta> {
    if deltas == [] then []
    else
      var d := deltas[|deltas| - 1];
      DeltasOf(deltas[..|deltas| - 1], c) + if d.checkID == c then [d] else []
  }

  /** Check `c` has a sample whose delta is still to be computed. */
  predicate Pending(events: seq<Event>, c: CheckID) {
    if events == [] then false
    else
      var e := events[|events| - 1];
      var front := events[..|events| - 1];
      match e
      case Append(s) => s.checkID == c || Pending(front, c)
      case ComputeFor(id) => Pending(front, c) && !LastIs(SamplesOf(RunEvents(front).samples, c), id)
  }

  predicate LastIs(samples: seq<Sample>, id: string) {
    samples != [] && samples[|samples| - 1].sampleID == id
  }

  /** Sample IDs are unique, and a delta is computed once for every sample, before the same
      check appends another; other checks may do anything in between. */
  predicate Disciplined(events: seq<Event>) {
    events == [] ||
    var e := events[|events| - 1];
    var front := events[..|events| - 1];
    var samples := RunEvents(front).samples;
    && Disciplined(front)
    && match e
       case Append(s) => ByID(samples, s.sampleID) < 0 && !Pending(front, s.checkID)
       case ComputeFor(id) =>
         var i := ByID(samples, id);
         i >= 0 && Pending(front, samples[i].checkID) && LastIs(SamplesOf(samples, samples[i].checkID), id)
  }

  /** Samples of `c` whose deltas are in. */
  function Settled(events: seq<Event>, c: CheckID): seq<Sample> {
    var mine := SamplesOf(RunEvents(events).samples, c);
    if Pending(events, c) && mine != [] then mine[..|mine| - 1] else mine
  }

  ghost predicate UniqueIDs(samples: seq<Sample>) {
    forall i, j :: 0 <= i < j < |samples| ==> samples[i].sampleID != samples[j].sampleID
  }

  lemma {:induction false} DisciplinedIDs(events: seq<Event>)
    requires Disciplined(events)
    ensures UniqueIDs(RunEvents(events).samples)
  {
    if events != [] {
      DisciplinedIDs(events[..|events| - 1]);
    }
  }

  lemma {:induction false} SamplesOfMember(samples: seq<Sample>, c: CheckID, s: Sample)
    ensures s in SamplesOf(samples, c) <==> s in samples && s.checkID == c
  {
    if samples != [] {
      SamplesOfMember(samples[..|samples| - 1], c, s);
    }
  }

  /** With no sample named `id`, the backward search finds the check's last sample. */
  lemma {:induction false} SearchFindsLast(samples: seq<Sample>, c: CheckID, id: string)
    requires forall i :: 0 <= i < |samples| ==> samples[i].sampleID != id
    ensures var mine, j := SamplesOf(samples, c), PreviousOf(samples, c, id);
      if mine == [] then j < 0 else j >= 0 && samples[j] == mine[|mine| - 1]
  {
    if samples != [] && samples[|samples| - 1].checkID != c {
      SearchFindsLast(samples[..|samples| - 1], c, id);
    }
  }

  /** For the check's last sample, it finds the one before, whatever other checks appended. */
  lemma {:induction false} SearchFindsNeighbour(samples: seq<Sample>, c: CheckID, id: string)
    requires UniqueIDs(samples) && LastIs(SamplesOf(samples, c), id)
    ensures var mine, j := SamplesOf(samples, c), PreviousOf(samples, c, id);
      if |mine| == 1 then j < 0 else j >= 0 && samples[j] == mine[|mine| - 2]
  {
    if samples[|samples| - 1].checkID == c {
      SearchFindsLast(samples[..|samples| - 1], c, id);
    } else {
      SearchFindsNeighbour(samples[..|samples| - 1], c, id);
    }
  }

  lemma ByIDIsLast(samples: seq<Sample>, c: CheckID, id: string)
    requires UniqueIDs(samples) && LastIs(SamplesOf(samples, c), id)
    ensures var mine, i := SamplesOf(samples, c), ByID(samples, id);
      i >= 0 && samples[i] == mine[|mine| - 1]
  {
    var mine := SamplesOf(samples, c);
    SamplesOfMember(samples, c, mine[|mine| - 1]);
  }

  /** The delta computed for a check's last sample is the one between its last two. */
  lemma ComputeForLast(samples: seq<Sample>, c: CheckID, id: string)
    requires UniqueIDs(samples) && LastIs(SamplesOf(samples, c), id)
    ensures var mine := SamplesOf(samples, c);
      Compute(samples, id) == if |mine| == 1 then NoPrevious
                              else Computed(ComputeDelta(mine[|mine| - 1], mine[|mine| - 2]))
  {
    hide ComputeDelta;
    var mine := SamplesOf(samples, c);
    SamplesOfMember(samples, c, mine[|mine| - 1]);
    ByIDIsLast(samples, c, id);
    SearchFindsNeighbour(samples, c, id);
  }

  /** An ID belongs to one check only. */
  lemma OneOwner(samples: seq<Sample>, c: CheckID, d: CheckID, id: string)
    requires UniqueIDs(samples) && LastIs(SamplesOf(samples, c), id) && LastIs(SamplesOf(samples, d), id)
    ensures c == d
  {
    ByIDIsLast(samples, c, id);
    ByIDIsLast(samples, d, id);
    var i := ByID(samples, id);
    SamplesOfMember(samples, c, samples[i]);
    SamplesOfMember(samples, d, samples[i]);
  }

  lemma SamplesOfSnoc(samples: seq<Sample>, s: Sample, c: CheckID)
    ensures SamplesOf(samples + [s], c) == if s.checkID == c then SamplesOf(samples, c) + [s] else SamplesOf(samples, c)
  {
    assert (samples + [s])[..|samples|] == samples;
  }

  lemma DeltasOfSnoc(deltas: seq<Delta>, d: Delta, c: CheckID)
    ensures DeltasOf(deltas + [d], c) == if d.checkID == c then DeltasOf(deltas, c) + [d] else DeltasOf(deltas, c)
  {
    assert (deltas + [d])[..|deltas|] == deltas;
  }

  /** What the last event does to the samples and settled samples of check `c`. */
  lemma AppendSettles(events: seq<Event>, c: CheckID)
    requires Disciplined(events) && events != [] && events[|events| - 1].Append?
    ensures Settled(events, c) == Settled(events[..|events| - 1], c)
  {
    var front := events[..|events| - 1];
    SamplesOfSnoc(RunEvents(front).samples, events[|events| - 1].sample, c);
  }

  lemma ComputeSettles(events: seq<Event>, c: CheckID)
    requires Disciplined(events) && events != [] && events[|events| - 1].ComputeFor?
    ensures var front, id := events[..|events| - 1], events[|events| - 1].id;
      var mine := SamplesOf(RunEvents(front).samples, c);
      && UniqueIDs(RunEvents(front).samples)
      && if LastIs(mine, id)
         then Settled(events, c) == mine && Settled(front, c) == mine[..|mine| - 1]
         else Settled(events, c) == Settled(front, c)
  {
    hide ComputeDelta;
    var front, id := events[..|events| - 1], events[|events| - 1].id;
    var samples := RunEvents(front).samples;
    DisciplinedIDs(front);
    assert RunEvents(events).samples == samples;
    var owner := samples[ByID(samples, id)].checkID;
    if LastIs(SamplesOf(samples, c), id) {
      OneOwner(samples, c, owner, id);
    }
  }

  lemma ComputeRecords(events: seq<Event>, c: CheckID)
    requires Disciplined(events) && events != [] && events[|events| - 1].ComputeFor?
    ensures var front, id := events[..|events| - 1], events[|events| - 1].id;
      var mine, before := SamplesOf(RunEvents(front).samples, c), DeltasOf(RunEvents(front).deltas, c);
      DeltasOf(RunEvents(events).deltas, c) ==
        if LastIs(mine, id) && |mine| > 1
        then before + [ComputeDelta(mine[|mine| - 1], mine[|mine| - 2])]
        else before
  {
    hide ComputeDelta, SamplesOf, DeltasOf, PreviousOf, Pending;
    var front, id := events[..|events| - 1], events[|events| - 1].id;
    var r := RunEvents(front);
    DisciplinedIDs(front);
    var owner := r.samples[ByID(r.samples, id)].checkID;
    ComputeForLast(r.samples, owner, id);
    DeltaNamesCheck(r.samples, owner, id);
    var computed := Compute(r.samples, id);
    if computed.Computed? {
      DeltasOfSnoc(r.deltas, computed.delta, c);
    }
    if LastIs(SamplesOf(r.samples, c), id) {
      OneOwner(r.samples, c, owner, id);
    }
  }

  lemma DeltaNamesCheck(samples: seq<Sample>, c: CheckID, id: string)
    requires UniqueIDs(samples) && LastIs(SamplesOf(samples, c), id)
    ensures Compute(samples, id).Computed? ==> Compute(samples, id).delta.checkID == c
  {
    hide CounterDiff, IntervalSeconds;
    var mine := SamplesOf(samples, c);
    SamplesOfMember(samples, c, mine[|mine| - 1]);
    ComputeForLast(samples, c, id);
  }

  /** Despite the samples other checks interleave, the deltas recorded for a check are those
      between its consecutive samples, in order. */
  lemma {:induction false} DeltasPairConsecutiveSamples(events: seq<Event>, c: CheckID)
    requires Disciplined(events)
    ensures DeltasOf(RunEvents(events).deltas, c) == Pairwise(Settled(events, c))
  {
    if events != [] {
      DeltasPairConsecutiveSamples(events[..|events| - 1], c);
      if events[|events| - 1].Append? {
        AppendSettles(events, c);
      } else {
        hide ComputeDelta, SamplesOf, DeltasOf, Settled, Compute;
        ComputeSettles(events, c);
        ComputeRecords(events, c);
      }
    }
  }

  /** The k-th delta of a check lies between its k-th and (k+1)-th samples, and the deltas of
      a counter add up to its whole gain exactly when it never resets. */
  lemma DeltaSeries(events: seq<Event>, c: CheckID, counter: Counter, k: nat)
    requires Disciplined(events)
    requires k + 1 < |Settled(events, c)|
    requires CounterValues(counter, Settled(events, c))
    ensures var mine, ds := Settled(events, c), DeltasOf(RunEvents(events).deltas, c);
      var gain := Read(counter, mine[|mine| - 1]) - Read(counter, mine[0]);
      && |ds| == |mine| - 1
      && ds[k] == ComputeDelta(mine[k + 1], mine[k])
      && ReadDelta(counter, ds[k]) >= 0
      && Total(counter, ds) >= gain
      && (Total(counter, ds) == gain <==> NeverResets(counter, mine))
  {
    var mine := Settled(events, c);
    hide *;
    DeltasPairConsecutiveSamples(events, c);
    PairwiseAt(mine, k);
    DeltaReadsCounter(counter, mine[k + 1], mine[k]);
    DeltasSum(counter, mine);
  }
}
