/** The AI analysis queue, and the worker that drains it beside manual analyses. */
module AIQueue {
  import opened Civil
  import opened Options
  import opened Sequences
  import opened AlertMessages

  datatype Status = Pending | Processing | Completed | Failed

  datatype Item = Item(
    incidentID: string,
    promptVersion: string,
    status: Status,
    createdAt: Instant,
    claimedAt: Option<Instant>,
    completedAt: Option<Instant>,
    lastError: string)

  /** What is read from a response. */
  datatype Analysis = Analysis(
    summary: string,
    text: string,
    suggestions: seq<string>,
    severity: string,
    confidence: string)

  datatype AnalysisResult = AnalysisResult(incidentID: string, analysis: Analysis, createdAt: Instant)

  datatype Queue = Queue(items: seq<Item>, results: seq<AnalysisResult>)

  datatype Op =
      Enqueue(incidentID: string, promptVersion: string, now: Instant)
    | Claim(limit: int, now: Instant)
    | Complete(incidentID: string, result: AnalysisResult, now: Instant)
    | Fail(incidentID: string, reason: string)
    | Prune(cutoff: Instant)

  predicate Active(item: Item, incidentID: string) {
    item.incidentID == incidentID && (item.status.Pending? || item.status.Processing?)
  }

  /** The first item of the incident that is pending or processing, |items| if there is none. */
  function FirstActive(items: seq<Item>, incidentID: string): (i: nat)
    ensures i <= |items|
    ensures i < |items| ==> Active(items[i], incidentID)
    ensures forall j :: 0 <= j < i ==> !Active(items[j], incidentID)
  {
    if items == [] then 0
    else
      var last := |items| - 1;
      var i := FirstActive(items[..last], incidentID);
      if i < last then i else if Active(items[last], incidentID) then last else |items|
  }

  function PendingIn(items: seq<Item>): nat {
    if items == [] then 0
    else PendingIn(items[..|items| - 1]) + if items[|items| - 1].status.Pending? then 1 else 0
  }

  function Limit(limit: int): nat {
    if limit <= 0 then 10 else limit
  }

  /** Item `i` is pending and fewer than `limit` pending items come before it. */
  predicate Taken(items: seq<Item>, limit: nat, i: nat)
    requires i < |items|
  {
    items[i].status.Pending? && PendingIn(items[..i]) < limit
  }

  function Started(item: Item, now: Instant): Item {
    item.(status := Processing, claimedAt := Some(now))
  }

  function AfterClaim(items: seq<Item>, limit: nat, now: Instant): seq<Item> {
    seq(|items|, i requires 0 <= i < |items| => if Taken(items, limit, i) then Started(items[i], now) else items[i])
  }

  /** The positions a claim takes among the first `n`, in order. */
  function TakenPositions(items: seq<Item>, limit: nat, n: nat): seq<nat>
    requires n <= |items|
  {
    if n == 0 then []
    else
      var before := TakenPositions(items, limit, n - 1);
      if Taken(items, limit, n - 1) then before + [n - 1] else before
  }

  function ClaimedItems(items: seq<Item>, limit: nat, n: nat, now: Instant): seq<Item>
    requires n <= |items|
  {
    if n == 0 then []
    else
      var before := ClaimedItems(items, limit, n - 1, now);
      if Taken(items, limit, n - 1) then before + [Started(items[n - 1], now)] else before
  }

  function Stamped(r: AnalysisResult, incidentID: string, now: Instant): AnalysisResult {
    r.(incidentID := incidentID, createdAt := if r.createdAt == 0 then now else r.createdAt)
  }

  function Step(q: Queue, op: Op): Queue {
    match op
    case Enqueue(id, version, now) =>
      if FirstActive(q.items, id) < |q.items| then q
      else q.(items := q.items + [Item(id, version, Pending, now, None, None, "")])
    case Claim(limit, now) => q.(items := AfterClaim(q.items, Limit(limit), now))
    case Complete(id, r, now) =>
      var i := FirstActive(q.items, id);
      if i == |q.items| then q
      else Queue(q.items[i := q.items[i].(status := Completed, completedAt := Some(now))],
                 q.results + [Stamped(r, id, now)])
    case Fail(id, reason) =>
      var i := FirstActive(q.items, id);
      if i == |q.items| then q
      else q.(items := q.items[i := q.items[i].(status := Failed, lastError := reason)])
    case Prune(cutoff) =>
      Queue(Filter(q.items, (item: Item) => item.createdAt >= cutoff), Filter(q.results, (r: AnalysisResult) => r.createdAt >= cutoff))
  }

  class FileAIQueue {
    var queue: seq<Item>
    var results: seq<AnalysisResult>

    function State(): Queue
      reads this
    {
      Queue(queue, results)
    }

    constructor ()
      ensures State() == Queue([], [])
    {
      queue, results := [], [];
    }

    method Enqueue(incidentID: string, promptVersion: string, now: Instant)
      modifies this
      ensures State() == Step(old(State()), Op.Enqueue(incidentID, promptVersion, now))
      ensures results == old(results)
      ensures queue != old(queue) ==>
        && queue == old(queue) + [Item(incidentID, promptVersion, Pending, now, None, None, "")]
        && forall j :: 0 <= j < |old(queue)| ==> !Active(old(queue)[j], incidentID)
      ensures exists j :: 0 <= j < |queue| && Active(queue[j], incidentID)
    {
      for i := 0 to |queue|
        invariant forall j :: 0 <= j < i ==> !Active(queue[j], incidentID)
      {
        if queue[i].incidentID == incidentID && (queue[i].status == Pending || queue[i].status == Processing) {
          assert Active(queue[i], incidentID);
          return;
        }
      }
      queue := queue + [Item(incidentID, promptVersion, Pending, now, None, None, "")];
      assert Active(queue[|queue| - 1], incidentID);
    }

    method ClaimPending(limit: int, now: Instant) returns (claimed: seq<Item>)
      modifies this
      ensures State() == Step(old(State()), Claim(limit, now))
      ensures claimed == ClaimedItems(old(queue), Limit(limit), |old(queue)|, now)
      ensures var n, pending := if limit <= 0 then 10 else limit, PendingIn(old(queue));
        |claimed| == if pending < n then pending else n
      ensures results == old(results) && |queue| == |old(queue)|
      ensures forall j :: 0 <= j < |queue| && queue[j] != old(queue)[j] ==>
        && old(queue)[j].status.Pending?
        && queue[j] == old(queue)[j].(status := Processing, claimedAt := Some(now))
        && queue[j] in claimed
    {
      hide Taken, PendingIn, ClaimedItems;
      var limit := if limit <= 0 then 10 else limit;
      claimed := [];
      ghost var before := queue;
      NothingClaimed(before, limit, now);
      var i := 0;
      while i < |queue| && |claimed| < limit
        invariant 0 <= i <= |queue| == |before|
        invariant forall j :: i <= j < |queue| ==> queue[j] == before[j]
        invariant forall j :: 0 <= j < i ==>
          queue[j] == if Taken(before, limit, j) then Started(before[j], now) else before[j]
        invariant claimed == ClaimedItems(before, limit, i, now)
        invariant |claimed| == PendingIn(before[..i]) <= limit
        invariant results == old(results)
      {
        ClaimNext(before, limit, i, now);
        if queue[i].status == Pending {
          queue := queue[i := queue[i].(status := Processing, claimedAt := Some(now))];
          claimed := claimed + [queue[i]];
        }
        i := i + 1;
      }
      NothingMoreTaken(before, limit, i, now);
      assert queue == AfterClaim(before, limit, now);
      TakenPositionsAre(before, limit, |before|, now);
      ClaimsCount(before, limit, |before|);
      assert before[..|before|] == before;
      forall j | 0 <= j < |queue| && queue[j] != before[j]
        ensures before[j].status.Pending? && queue[j] == Started(before[j], now) && queue[j] in claimed
      {
        TakenIsPending(before, limit, j);
        var k :| 0 <= k < |TakenPositions(before, limit, |before|)| && TakenPositions(before, limit, |before|)[k] == j;
        assert claimed[k] == Started(before[j], now);
      }
    }

    method Complete(incidentID: string, result: AnalysisResult, now: Instant) returns (ok: bool)
      modifies this
      ensures State() == Step(old(State()), Op.Complete(incidentID, result, now))
      ensures ok <==> exists j :: 0 <= j < |old(queue)| && Active(old(queue)[j], incidentID)
      ensures !ok ==> queue == old(queue) && results == old(results)
      ensures ok ==> exists j ::
        && 0 <= j < |old(queue)| && Active(old(queue)[j], incidentID)
        && (forall i :: 0 <= i < j ==> !Active(old(queue)[i], incidentID))
        && queue == old(queue)[j := old(queue)[j].(status := Completed, completedAt := Some(now))]
      ensures ok ==>
        results == old(results)
                   + [result.(incidentID := incidentID, createdAt := if result.createdAt == 0 then now else result.createdAt)]
    {
      for i := 0 to |queue|
        invariant queue == old(queue) && results == old(results)
        invariant forall j :: 0 <= j < i ==> !Active(queue[j], incidentID)
      {
        if queue[i].incidentID == incidentID && (queue[i].status == Processing || queue[i].status == Pending) {
          assert Active(old(queue)[i], incidentID);
          queue := queue[i := queue[i].(status := Completed, completedAt := Some(now))];
          var r := result.(incidentID := incidentID);
          if r.createdAt == 0 {
            r := r.(createdAt := now);
          }
          results := results + [r];
          return true;
        }
      }
      return false;
    }

    method Fail(incidentID: string, reason: string) returns (ok: bool)
      modifies this
      ensures State() == Step(old(State()), Op.Fail(incidentID, reason))
      ensures ok <==> exists j :: 0 <= j < |old(queue)| && Active(old(queue)[j], incidentID)
      ensures results == old(results) && (!ok ==> queue == old(queue))
      ensures ok ==> exists j ::
        && 0 <= j < |old(queue)| && Active(old(queue)[j], incidentID)
        && (forall i :: 0 <= i < j ==> !Active(old(queue)[i], incidentID))
        && queue == old(queue)[j := old(queue)[j].(status := Failed, lastError := reason)]
    {
      for i := 0 to |queue|
        invariant queue == old(queue) && results == old(results)
        invariant forall j :: 0 <= j < i ==> !Active(queue[j], incidentID)
      {
        if queue[i].incidentID == incidentID && (queue[i].status == Processing || queue[i].status == Pending) {
          assert Active(old(queue)[i], incidentID);
          queue := queue[i := queue[i].(status := Failed, lastError := reason)];
          return true;
        }
      }
      return false;
    }

    method PruneBefore(cutoff: Instant)
      modifies this
      ensures State() == Step(old(State()), Prune(cutoff))
      ensures forall item :: item in queue <==> item in old(queue) && item.createdAt >= cutoff
      ensures forall r :: r in results <==> r in old(results) && r.createdAt >= cutoff
    {
      var pruned: seq<Item> := [];
      for i := 0 to |queue|
        invariant pruned == Filter(queue[..i], (item: Item) => item.createdAt >= cutoff)
      {
        assert queue[..i + 1][..i] == queue[..i];
        if queue[i].createdAt >= cutoff {
          pruned := pruned + [queue[i]];
        }
      }
      assert queue[..|queue|] == queue;
      var prunedResults: seq<AnalysisResult> := [];
      for i := 0 to |results|
        invariant prunedResults == Filter(results[..i], (r: AnalysisResult) => r.createdAt >= cutoff)
      {
        assert results[..i + 1][..i] == results[..i];
        if results[i].createdAt >= cutoff {
          prunedResults := prunedResults + [results[i]];
        }
      }
      assert results[..|results|] == results;
      forall item {
        FilterMembers(queue, (x: Item) => x.createdAt >= cutoff, item);
      }
      forall r {
        FilterMembers(results, (x: AnalysisResult) => x.createdAt >= cutoff, r);
      }
      queue, results := pruned, prunedResults;
    }
  }

  lemma TakenIsPending(items: seq<Item>, limit: nat, i: nat)
    requires i < |items| && Taken(items, limit, i)
    ensures items[i].status.Pending?
  {
  }

  lemma NothingClaimed(items: seq<Item>, limit: nat, now: Instant)
    ensures ClaimedItems(items, limit, 0, now) == [] && PendingIn(items[..0]) == 0
  {
  }

  lemma ClaimNext(items: seq<Item>, limit: nat, i: nat, now: Instant)
    requires i < |items| && PendingIn(items[..i]) < limit
    ensures Taken(items, limit, i) <==> items[i].status.Pending?
    ensures PendingIn(items[..i + 1]) == PendingIn(items[..i]) + if items[i].status.Pending? then 1 else 0
    ensures ClaimedItems(items, limit, i + 1, now) ==
      if items[i].status.Pending? then ClaimedItems(items, limit, i, now) + [Started(items[i], now)]
      else ClaimedItems(items, limit, i, now)
  {
    assert items[..i + 1][..i] == items[..i];
  }

  lemma {:induction false} PendingGrows(items: seq<Item>, i: nat, j: nat)
    requires i <= j <= |items|
    ensures PendingIn(items[..i]) <= PendingIn(items[..j])
    decreases j
  {
    if i < j {
      PendingGrows(items, i, j - 1);
      assert items[..j][..j - 1] == items[..j - 1];
    }
  }

  lemma {:induction false} NothingMoreTaken(items: seq<Item>, limit: nat, i: nat, now: Instant)
    requires i <= |items| && (i == |items| || PendingIn(items[..i]) >= limit)
    ensures forall j :: i <= j < |items| ==> !Taken(items, limit, j)
    ensures ClaimedItems(items, limit, |items|, now) == ClaimedItems(items, limit, i, now)
    decreases |items| - i
  {
    forall j | i <= j < |items|
      ensures !Taken(items, limit, j)
    {
      PendingGrows(items, i, j);
    }
    NothingAfter(items, limit, i, |items|, now);
  }

  lemma {:induction false} NothingAfter(items: seq<Item>, limit: nat, i: nat, n: nat, now: Instant)
    requires i <= n <= |items| && forall j :: i <= j < n ==> !Taken(items, limit, j)
    ensures ClaimedItems(items, limit, n, now) == ClaimedItems(items, limit, i, now)
  {
    if i < n {
      NothingAfter(items, limit, i, n - 1, now);
    }
  }

  // ----- What a claim returns

  lemma {:induction false} TakenPositionsAre(items: seq<Item>, limit: nat, n: nat, now: Instant)
    requires n <= |items|
    ensures var ps, claimed := TakenPositions(items, limit, n), ClaimedItems(items, limit, n, now);
      && |ps| == |claimed|
      && (forall k :: 0 <= k < |ps| ==>
            ps[k] < n && Taken(items, limit, ps[k]) && claimed[k] == Started(items[ps[k]], now))
      && (forall k, l :: 0 <= k < l < |ps| ==> ps[k] < ps[l])
      && (forall i :: 0 <= i < n && Taken(items, limit, i) ==> i in ps)
  {
    hide Taken, Started;
    if n > 0 {
      TakenPositionsAre(items, limit, n - 1, now);
    }
  }

  lemma {:induction false} ClaimsCount(items: seq<Item>, limit: nat, n: nat)
    requires n <= |items|
    ensures |TakenPositions(items, limit, n)| == if PendingIn(items[..n]) < limit then PendingIn(items[..n]) else limit
  {
    if n > 0 {
      ClaimsCount(items, limit, n - 1);
      assert items[..n][..n - 1] == items[..n - 1];
    } else {
      assert items[..0] == [];
    }
  }

  /** A claim takes the first min(limit, pending) pending items, in order. */
  lemma ClaimTakesFirstPending(items: seq<Item>, limit: nat, now: Instant)
    ensures var n := |items|;
      var ps, claimed := TakenPositions(items, limit, n), ClaimedItems(items, limit, n, now);
      && |ps| == |claimed| == (if PendingIn(items) < limit then PendingIn(items) else limit)
      && (forall k :: 0 <= k < |ps| ==>
            ps[k] < n && items[ps[k]].status.Pending? && claimed[k] == Started(items[ps[k]], now))
      && (forall k, l :: 0 <= k < l < |ps| ==> ps[k] < ps[l])
      && (forall i :: 0 <= i < n && items[i].status.Pending? && i !in ps ==> forall p :: p in ps ==> p < i)
  {
    var n := |items|;
    assert items[..n] == items;
    ClaimsCount(items, limit, n);
    TakenPositionsAre(items, limit, n, now);
    hide TakenPositions, ClaimedItems, Started;
    var ps := TakenPositions(items, limit, n);
    forall i, p | 0 <= i < n && items[i].status.Pending? && i !in ps && p in ps
      ensures p < i
    {
      if i <= p {
        PendingGrows(items, i, p);
      }
    }
  }

  // ----- At most one active item per incident

  function ActiveFor(id: string): Item -> nat {
    item => if Active(item, id) then 1 else 0
  }

  ghost predicate OneActive(items: seq<Item>) {
    forall id :: Sum(items, ActiveFor(id)) <= 1
  }

  lemma OneActiveMeansUnique(items: seq<Item>, i: nat, j: nat, id: string)
    requires OneActive(items) && i < |items| && j < |items| && Active(items[i], id) && Active(items[j], id)
    ensures i == j
  {
    if i < j {
      SumOfTwo(items, i, j, ActiveFor(id));
    } else if j < i {
      SumOfTwo(items, j, i, ActiveFor(id));
    }
  }

  lemma StepKeepsOneActive(q: Queue, op: Op)
    requires OneActive(q.items)
    ensures OneActive(Step(q, op).items)
  {
    var q' := Step(q, op);
    forall id
      ensures Sum(q'.items, ActiveFor(id)) <= 1
    {
      StepActive(q, op, id);
    }
  }

  lemma StepActive(q: Queue, op: Op, id: string)
    ensures Sum(Step(q, op).items, ActiveFor(id)) <=
      if op.Enqueue? && op.incidentID == id && FirstActive(q.items, id) == |q.items| then 1
      else Sum(q.items, ActiveFor(id))
  {
    hide Sum, PendingIn;
    var f := ActiveFor(id);
    match op
    case Enqueue(i, version, now) =>
      var item := Item(i, version, Pending, now, None, None, "");
      SumSnoc(q.items, item, f);
      SumZero(q.items, f);
    case Claim(limit, now) =>
      SumPointwise(q.items, AfterClaim(q.items, Limit(limit), now), f);
    case Complete(i, r, now) =>
      var k := FirstActive(q.items, i);
      if k < |q.items| {
        SumUpdate(q.items, k, q.items[k].(status := Completed, completedAt := Some(now)), f);
      }
    case Fail(i, reason) =>
      var k := FirstActive(q.items, i);
      if k < |q.items| {
        SumUpdate(q.items, k, q.items[k].(status := Failed, lastError := reason), f);
      }
    case Prune(cutoff) =>
      FilterSum(q.items, (item: Item) => item.createdAt >= cutoff, f);
  }

  function After(ops: seq<Op>): Queue {
    if ops == [] then Queue([], []) else Step(After(ops[..|ops| - 1]), ops[|ops| - 1])
  }

  /** In every run of queue operations, pruning included. */
  lemma {:induction false} RunsKeepOneActive(ops: seq<Op>)
    ensures OneActive(After(ops).items)
  {
    if ops != [] {
      hide Step, OneActive;
      RunsKeepOneActive(ops[..|ops| - 1]);
      StepKeepsOneActive(After(ops[..|ops| - 1]), ops[|ops| - 1]);
    } else {
      assert forall id :: Sum(After(ops).items, ActiveFor(id)) == 0;
    }
  }

  // ----- At most one result per item

  function CompletedFor(id: string): Item -> nat {
    (item: Item) => if item.incidentID == id && item.status.Completed? then 1 else 0
  }

  function ResultFor(id: string): AnalysisResult -> nat {
    (r: AnalysisResult) => if r.incidentID == id then 1 else 0
  }

  /** As long as nothing is pruned, an incident has one result for each completed item. */
  ghost predicate ResultsMatch(q: Queue) {
    forall id :: Sum(q.results, ResultFor(id)) == Sum(q.items, CompletedFor(id))
  }

  lemma StepKeepsResultsMatch(q: Queue, op: Op)
    requires ResultsMatch(q) && !op.Prune?
    ensures ResultsMatch(Step(q, op))
  {
    var q' := Step(q, op);
    forall id
      ensures Sum(q'.results, ResultFor(id)) == Sum(q'.items, CompletedFor(id))
    {
      StepResults(q, op, id);
    }
  }

  lemma StepResults(q: Queue, op: Op, id: string)
    requires !op.Prune?
    ensures Sum(Step(q, op).results, ResultFor(id)) - Sum(q.results, ResultFor(id)) ==
            Sum(Step(q, op).items, CompletedFor(id)) - Sum(q.items, CompletedFor(id))
  {
    hide Sum, PendingIn;
    var f, g := CompletedFor(id), ResultFor(id);
    match op
    case Enqueue(i, version, now) =>
      SumSnoc(q.items, Item(i, version, Pending, now, None, None, ""), f);
    case Claim(limit, now) =>
      SumPointwise(q.items, AfterClaim(q.items, Limit(limit), now), f);
    case Complete(i, r, now) =>
      var k := FirstActive(q.items, i);
      if k < |q.items| {
        SumUpdate(q.items, k, q.items[k].(status := Completed, completedAt := Some(now)), f);
        SumSnoc(q.results, Stamped(r, i, now), g);
      }
    case Fail(i, reason) =>
      var k := FirstActive(q.items, i);
      if k < |q.items| {
        SumUpdate(q.items, k, q.items[k].(status := Failed, lastError := reason), f);
      }
  }

  // ----- Items only move forward

  function Rank(s: Status): nat {
    match s case Pending => 0 case Processing => 1 case Completed => 2 case Failed => 2
  }

  predicate Terminal(item: Item) {
    item.status.Completed? || item.status.Failed?
  }

  /** Without pruning, items keep their place and incident, statuses only move forward, and a
      completed or failed item is final. */
  lemma ItemsMoveForward(q: Queue, op: Op, i: nat)
    requires !op.Prune? && i < |q.items|
    ensures var items' := Step(q, op).items;
      && i < |items'| && items'[i].incidentID == q.items[i].incidentID
      && Rank(q.items[i].status) <= Rank(items'[i].status)
      && (Terminal(q.items[i]) ==> items'[i] == q.items[i])
  {
  }

  /** Completing or failing an incident settles its item, whichever it is. */
  lemma CallSettles(q: Queue, op: Op, i: nat)
    requires OneActive(q.items) && i < |q.items| && !q.items[i].status.Pending?
    requires (op.Complete? || op.Fail?) && op.incidentID == q.items[i].incidentID
    ensures i < |Step(q, op).items| && Terminal(Step(q, op).items[i])
  {
    if q.items[i].status.Processing? {
      OneActiveMeansUnique(q.items, i, FirstActive(q.items, op.incidentID), op.incidentID);
    }
  }

  // ----- Analysing one item

  /** What a provider returns for one attempt. */
  datatype Answer = Answered(text: string) | Refused(error: string)

  /** The first attempt of the first `n` that is answered, `n` if none is. */
  function FirstAnswered(answers: nat -> Answer, n: nat): (k: nat)
    ensures k <= n && (k < n ==> answers(k).Answered?) && forall j :: 0 <= j < k ==> answers(j).Refused?
  {
    if n == 0 then 0
    else
      var k := FirstAnswered(answers, n - 1);
      if k < n - 1 then k else if answers(n - 1).Answered? then n - 1 else n
  }

  /** The one call an analysis makes to the queue: the first answer of up to RetryCount + 1
      attempts, parsed, completes the item, anything else fails it. */
  function CallOf(id: string, providerError: Option<string>, promptError: Option<string>,
                  answers: nat -> Answer, parse: string -> Analysis, retryCount: nat, now: Instant): Op {
    if providerError.Some? then Fail(id, "no provider: " + providerError.value)
    else if promptError.Some? then Fail(id, "build prompt: " + promptError.value)
    else
      var k := FirstAnswered(answers, retryCount + 1);
      if k <= retryCount then Complete(id, AnalysisResult(id, parse(answers(k).text), now), now)
      else Fail(id, "all " + Decimal(retryCount + 1) + " attempts failed: " + answers(retryCount).error)
  }

  /** The call completes the item exactly if there is a provider and a prompt and some attempt up
      to the last retry is answered, with what the first answer says; otherwise it fails it. */
  lemma CallMeans(id: string, providerError: Option<string>, promptError: Option<string>,
                  answers: nat -> Answer, parse: string -> Analysis, retryCount: nat, now: Instant)
    ensures var op := CallOf(id, providerError, promptError, answers, parse, retryCount, now);
      && (op.Complete? || op.Fail?) && op.incidentID == id
      && (op.Complete? <==>
            providerError.None? && promptError.None? && exists k :: 0 <= k <= retryCount && answers(k).Answered?)
      && (op.Complete? ==> exists k: nat ::
            && k <= retryCount && answers(k).Answered?
            && (forall j :: 0 <= j < k ==> answers(j).Refused?)
            && op.result == AnalysisResult(id, parse(answers(k).text), now) && op.now == now)
    ensures CallOf(id, providerError, promptError, answers, parse, retryCount, now).Fail? ==>
      CallOf(id, providerError, promptError, answers, parse, retryCount, now).reason ==
        if providerError.Some? then "no provider: " + providerError.value
        else if promptError.Some? then "build prompt: " + promptError.value
        else "all " + Decimal(retryCount + 1) + " attempts failed: "
             + match answers(retryCount) case Refused(error) => error case Answered(_) => ""
  {
    var k := FirstAnswered(answers, retryCount + 1);
    hide FirstAnswered, Decimal;
  }

  class AIService {
    const aiQueue: FileAIQueue

    constructor (aiQueue: FileAIQueue)
      ensures this.aiQueue == aiQueue
    {
      this.aiQueue := aiQueue;
    }

    method AnalyzeItem(item: Item, providerError: Option<string>, promptError: Option<string>,
                       answers: nat -> Answer, parse: string -> Analysis, retryCount: nat, now: Instant)
        returns (attempts: nat)
      modifies aiQueue
      ensures aiQueue.State() ==
        Step(old(aiQueue.State()), CallOf(item.incidentID, providerError, promptError, answers, parse, retryCount, now))
      ensures attempts <= retryCount + 1
      ensures providerError.Some? || promptError.Some? ==> attempts == 0
      ensures providerError.None? && promptError.None? ==>
        attempts == retryCount + 1 || (attempts > 0 && answers(attempts - 1).Answered?)
      ensures forall j :: 0 <= j < attempts - 1 ==> answers(j).Refused?
    {
      attempts := 0;
      if providerError.Some? {
        var _ := aiQueue.Fail(item.incidentID, "no provider: " + providerError.value);
        return;
      }
      if promptError.Some? {
        var _ := aiQueue.Fail(item.incidentID, "build prompt: " + promptError.value);
        return;
      }
      var responseText := "";
      var lastErr: Option<string> := None;
      var maxAttempts := retryCount + 1;
      while attempts < maxAttempts
        invariant attempts <= maxAttempts
        invariant forall j :: 0 <= j < attempts ==> answers(j).Refused?
        invariant attempts > 0 ==> lastErr == Some(answers(attempts - 1).error)
      {
        var answer := answers(attempts);
        attempts := attempts + 1;
        if answer.Answered? {
          responseText, lastErr := answer.text, None;
          break;
        }
        lastErr := Some(answer.error);
      }
      if lastErr.Some? {
        var _ := aiQueue.Fail(item.incidentID, "all " + Decimal(maxAttempts) + " attempts failed: " + lastErr.value);
        return;
      }
      var result := AnalysisResult(item.incidentID, parse(responseText), now);
      var _ := aiQueue.Complete(item.incidentID, result, now);
    }
  }

  // ----- Workers beside manual analyses, every step interleaved

  /** An analysing goroutine: it makes its call to the queue, frees the semaphore, and
      reports to the wait group. */
  datatype Stage = Waiting | Analysing | Called | Released | Finished

  /** One processQueue call after its claim. */
  datatype Worker = Worker(max: nat, positions: seq<nat>, items: seq<Item>, stages: seq<Stage>, returned: bool)

  datatype World = World(q: Queue, workers: seq<Worker>)

  function Claimed(q: Queue, max: nat, now: Instant): Worker {
    var n := |q.items|;
    Worker(max, TakenPositions(q.items, Limit(max), n), ClaimedItems(q.items, Limit(max), n, now),
           seq(|TakenPositions(q.items, Limit(max), n)|, i => Waiting), false)
  }

  /** How many goroutines hold the semaphore. */
  function Holds(s: Stage): nat {
    if s.Analysing? || s.Called? then 1 else 0
  }

  predicate Calls(op: Op, item: Item) {
    (op.Complete? || op.Fail?) && op.incidentID == item.incidentID
  }

  /** Goroutine `i` of a worker goes from one stage to the next. */
  predicate Advances(v: Worker, i: nat, from: Stage, to: Stage, v': Worker) {
    i < |v.stages| && !v.returned && v.stages[i] == from && v' == v.(stages := v.stages[i := to])
  }

  ghost predicate WorkerStep(q: Queue, v: Worker, q': Queue, v': Worker) {
    || (exists i: nat :: q' == q && Advances(v, i, Waiting, Analysing, v') && Sum(v.stages, Holds) < v.max
                         && forall j :: 0 <= j < i ==> v.stages[j] != Waiting)
    || (exists i: nat, op: Op :: Advances(v, i, Analysing, Called, v') && i < |v.items| && Calls(op, v.items[i])
                             && q' == Step(q, op))
    || (exists i: nat :: q' == q && Advances(v, i, Called, Released, v'))
    || (exists i: nat :: q' == q && Advances(v, i, Released, Finished, v'))
    || (q' == q && !v.returned && (forall s :: s in v.stages ==> s == Finished) && v' == v.(returned := true))
  }

  ghost predicate WorldStep(w: World, w': World) {
    || (exists op: Op :: (op.Enqueue? || op.Complete? || op.Fail?) && w' == w.(q := Step(w.q, op)))
    || (exists max: nat, now :: max >= 1
          && w' == World(Step(w.q, Claim(max, now)), w.workers + [Claimed(w.q, max, now)]))
    || (exists k: nat, v' :: k < |w.workers| && WorkerStep(w.q, w.workers[k], w'.q, v')
          && w'.workers == w.workers[k := v'])
  }

  ghost predicate Run(ws: seq<World>) {
    && |ws| > 0
    && ws[0] == World(Queue([], []), [])
    && forall i :: 0 <= i < |ws| - 1 ==> WorldStep(ws[i], ws[i + 1])
  }

  /** Every claimed position still holds the claimed incident and is no longer pending; once
      the goroutine has made its call, the item is settled. */
  ghost predicate WorkerOK(q: Queue, v: Worker) {
    && |v.positions| == |v.items| == |v.stages| <= v.max
    && (forall i :: 0 <= i < |v.positions| ==>
          && v.positions[i] < |q.items|
          && q.items[v.positions[i]].incidentID == v.items[i].incidentID
          && !q.items[v.positions[i]].status.Pending?
          && (v.stages[i].Called? || v.stages[i].Released? || v.stages[i].Finished? ==>
                Terminal(q.items[v.positions[i]])))
    && (forall i, j :: 0 <= i < j < |v.positions| ==> v.positions[i] < v.positions[j])
    && (v.returned ==> forall s :: s in v.stages ==> s == Finished)
  }

  ghost predicate Disjoint(v: Worker, u: Worker) {
    forall p :: p in v.positions ==> p !in u.positions
  }

  ghost predicate Inv(w: World) {
    && OneActive(w.q.items)
    && ResultsMatch(w.q)
    && (forall k :: 0 <= k < |w.workers| ==> WorkerOK(w.q, w.workers[k]))
    && (forall k, l :: 0 <= k < l < |w.workers| ==> Disjoint(w.workers[k], w.workers[l]))
  }

  lemma EffectKeepsWorker(q: Queue, op: Op, v: Worker)
    requires WorkerOK(q, v) && !op.Prune?
    ensures WorkerOK(Step(q, op), v)
  {
    hide Step;
    forall i | 0 <= i < |v.positions|
      ensures var q', p := Step(q, op), v.positions[i];
        && p < |q'.items| && q'.items[p].incidentID == v.items[i].incidentID && !q'.items[p].status.Pending?
        && (Terminal(q.items[p]) ==> Terminal(q'.items[p]))
    {
      ItemsMoveForward(q, op, v.positions[i]);
    }
  }

  /** An effect on the queue keeps everything but what a new claim has to establish. */
  lemma EffectKeepsInv(w: World, op: Op)
    requires Inv(w) && !op.Prune?
    ensures Inv(w.(q := Step(w.q, op)))
  {
    hide Step, WorkerOK, OneActive, ResultsMatch;
    StepKeepsOneActive(w.q, op);
    StepKeepsResultsMatch(w.q, op);
    forall k | 0 <= k < |w.workers|
      ensures WorkerOK(Step(w.q, op), w.workers[k])
    {
      EffectKeepsWorker(w.q, op, w.workers[k]);
    }
  }

  lemma ClaimedIsOK(q: Queue, max: nat, now: Instant)
    requires max >= 1
    ensures WorkerOK(Step(q, Claim(max, now)), Claimed(q, max, now))
    ensures forall p :: p in Claimed(q, max, now).positions ==> p < |q.items| && q.items[p].status.Pending?
  {
    var n := |q.items|;
    var v := Claimed(q, max, now);
    ClaimTakesFirstPending(q.items, max, now);
    TakenPositionsAre(q.items, max, n, now);
    hide Taken, PendingIn, TakenPositions, ClaimedItems;
    forall i | 0 <= i < |v.positions|
      ensures var p := v.positions[i];
        p < n && Step(q, Claim(max, now)).items[p] == Started(q.items[p], now) && v.items[i] == Started(q.items[p], now)
    {
      assert v.positions[i] in v.positions;
    }
  }

  lemma ClaimKeepsInv(w: World, max: nat, now: Instant)
    requires Inv(w) && max >= 1
    ensures Inv(World(Step(w.q, Claim(max, now)), w.workers + [Claimed(w.q, max, now)]))
  {
    EffectKeepsInv(w, Claim(max, now));
    ClaimedIsOK(w.q, max, now);
    hide Step, Claimed, OneActive, ResultsMatch;
    var u := Claimed(w.q, max, now);
    forall k | 0 <= k < |w.workers|
      ensures Disjoint(w.workers[k], u)
    {
      assert WorkerOK(w.q, w.workers[k]);
    }
    hide WorkerOK, Disjoint;
  }

  lemma AdvanceKeepsWorker(q: Queue, v: Worker, i: nat, from: Stage, to: Stage, v': Worker)
    requires WorkerOK(q, v) && Advances(v, i, from, to, v')
    requires from.Waiting? || from.Analysing? ==> to.Analysing? || Terminal(q.items[v.positions[i]])
    ensures WorkerOK(q, v')
  {
    hide Terminal;
    assert v.stages[i] in v.stages;
  }

  lemma WorkerStepKeepsWorker(q: Queue, v: Worker, q': Queue, v': Worker)
    requires OneActive(q.items) && WorkerOK(q, v) && WorkerStep(q, v, q', v')
    ensures WorkerOK(q', v') && v'.positions == v.positions
    ensures q' == q || exists op: Op :: !op.Prune? && q' == Step(q, op)
  {
    if i: nat, op: Op :| Advances(v, i, Analysing, Called, v') && i < |v.items| && Calls(op, v.items[i])
                         && q' == Step(q, op) {
      hide Step, OneActive, Terminal, WorkerStep;
      EffectKeepsWorker(q, op, v);
      CallSettles(q, op, v.positions[i]);
      AdvanceKeepsWorker(q', v, i, Analysing, Called, v');
    } else if i: nat, from, to :| q' == q && Advances(v, i, from, to, v') && (from.Waiting? || from.Analysing? ==> to.Analysing?) {
      hide Step, OneActive, Terminal, WorkerStep, WorkerOK;
      AdvanceKeepsWorker(q, v, i, from, to, v');
    } else {
      hide Step, OneActive, Terminal, Sum;
    }
  }

  lemma WorkerStepKeepsInv(w: World, k: nat, v': Worker, w': World)
    requires Inv(w) && k < |w.workers| && WorkerStep(w.q, w.workers[k], w'.q, v') && w'.workers == w.workers[k := v']
    ensures Inv(w')
  {
    hide Step, OneActive, ResultsMatch, WorkerOK, WorkerStep;
    WorkerStepKeepsWorker(w.q, w.workers[k], w'.q, v');
    if w'.q != w.q {
      var op: Op :| !op.Prune? && w'.q == Step(w.q, op);
      EffectKeepsInv(w, op);
    }
  }

  lemma {:induction false} RunKeepsInv(ws: seq<World>, i: nat)
    requires Run(ws) && i < |ws|
    ensures Inv(ws[i])
  {
    if i == 0 {
      assert OneActive(ws[0].q.items) && ResultsMatch(ws[0].q);
    } else {
      hide Step, Inv, Claimed, WorkerStep;
      RunKeepsInv(ws, i - 1);
      var w, w' := ws[i - 1], ws[i - 1 + 1];
      assert WorldStep(w, w');
      if op: Op :| (op.Enqueue? || op.Complete? || op.Fail?) && w' == w.(q := Step(w.q, op)) {
        EffectKeepsInv(w, op);
      } else if max: nat, now :| max >= 1 && w' == World(Step(w.q, Claim(max, now)), w.workers + [Claimed(w.q, max, now)]) {
        ClaimKeepsInv(w, max, now);
      } else {
        var k: nat, v' :| k < |w.workers| && WorkerStep(w.q, w.workers[k], w'.q, v') && w'.workers == w.workers[k := v'];
        WorkerStepKeepsInv(w, k, v', w');
      }
    }
  }

  // ----- Main results

  /** Under every interleaving of workers, manual analyses and enqueues: an incident has at
      most one item pending or processing, and exactly one result per completed item. */
  lemma QueueStaysConsistent(ws: seq<World>, i: nat, id: string, a: nat, b: nat)
    requires Run(ws) && i < |ws|
    ensures var q := ws[i].q;
      && Sum(q.results, ResultFor(id)) == Sum(q.items, CompletedFor(id))
      && (a < |q.items| && b < |q.items| && Active(q.items[a], id) && Active(q.items[b], id) ==> a == b)
  {
    RunKeepsInv(ws, i);
    var q := ws[i].q;
    if a < |q.items| && b < |q.items| && Active(q.items[a], id) && Active(q.items[b], id) {
      OneActiveMeansUnique(q.items, a, b, id);
    }
  }

  /** No item is claimed twice, by one claim or by two. */
  lemma ClaimedOnce(ws: seq<World>, n: nat, k: nat, i: nat, l: nat, j: nat)
    requires Run(ws) && n < |ws|
    requires k < |ws[n].workers| && i < |ws[n].workers[k].positions|
    requires l < |ws[n].workers| && j < |ws[n].workers[l].positions|
    requires ws[n].workers[k].positions[i] == ws[n].workers[l].positions[j]
    ensures k == l && i == j
  {
    RunKeepsInv(ws, n);
    hide OneActive, ResultsMatch;
    var v, u := ws[n].workers[k], ws[n].workers[l];
    assert WorkerOK(ws[n].q, v);
    assert v.positions[i] in v.positions && u.positions[j] in u.positions;
    assert k < l ==> Disjoint(v, u);
    assert l < k ==> Disjoint(u, v);
  }

  /** When processQueue has returned, every item it claimed is completed or failed, for good. */
  lemma ReturnedMeansSettled(ws: seq<World>, n: nat, k: nat, i: nat)
    requires Run(ws) && n < |ws| && k < |ws[n].workers| && ws[n].workers[k].returned
    requires i < |ws[n].workers[k].positions|
    ensures var p := ws[n].workers[k].positions[i];
      p < |ws[n].q.items| && Terminal(ws[n].q.items[p])
  {
    RunKeepsInv(ws, n);
    hide OneActive, ResultsMatch;
    var v := ws[n].workers[k];
    assert WorkerOK(ws[n].q, v);
    assert v.stages[i] in v.stages;
  }

  function Remaining(s: Stage): nat {
    match s case Waiting => 4 case Analysing => 3 case Called => 2 case Released => 1 case Finished => 0
  }

  function Left(v: Worker): nat {
    Sum(v.stages, Remaining) + if v.returned then 0 else 1
  }

  /** A processQueue call takes finitely many steps, at most four for each claimed item and
      one to return. */
  lemma WorkersProgress(q: Queue, v: Worker, q': Queue, v': Worker)
    requires WorkerStep(q, v, q', v')
    ensures Left(v') + 1 == Left(v)
  {
    hide Step, Holds;
    if i: nat, from, to :| Advances(v, i, from, to, v') && Remaining(from) == Remaining(to) + 1 {
      SumUpdate(v.stages, i, to, Remaining);
    }
  }

  lemma {:induction false} WaitersHoldNothing(stages: seq<Stage>)
    ensures Sum(stages, Holds) <= |stages|
    ensures (exists s :: s in stages && s == Waiting) ==> Sum(stages, Holds) < |stages|
  {
    if stages != [] {
      var last := |stages| - 1;
      WaitersHoldNothing(stages[..last]);
      assert stages == stages[..last] + [stages[last]];
    }
  }

  lemma FirstWaiting(stages: seq<Stage>) returns (i: nat)
    requires Waiting in stages
    ensures i < |stages| && stages[i] == Waiting && forall j :: 0 <= j < i ==> stages[j] != Waiting
  {
    i := 0;
    while stages[i] != Waiting
      invariant i < |stages| && Waiting in stages[i..]
      invariant forall j :: 0 <= j < i ==> stages[j] != Waiting
      decreases |stages| - i
    {
      assert stages[i..] == [stages[i]] + stages[i + 1..];
      i := i + 1;
    }
  }

  /** The semaphore never blocks the producer, and a processQueue call that has not returned
      can always take a step. */
  lemma WorkersNeverStuck(ws: seq<World>, n: nat, k: nat) returns (q': Queue, v': Worker)
    requires Run(ws) && n < |ws| && k < |ws[n].workers| && !ws[n].workers[k].returned
    ensures var v := ws[n].workers[k];
      && WorkerStep(ws[n].q, v, q', v')
      && (Waiting in v.stages ==> Sum(v.stages, Holds) < v.max)
  {
    RunKeepsInv(ws, n);
    hide OneActive, ResultsMatch, Step, Terminal;
    var q, v := ws[n].q, ws[n].workers[k];
    assert WorkerOK(q, v);
    WaitersHoldNothing(v.stages);
    hide WorkerOK, Inv, Run;
    q' := q;
    if Waiting in v.stages {
      var i := FirstWaiting(v.stages);
      v' := v.(stages := v.stages[i := Analysing]);
      assert Advances(v, i, Waiting, Analysing, v');
    } else if i: nat :| i < |v.stages| && v.stages[i] == Analysing {
      var op := Fail(v.items[i].incidentID, "");
      q', v' := Step(q, op), v.(stages := v.stages[i := Called]);
      assert Advances(v, i, Analysing, Called, v') && Calls(op, v.items[i]);
    } else if i: nat :| i < |v.stages| && v.stages[i] == Called {
      v' := v.(stages := v.stages[i := Released]);
      assert Advances(v, i, Called, Released, v');
    } else if i: nat :| i < |v.stages| && v.stages[i] == Released {
      v' := v.(stages := v.stages[i := Finished]);
      assert Advances(v, i, Released, Finished, v');
    } else {
      v' := v.(returned := true);
    }
  }
}
