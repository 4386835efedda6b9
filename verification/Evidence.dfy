/** Evidence for incident briefs: collection, the cap on what is kept, and the ledger that
    may only cite what was kept. */
module Evidence {
  import opened Civil
  import opened Options
  import opened Sequences
  import opened AlertMessages

  datatype Event = Event(id: string, timestamp: Instant, severity: string, message: string)

  predicate Important(e: Event) {
    e.severity == "critical" || e.severity == "warning"
  }

  predicate Informational(e: Event) {
    !Important(e)
  }

  predicate ByTime(s: seq<Event>) {
    forall i, j :: 0 <= i < j < |s| ==> s[i].timestamp <= s[j].timestamp
  }

  ghost predicate Permutes(s: seq<Event>, t: seq<Event>) {
    multiset(s) == multiset(t)
  }

  // ----- Sorting by time; nothing is promised for equal timestamps

  function InsertByTime(x: Event, s: seq<Event>): seq<Event> {
    if s == [] || s[|s| - 1].timestamp <= x.timestamp then s + [x]
    else InsertByTime(x, s[..|s| - 1]) + [s[|s| - 1]]
  }

  lemma {:induction false} InsertPermutes(x: Event, s: seq<Event>)
    ensures multiset(InsertByTime(x, s)) == multiset(s) + multiset{x} && |InsertByTime(x, s)| == |s| + 1
  {
    if s != [] && s[|s| - 1].timestamp > x.timestamp {
      InsertPermutes(x, s[..|s| - 1]);
      assert s == s[..|s| - 1] + [s[|s| - 1]];
    }
  }

  predicate NoneAfter(s: seq<Event>, bound: Instant) {
    forall i :: 0 <= i < |s| ==> s[i].timestamp <= bound
  }

  lemma ByTimeSnoc(s: seq<Event>, e: Event)
    requires ByTime(s) && NoneAfter(s, e.timestamp)
    ensures ByTime(s + [e])
  {
  }

  lemma {:induction false} InsertKeepsOrder(x: Event, s: seq<Event>, bound: Instant)
    requires ByTime(s) && NoneAfter(s, bound) && x.timestamp <= bound
    ensures ByTime(InsertByTime(x, s)) && NoneAfter(InsertByTime(x, s), bound)
  {
    if s == [] || s[|s| - 1].timestamp <= x.timestamp {
      ByTimeSnoc(s, x);
    } else {
      var front, last := s[..|s| - 1], s[|s| - 1];
      InsertKeepsOrder(x, front, last.timestamp);
      ByTimeSnoc(InsertByTime(x, front), last);
    }
  }

  method SortByTime(events: seq<Event>) returns (r: seq<Event>)
    ensures ByTime(r) && Permutes(r, events)
  {
    r := [];
    for i := 0 to |events|
      invariant ByTime(r) && multiset(r) == multiset(events[..i]) && |r| == i
    {
      InsertKeepsOrder(events[i], r,
                       if r == [] || r[i - 1].timestamp < events[i].timestamp then events[i].timestamp
                       else r[i - 1].timestamp);
      InsertPermutes(events[i], r);
      assert events[..i + 1] == events[..i] + [events[i]];
      r := InsertByTime(events[i], r);
    }
    assert events[..|events|] == events;
  }

  // ----- The cap

  /** What capEvents may return, given the important and the informational events: the order
      of events with equal timestamps is open. */
  ghost predicate Outcome(important: seq<Event>, info: seq<Event>, cap: nat, r: seq<Event>) {
    if |important| >= cap then r == important[..cap]
    else
      var free := cap - |important|;
      ByTime(r) && Permutes(r, important + info[if free > |info| then 0 else |info| - free..])
  }

  ghost predicate CapOutcome(events: seq<Event>, cap: nat, r: seq<Event>) {
    Outcome(Filter(events, Important), Filter(events, Informational), cap, r)
  }

  method CapEvents(events: seq<Event>, cap: nat) returns (r: seq<Event>)
    requires cap > 0
    ensures CapOutcome(events, cap, r)
  {
    var important: seq<Event>, info: seq<Event> := [], [];
    for i := 0 to |events|
      invariant important == Filter(events[..i], Important) && info == Filter(events[..i], Informational)
    {
      assert events[..i + 1][..i] == events[..i];
      if events[i].severity == "critical" || events[i].severity == "warning" {
        important := important + [events[i]];
      } else {
        info := info + [events[i]];
      }
    }
    assert events[..|events|] == events;
    if |important| >= cap {
      return important[..cap];
    }
    var remaining := cap - |important|;
    if remaining > |info| {
      remaining := |info|;
    }
    var recentInfo := info[|info| - remaining..];
    r := SortByTime(important + recentInfo);
  }

  lemma {:induction false} FilterSplits(events: seq<Event>)
    ensures multiset(Filter(events, Important)) + multiset(Filter(events, Informational)) == multiset(events)
    ensures |Filter(events, Important)| + |Filter(events, Informational)| == |events|
  {
    if events != [] {
      var last := |events| - 1;
      FilterSplits(events[..last]);
      assert events == events[..last] + [events[last]];
    }
  }

  lemma {:induction false} FilterKeepsOrder(events: seq<Event>, p: Event -> bool, bound: Instant)
    requires ByTime(events) && NoneAfter(events, bound)
    ensures ByTime(Filter(events, p)) && NoneAfter(Filter(events, p), bound)
  {
    if events != [] {
      var front, last := events[..|events| - 1], events[|events| - 1];
      FilterKeepsOrder(front, p, last.timestamp);
      ByTimeSnoc(Filter(front, p), last);
    }
  }

  lemma PermutesLength(s: seq<Event>, t: seq<Event>)
    requires Permutes(s, t)
    ensures |s| == |t|
  {
    assert |multiset(s)| == |s| && |multiset(t)| == |t|;
  }

  lemma SplitAt(s: seq<Event>, k: nat)
    requires k <= |s|
    ensures multiset(s[..k]) + multiset(s[k..]) == multiset(s)
    ensures ByTime(s) ==> ByTime(s[..k])
    ensures ByTime(s) ==> forall x, y :: x in s[..k] && y in s[k..] ==> x.timestamp <= y.timestamp
  {
    assert s == s[..k] + s[k..];
  }

  /** What is kept, given the important and informational events in time order. */
  ghost predicate KeepsWhatMatters(important: seq<Event>, info: seq<Event>, cap: nat, r: seq<Event>) {
    if |important| <= cap
    then var k := |info| - (cap - |important|);
         && 0 <= k <= |info|
         && multiset(r) == multiset(important) + multiset(info[k..])
         && forall x, y :: x in info[..k] && y in info[k..] ==> x.timestamp <= y.timestamp
    else r == important[..cap]
  }

  lemma CapMixed(important: seq<Event>, info: seq<Event>, cap: nat, r: seq<Event>, k: nat)
    requires ByTime(info) && |important| < cap && k == |info| - (cap - |important|)
    requires k <= |info| && Permutes(r, important + info[k..])
    ensures |r| == cap && multiset(r) <= multiset(important) + multiset(info)
    ensures KeepsWhatMatters(important, info, cap, r)
  {
    SplitAt(info, k);
    PermutesLength(r, important + info[k..]);
  }

  lemma CapFull(important: seq<Event>, info: seq<Event>, cap: nat)
    requires ByTime(important) && |important| >= cap
    ensures multiset(important[..cap]) <= multiset(important) + multiset(info)
    ensures ByTime(important[..cap]) && KeepsWhatMatters(important, info, cap, important[..cap])
  {
    SplitAt(important, cap);
    SplitAt(info, |info|);
    assert info[|info|..] == [] && important[..|important|] == important;
  }

  lemma OutcomeKeepsWhatMatters(important: seq<Event>, info: seq<Event>, cap: nat, r: seq<Event>)
    requires ByTime(important) && ByTime(info) && |important| + |info| > cap && Outcome(important, info, cap, r)
    ensures |r| == cap && ByTime(r) && multiset(r) <= multiset(important) + multiset(info)
    ensures KeepsWhatMatters(important, info, cap, r)
  {
    hide ByTime, KeepsWhatMatters, Permutes;
    if |important| >= cap {
      CapFull(important, info, cap);
    } else {
      CapMixed(important, info, cap, r, |info| - (cap - |important|));
    }
  }

  lemma CapUnfolds(events: seq<Event>, cap: nat, r: seq<Event>)
    requires cap < |events| && ByTime(events) && CapOutcome(events, cap, r)
    ensures Outcome(Filter(events, Important), Filter(events, Informational), cap, r)
    ensures NoneAfter(events, events[|events| - 1].timestamp)
  {
  }

  /** On more events than the cap, in time order: exactly `cap` events come back, in time
      order, all from the input; every important one if they fit, and then the newest
      informational ones; otherwise the first important ones. */
  lemma CapKeepsWhatMatters(events: seq<Event>, cap: nat, r: seq<Event>)
    requires cap < |events| && ByTime(events) && CapOutcome(events, cap, r)
    ensures |r| == cap && ByTime(r) && multiset(r) <= multiset(events)
    ensures KeepsWhatMatters(Filter(events, Important), Filter(events, Informational), cap, r)
  {
    hide *;
    CapUnfolds(events, cap, r);
    FilterSplits(events);
    FilterKeepsOrder(events, Important, events[|events| - 1].timestamp);
    FilterKeepsOrder(events, Informational, events[|events| - 1].timestamp);
    OutcomeKeepsWhatMatters(Filter(events, Important), Filter(events, Informational), cap, r);
  }

  // ----- Collection

  datatype Collection = Returned(events: seq<Event>) | Unavailable(error: string)

  /** What a provider answers, and whether the context was cancelled before it was asked. */
  datatype Provider = Provider(category: string, collection: Collection, cancelled: bool)

  datatype CollectedEvidence = CollectedEvidence(
    events: seq<Event>,
    byCategory: map<string, seq<Event>>,
    availableCategories: seq<string>,
    missingCategories: seq<string>,
    wasCapped: bool,
    totalBeforeCap: nat)

  /** What is gathered from the providers, before sorting; failed providers are skipped and a
      later provider replaces an earlier one of its category. */
  datatype Gathered = Gathered(
    events: seq<Event>,
    byCategory: map<string, seq<Event>>,
    available: seq<string>,
    missing: seq<string>)

  function GatherOne(g: Gathered, p: Provider): Gathered {
    match p.collection
    case Unavailable(_) => g
    case Returned(events) =>
      if |events| > 0
      then Gathered(g.events + events, g.byCategory[p.category := events], g.available + [p.category], g.missing)
      else g.(missing := g.missing + [p.category])
  }

  function Gather(providers: seq<Provider>): Gathered {
    if providers == [] then Gathered([], map[], [], [])
    else GatherOne(Gather(providers[..|providers| - 1]), providers[|providers| - 1])
  }

  /** The possible results of a collection that is not cancelled. */
  ghost predicate CollectOutcome(providers: seq<Provider>, cap: nat, sorted: seq<Event>, e: CollectedEvidence) {
    var g := Gather(providers);
    && e.byCategory == g.byCategory && e.availableCategories == g.available && e.missingCategories == g.missing
    && ByTime(sorted) && Permutes(sorted, g.events)
    && e.totalBeforeCap == |sorted|
    && e.wasCapped == (|sorted| > cap)
    && if |sorted| > cap then CapOutcome(sorted, cap, e.events) else e.events == sorted
  }

  // ----- What is gathered, provider by provider

  predicate HasEvents(p: Provider) {
    p.collection.Returned? && p.collection.events != []
  }

  predicate HasNone(p: Provider) {
    p.collection.Returned? && p.collection.events == []
  }

  function Categories(providers: seq<Provider>): seq<string> {
    seq(|providers|, i requires 0 <= i < |providers| => providers[i].category)
  }

  function EventsOf(providers: seq<Provider>): seq<Event> {
    if providers == [] then []
    else
      var before, p := EventsOf(providers[..|providers| - 1]), providers[|providers| - 1];
      if p.collection.Returned? then before + p.collection.events else before
  }

  /** `p` is the last provider of its category that returned events. */
  predicate LastOf(providers: seq<Provider>, p: Provider) {
    exists i :: 0 <= i < |providers| && providers[i] == p && HasEvents(p)
      && forall j :: i < j < |providers| && HasEvents(providers[j]) ==> providers[j].category != p.category
  }

  /** The available categories are those of the providers that returned events, the missing ones
      those of the providers that returned none, in order; the events are all that were
      returned. */
  lemma {:induction false} GatheredFrom(providers: seq<Provider>)
    ensures var g := Gather(providers);
      && g.available == Categories(Filter(providers, HasEvents))
      && g.missing == Categories(Filter(providers, HasNone))
      && g.events == EventsOf(providers)
  {
    if providers != [] {
      var front, p := providers[..|providers| - 1], providers[|providers| - 1];
      GatheredFrom(front);
      assert Categories(Filter(front, HasEvents) + [p]) == Categories(Filter(front, HasEvents)) + [p.category];
      assert Categories(Filter(front, HasNone) + [p]) == Categories(Filter(front, HasNone)) + [p.category];
    }
  }

  lemma InCategories(providers: seq<Provider>, c: string)
    ensures c in Categories(providers) <==> exists p :: p in providers && p.category == c
  {
    if p :| p in providers && p.category == c {
      var i :| 0 <= i < |providers| && providers[i] == p;
      assert Categories(providers)[i] == c;
    }
    if c in Categories(providers) {
      var i :| 0 <= i < |providers| && Categories(providers)[i] == c;
      assert providers[i] in providers;
    }
  }

  /** A category is missing exactly if one of its providers returned no events, and available
      exactly if one returned some. */
  lemma GatheredCategory(providers: seq<Provider>, c: string)
    ensures c in Gather(providers).missing <==> exists p :: p in providers && HasNone(p) && p.category == c
    ensures c in Gather(providers).available <==> exists p :: p in providers && HasEvents(p) && p.category == c
  {
    GatheredFrom(providers);
    InCategories(Filter(providers, HasNone), c);
    InCategories(Filter(providers, HasEvents), c);
    forall p
      ensures p in Filter(providers, HasNone) <==> p in providers && HasNone(p)
      ensures p in Filter(providers, HasEvents) <==> p in providers && HasEvents(p)
    {
      FilterMembers(providers, HasNone, p);
      FilterMembers(providers, HasEvents, p);
    }
    hide Gather, Filter, Categories, HasNone, HasEvents;
  }

  lemma LastOfFront(providers: seq<Provider>, p: Provider)
    requires providers != [] && LastOf(providers[..|providers| - 1], p)
    requires var last := providers[|providers| - 1]; !HasEvents(last) || last.category != p.category
    ensures LastOf(providers, p)
  {
    hide HasEvents;
    var n := |providers| - 1;
    var front := providers[..n];
    var i :| 0 <= i < n && front[i] == p
      && forall j :: i < j < n && HasEvents(front[j]) ==> front[j].category != p.category;
    forall j | i < j < |providers| && HasEvents(providers[j])
      ensures providers[j].category != p.category
    {
      if j < n {
        assert front[j] == providers[j];
      }
    }
    assert providers[i] == p;
  }

  lemma GatherLast(providers: seq<Provider>)
    requires providers != []
    ensures var before, p := Gather(providers[..|providers| - 1]).byCategory, providers[|providers| - 1];
      Gather(providers).byCategory == if HasEvents(p) then before[p.category := p.collection.events] else before
  {
  }

  /** A category's events are those of the last of its providers that returned some. */
  lemma {:induction false} GatheredEvents(providers: seq<Provider>, c: string)
    requires c in Gather(providers).byCategory
    ensures exists p ::
      LastOf(providers, p) && p.category == c && p.collection == Returned(Gather(providers).byCategory[c])
  {
    GatherNothing();
    hide Gather, LastOf;
    var n := |providers| - 1;
    GatherLast(providers);
    var last := providers[n];
    if HasEvents(last) && last.category == c {
      assert LastOf(providers, last) by { LastIsLast(providers); }
    } else {
      GatheredEvents(providers[..n], c);
      var p :| LastOf(providers[..n], p) && p.category == c && p.collection == Returned(Gather(providers).byCategory[c]);
      LastOfFront(providers, p);
    }
  }

  lemma GatherNothing()
    ensures Gather([]).byCategory == map[]
  {
  }

  lemma LastIsLast(providers: seq<Provider>)
    requires providers != [] && HasEvents(providers[|providers| - 1])
    ensures LastOf(providers, providers[|providers| - 1])
  {
  }

  /** The total is what the providers returned together; the cap applies exactly if that is
      more, and then exactly `cap` events are kept. */
  lemma CollectedCounts(providers: seq<Provider>, cap: nat, sorted: seq<Event>, e: CollectedEvidence)
    requires CollectOutcome(providers, cap, sorted, e)
    ensures e.totalBeforeCap == |EventsOf(providers)|
    ensures e.wasCapped <==> |EventsOf(providers)| > cap
    ensures |e.events| == (if e.wasCapped then cap else e.totalBeforeCap) && ByTime(e.events)
    ensures forall x :: x in e.events ==> x in EventsOf(providers)
  {
    GatheredFrom(providers);
    PermutesLength(sorted, EventsOf(providers));
    hide Gather, EventsOf, ByTime, CapOutcome;
    if e.wasCapped {
      CapKeepsWhatMatters(sorted, cap, e.events);
      forall x | x in e.events
        ensures x in sorted
      {
        assert x in multiset(e.events);
        assert multiset(e.events)[x] <= multiset(sorted)[x];
      }
    }
    forall x | x in sorted
      ensures x in EventsOf(providers)
    {
      assert x in multiset(sorted);
    }
  }

  class ContextBuilder {
    var evidenceCap: nat

    predicate Valid()
      reads this
    {
      evidenceCap > 0
    }

    constructor ()
      ensures Valid() && evidenceCap == 50
    {
      evidenceCap := 50;
    }

    method SetEvidenceCap(cap: int)
      requires Valid()
      modifies this
      ensures Valid() && evidenceCap == if cap > 0 then cap else old(evidenceCap)
    {
      if cap > 0 {
        evidenceCap := cap;
      }
    }

    method Collect(providers: seq<Provider>) returns (result: Option<CollectedEvidence>, ghost sorted: seq<Event>)
      requires Valid()
      ensures result.None? <==> exists p :: p in providers && p.cancelled
      ensures result.Some? ==> CollectOutcome(providers, evidenceCap, sorted, result.value)
    {
      hide Permutes, CapOutcome, ByTime;
      sorted := [];
      var events: seq<Event> := [];
      var byCategory: map<string, seq<Event>> := map[];
      var available: seq<string>, missing: seq<string> := [], [];
      for i := 0 to |providers|
        invariant Gathered(events, byCategory, available, missing) == Gather(providers[..i])
        invariant forall p :: p in providers[..i] ==> !p.cancelled
      {
        assert providers[..i + 1][..i] == providers[..i];
        var p := providers[i];
        if p.cancelled {
          return None, sorted;
        }
        match p.collection
        case Unavailable(_) =>
        case Returned(collected) =>
          if |collected| > 0 {
            byCategory := byCategory[p.category := collected];
            events := events + collected;
            available := available + [p.category];
          } else {
            missing := missing + [p.category];
          }
      }
      assert providers[..|providers|] == providers;
      events := SortByTime(events);
      sorted := events;
      var total := |events|;
      var capped := total > evidenceCap;
      if capped {
        events := CapEvents(events, evidenceCap);
      }
      result := Some(CollectedEvidence(events, byCategory, available, missing, capped, total));
    }
  }

  // ----- The ledger

  datatype LedgerStatus = Supported | Unsupported | Contradicted | Missing

  datatype LedgerImpact = Positive | Negative | Neutral

  /** Why an item says what it says: which sentence it gives, with the figures the sentence and
      the attributes show. */
  datatype Rationale =
      FailingChecks(count: nat)
    | HealthyChecks
    | MetricsCrossed(count: nat)
    | MetricsNormal
    | Collected(category: string, count: nat)
    | OutsideCap(originalCount: nat, includedCount: nat, totalBeforeCap: nat)
    | NothingReturned

  datatype LedgerItem = LedgerItem(
    id: string,
    claim: string,
    status: LedgerStatus,
    category: string,
    impact: LedgerImpact,
    evidenceIDs: seq<string>,
    rationale: Rationale)

  datatype LedgerSummary = LedgerSummary(supported: nat, unsupported: nat, contradicted: nat, missing: nat)

  function HexDigit(n: nat): char
    requires n < 16
  {
    if n < 10 then Digit(n) else ('a' as int + (n - 10)) as char
  }

  function Hex(n: nat): string {
    if n < 16 then [HexDigit(n)] else Hex(n / 16) + [HexDigit(n % 16)]
  }

  function HexValue(c: char): int {
    if '0' <= c <= '9' then c as int - '0' as int else c as int - 'a' as int + 10
  }

  /** The number that a string of lower-case hexadecimal digits stands for. */
  function HexNumeral(s: string): int {
    if s == [] then 0 else 16 * HexNumeral(s[..|s| - 1]) + HexValue(s[|s| - 1])
  }

  lemma {:induction false} HexIsNumeral(n: nat)
    ensures HexNumeral(Hex(n)) == n
  {
    if n >= 16 {
      HexIsNumeral(n / 16);
    }
  }

  function LedgerID(category: string, claimType: string, evidenceIDs: seq<string>): string {
    "ledger_" + category + "_" + claimType + "_" + Hex(|evidenceIDs|)
  }

  function HumanCategory(category: string): string {
    match category
    case "checks" => "Check"
    case "mysql" => "MySQL"
    case "server_metrics" => "Server metric"
    case "audit" => "Audit"
    case "incident_history" => "Incident history"
    case _ => category
  }

  /** The non-empty IDs of events, in order. */
  function EventIDs(events: seq<Event>): seq<string> {
    if events == [] then []
    else
      var ids, e := EventIDs(events[..|events| - 1]), events[|events| - 1];
      if e.id != "" then ids + [e.id] else ids
  }

  predicate Critical(e: Event) {
    e.severity == "critical"
  }

  predicate Warning(e: Event) {
    e.severity == "warning"
  }

  /** The item of a category with events: the kind of claim depends on the category, and for
      checks and server metrics on whether an event is critical or a warning. */
  function CategoryItem(category: string, events: seq<Event>): LedgerItem {
    ItemFor(category, events, Filter(events, Critical) + Filter(events, Warning))
  }

  /** Categories whose events can speak against a failure as well as for it. */
  predicate Judged(category: string) {
    category == "checks" || category == "server_metrics"
  }

  function ClaimType(category: string, supported: bool): string {
    match category
    case "checks" => if supported then "failing-check" else "no-failing-check"
    case "server_metrics" => if supported then "resource-pressure" else "no-resource-pressure"
    case "mysql" => "mysql-evidence"
    case "audit" => "audit-evidence"
    case "incident_history" => "incident-history"
    case _ => "available"
  }

  function Claim(category: string, supported: bool): string {
    match category
    case "checks" =>
      if supported then "The incident is supported by failing or degraded check results"
      else "No failing check result was found in the collected window"
    case "server_metrics" =>
      if supported then "Server resource pressure may be contributing to the incident"
      else "Collected server metrics do not show resource saturation"
    case "mysql" => "Database evidence is available for this incident"
    case "audit" => "Recent operational changes or audit actions exist near the incident"
    case "incident_history" => "Similar recent incidents exist for comparison"
    case _ => HumanCategory(category) + " evidence is available"
  }

  function ItemFor(category: string, events: seq<Event>, failing: seq<Event>): LedgerItem {
    var ids := EventIDs(events);
    var supported := !Judged(category) || |failing| > 0;
    LedgerItem(
      LedgerID(category, ClaimType(category, supported), ids),
      Claim(category, supported),
      if supported then Supported else Contradicted,
      category,
      if supported then Positive else Negative,
      if Judged(category) && supported then EventIDs(failing) else ids,
      RationaleFor(category, |failing|, |events|))
  }

  function RationaleFor(category: string, failing: nat, count: nat): Rationale {
    match category
    case "checks" => if failing > 0 then FailingChecks(failing) else HealthyChecks
    case "server_metrics" => if failing > 0 then MetricsCrossed(failing) else MetricsNormal
    case _ => Collected(category, count)
  }

  function Lookup(m: map<string, seq<Event>>, category: string): seq<Event> {
    if category in m then m[category] else []
  }

  /** The IDs of the events in the bounded context. */
  function KeptIDs(events: seq<Event>): set<string> {
    set e | e in events && e.id != "" :: e.id
  }

  /** The events of a category whose ID is allowed, added to those found before. */
  function KeepCategory(m: map<string, seq<Event>>, category: string, events: seq<Event>, allowed: set<string>):
      map<string, seq<Event>> {
    var kept := Filter(events, (e: Event) => e.id in allowed);
    if kept == [] then m else m[category := Lookup(m, category) + kept]
  }

  function KeepCategories(categories: seq<string>, byCategory: map<string, seq<Event>>, allowed: set<string>):
      map<string, seq<Event>> {
    if categories == [] then map[]
    else
      var c := categories[|categories| - 1];
      KeepCategory(KeepCategories(categories[..|categories| - 1], byCategory, allowed), c, Lookup(byCategory, c), allowed)
  }

  function CategoryEvents(e: CollectedEvidence): map<string, seq<Event>> {
    if !e.wasCapped then e.byCategory
    else KeepCategories(e.availableCategories, e.byCategory, KeptIDs(e.events))
  }

  function OmittedItem(e: CollectedEvidence, category: string): LedgerItem {
    LedgerItem(LedgerID(category, "cap-omitted", []),
               HumanCategory(category) + " evidence was collected but omitted by the evidence cap",
               Unsupported, category, Neutral, [],
               OutsideCap(|Lookup(e.byCategory, category)|, |e.events|, e.totalBeforeCap))
  }

  function MissingItem(category: string): LedgerItem {
    LedgerItem(LedgerID(category, "missing", []),
               HumanCategory(category) + " evidence was not available for this incident window",
               Missing, category, Neutral, [], NothingReturned)
  }

  function AvailableItems(e: CollectedEvidence, categories: seq<string>): seq<LedgerItem> {
    if categories == [] then []
    else
      var before, c := AvailableItems(e, categories[..|categories| - 1]), categories[|categories| - 1];
      var events := Lookup(CategoryEvents(e), c);
      if events != [] then before + [CategoryItem(c, events)]
      else if e.wasCapped && Lookup(e.byCategory, c) != [] then before + [OmittedItem(e, c)]
      else before
  }

  function MissingItems(categories: seq<string>): seq<LedgerItem> {
    seq(|categories|, i requires 0 <= i < |categories| => MissingItem(categories[i]))
  }

  function Ledger(e: CollectedEvidence): seq<LedgerItem> {
    AvailableItems(e, e.availableCategories) + MissingItems(e.missingCategories)
  }

  function StatusCount(ledger: seq<LedgerItem>, status: LedgerStatus): nat {
    if ledger == [] then 0
    else StatusCount(ledger[..|ledger| - 1], status) + if ledger[|ledger| - 1].status == status then 1 else 0
  }

  method LedgerEventsByCategory(e: CollectedEvidence) returns (m: map<string, seq<Event>>)
    ensures m == CategoryEvents(e)
  {
    if !e.wasCapped {
      return e.byCategory;
    }
    var allowed: set<string> := {};
    for i := 0 to |e.events|
      invariant allowed == KeptIDs(e.events[..i])
    {
      assert e.events[..i + 1] == e.events[..i] + [e.events[i]];
      if e.events[i].id != "" {
        allowed := allowed + {e.events[i].id};
      }
    }
    assert e.events[..|e.events|] == e.events;
    m := map[];
    for i := 0 to |e.availableCategories|
      invariant m == KeepCategories(e.availableCategories[..i], e.byCategory, allowed)
    {
      assert e.availableCategories[..i + 1][..i] == e.availableCategories[..i];
      var c := e.availableCategories[i];
      m := AppendAllowed(m, c, Lookup(e.byCategory, c), allowed);
    }
    assert e.availableCategories[..|e.availableCategories|] == e.availableCategories;
  }

  method AppendAllowed(before: map<string, seq<Event>>, category: string, events: seq<Event>, allowed: set<string>)
      returns (m: map<string, seq<Event>>)
    ensures m == KeepCategory(before, category, events, allowed)
  {
    m := before;
    for i := 0 to |events|
      invariant m == KeepCategory(before, category, events[..i], allowed)
    {
      assert events[..i + 1][..i] == events[..i];
      if events[i].id in allowed {
        var kept := Filter(events[..i], (e: Event) => e.id in allowed);
        assert Lookup(before, category) + (kept + [events[i]]) == Lookup(before, category) + kept + [events[i]];
        assert kept == [] ==> Lookup(before, category) + kept == Lookup(before, category);
        m := m[category := Lookup(m, category) + [events[i]]];
      }
    }
    assert events[..|events|] == events;
  }

  method BuildCategoryLedgerItem(category: string, events: seq<Event>) returns (item: LedgerItem)
    ensures item == CategoryItem(category, events)
  {
    var critical: seq<Event>, warning: seq<Event> := [], [];
    for i := 0 to |events|
      invariant critical == Filter(events[..i], Critical) && warning == Filter(events[..i], Warning)
    {
      assert events[..i + 1][..i] == events[..i];
      match events[i].severity
      case "critical" => critical := critical + [events[i]];
      case "warning" => warning := warning + [events[i]];
      case _ =>
    }
    assert events[..|events|] == events;
    item := ItemFor(category, events, critical + warning);
  }

  function Summary(ledger: seq<LedgerItem>): LedgerSummary {
    LedgerSummary(StatusCount(ledger, Supported), StatusCount(ledger, Unsupported),
                  StatusCount(ledger, Contradicted), StatusCount(ledger, Missing))
  }

  method SummarizeLedger(ledger: seq<LedgerItem>) returns (s: LedgerSummary)
    ensures s == Summary(ledger)
  {
    s := LedgerSummary(0, 0, 0, 0);
    for i := 0 to |ledger|
      invariant s == Summary(ledger[..i])
    {
      assert ledger[..i + 1][..i] == ledger[..i];
      match ledger[i].status
      case Supported => s := s.(supported := s.supported + 1);
      case Unsupported => s := s.(unsupported := s.unsupported + 1);
      case Contradicted => s := s.(contradicted := s.contradicted + 1);
      case Missing => s := s.(missing := s.missing + 1);
    }
    assert ledger[..|ledger|] == ledger;
  }

  method BuildEvidenceLedger(evidence: Option<CollectedEvidence>) returns (ledger: seq<LedgerItem>, summary: LedgerSummary)
    ensures ledger == if evidence.Some? then Ledger(evidence.value) else []
    ensures summary == Summary(ledger)
  {
    hide CategoryItem, CategoryEvents, OmittedItem, MissingItem;
    ledger := [];
    if evidence.None? {
      return ledger, LedgerSummary(0, 0, 0, 0);
    }
    var e := evidence.value;
    var categoryEvents := LedgerEventsByCategory(e);
    for i := 0 to |e.availableCategories|
      invariant ledger == AvailableItems(e, e.availableCategories[..i])
    {
      assert e.availableCategories[..i + 1][..i] == e.availableCategories[..i];
      var c := e.availableCategories[i];
      var events := Lookup(categoryEvents, c);
      if |events| == 0 {
        if e.wasCapped && |Lookup(e.byCategory, c)| > 0 {
          ledger := ledger + [OmittedItem(e, c)];
        }
        continue;
      }
      var item := BuildCategoryLedgerItem(c, events);
      ledger := ledger + [item];
    }
    assert e.availableCategories[..|e.availableCategories|] == e.availableCategories;
    ghost var available := ledger;
    for i := 0 to |e.missingCategories|
      invariant ledger == available + MissingItems(e.missingCategories[..i])
    {
      assert MissingItems(e.missingCategories[..i + 1]) ==
             MissingItems(e.missingCategories[..i]) + [MissingItem(e.missingCategories[i])];
      ledger := ledger + [MissingItem(e.missingCategories[i])];
    }
    assert e.missingCategories[..|e.missingCategories|] == e.missingCategories;
    summary := SummarizeLedger(ledger);
  }

  // ----- The ledger is complete, and grounded in what was kept

  /** Every available category has events, and without a cap all of them are in `events`. */
  ghost predicate Consistent(e: CollectedEvidence) {
    && (forall c :: c in e.availableCategories ==> Lookup(e.byCategory, c) != [])
    && (forall c, x :: !e.wasCapped && x in Lookup(e.byCategory, c) ==> x in e.events)
  }

  lemma {:induction false} GatheredIsConsistent(providers: seq<Provider>, c: string, x: Event)
    ensures c in Gather(providers).available ==> Lookup(Gather(providers).byCategory, c) != []
    ensures x in Lookup(Gather(providers).byCategory, c) ==> x in Gather(providers).events
  {
    if providers != [] {
      GatheredIsConsistent(providers[..|providers| - 1], c, x);
    }
  }

  lemma PermutesMember(s: seq<Event>, t: seq<Event>, x: Event)
    requires Permutes(s, t) && x in t
    ensures x in s
  {
    assert x in multiset(t);
  }

  lemma CollectedIsConsistent(providers: seq<Provider>, cap: nat, sorted: seq<Event>, e: CollectedEvidence)
    requires CollectOutcome(providers, cap, sorted, e)
    ensures Consistent(e)
  {
    hide ByTime, CapOutcome, Permutes;
    forall c | c in e.availableCategories
      ensures Lookup(e.byCategory, c) != []
    {
      GatheredIsConsistent(providers, c, Event("", 0, "", ""));
    }
    forall c, x | !e.wasCapped && x in Lookup(e.byCategory, c)
      ensures x in e.events
    {
      GatheredIsConsistent(providers, c, x);
      PermutesMember(sorted, Gather(providers).events, x);
    }
  }

  /** The ID is that of an event that was kept. */
  predicate Grounded(id: string, events: seq<Event>) {
    id != "" && exists x :: x in events && x.id == id
  }

  ghost predicate CitesOnly(item: LedgerItem, events: seq<Event>) {
    forall id :: id in item.evidenceIDs ==> Grounded(id, events)
  }

  lemma {:induction false} EventIDsAre(events: seq<Event>, id: string)
    ensures id in EventIDs(events) <==> Grounded(id, events)
  {
    if events != [] {
      EventIDsAre(events[..|events| - 1], id);
      assert events == events[..|events| - 1] + [events[|events| - 1]];
    }
  }

  lemma CategoryItemCites(category: string, events: seq<Event>, id: string)
    ensures id in CategoryItem(category, events).evidenceIDs ==> Grounded(id, events)
  {
    hide LedgerID, HumanCategory, Claim, ClaimType;
    var failing := Filter(events, Critical) + Filter(events, Warning);
    EventIDsAre(events, id);
    EventIDsAre(failing, id);
    if x :| x in failing && x.id == id {
      FilterMembers(events, Critical, x);
      FilterMembers(events, Warning, x);
    }
  }

  /** The events the ledger sees for a category: some of the category's, all kept (up to
      events that share an ID). */
  lemma {:induction false} KeptCategoriesAre(categories: seq<string>, byCategory: map<string, seq<Event>>, allowed: set<string>, c: string, x: Event)
    ensures x in Lookup(KeepCategories(categories, byCategory, allowed), c) <==>
      c in categories && x in Lookup(byCategory, c) && x.id in allowed
  {
    if categories != [] {
      var last := categories[|categories| - 1];
      KeptCategoriesAre(categories[..|categories| - 1], byCategory, allowed, c, x);
      FilterMembers(Lookup(byCategory, last), (e: Event) => e.id in allowed, x);
      assert categories == categories[..|categories| - 1] + [last];
    }
  }

  /** Under the cap, the ledger sees exactly those events of an available category whose ID is
      that of a kept event; without it, all of them. */
  lemma SeenIffKept(e: CollectedEvidence, c: string, x: Event)
    ensures x in Lookup(CategoryEvents(e), c) <==>
      x in Lookup(e.byCategory, c) && (e.wasCapped ==> c in e.availableCategories && Grounded(x.id, e.events))
  {
    if e.wasCapped {
      KeptCategoriesAre(e.availableCategories, e.byCategory, KeptIDs(e.events), c, x);
    }
  }

  lemma CategoryEventsAreKept(e: CollectedEvidence, c: string, x: Event)
    requires Consistent(e) && x in Lookup(CategoryEvents(e), c) && x.id != ""
    ensures x in Lookup(e.byCategory, c) && Grounded(x.id, e.events)
  {
    if e.wasCapped {
      KeptCategoriesAre(e.availableCategories, e.byCategory, KeptIDs(e.events), c, x);
    }
  }

  /** What the ledger says about one available category. */
  ghost predicate Fair(e: CollectedEvidence, c: string, item: LedgerItem) {
    var events := Lookup(CategoryEvents(e), c);
    && item.category == c
    && CitesOnly(item, e.events)
    && StatusFits(c, item, events)
    && CitesExactly(c, item, events)
    && item.rationale == Why(e, c, item.status, events)
  }

  ghost predicate StatusFits(c: string, item: LedgerItem, events: seq<Event>) {
    && (item.status.Unsupported? <==> events == [])
    && (item.status.Contradicted? <==>
          events != [] && (c == "checks" || c == "server_metrics") && forall x :: x in events ==> !Important(x))
    && !item.status.Missing?
    && item.impact == (match item.status case Supported => Positive case Contradicted => Negative case _ => Neutral)
  }

  ghost predicate CitesExactly(c: string, item: LedgerItem, events: seq<Event>) {
    forall id :: id in item.evidenceIDs <==> Cites(c, item.status, events, id)
  }

  /** A supported claim about checks or server metrics cites their failing events; every other
      claim cites all events of its category that have an ID. */
  predicate Cites(c: string, status: LedgerStatus, events: seq<Event>, id: string) {
    && id != ""
    && exists x ::
         && x in events && x.id == id
         && ((c == "checks" || c == "server_metrics") && status.Supported? ==> Important(x))
  }

  /** How many of the events are failing. */
  function Failing(events: seq<Event>): nat {
    |Filter(events, Important)|
  }

  function Why(e: CollectedEvidence, c: string, status: LedgerStatus, events: seq<Event>): Rationale {
    match status
    case Unsupported => OutsideCap(|Lookup(e.byCategory, c)|, |e.events|, e.totalBeforeCap)
    case Contradicted => if c == "checks" then HealthyChecks else MetricsNormal
    case Missing => NothingReturned
    case Supported =>
      if c == "checks" then FailingChecks(Failing(events))
      else if c == "server_metrics" then MetricsCrossed(Failing(events))
      else Collected(c, |events|)
  }

  lemma {:induction false} FailingCounted(events: seq<Event>)
    ensures |Filter(events, Critical)| + |Filter(events, Warning)| == Failing(events)
  {
    if events != [] {
      FailingCounted(events[..|events| - 1]);
    }
  }

  lemma FailingMembers(events: seq<Event>, x: Event)
    ensures x in Filter(events, Critical) + Filter(events, Warning) <==> x in events && Important(x)
  {
    FilterMembers(events, Critical, x);
    FilterMembers(events, Warning, x);
  }

  /** What a claim about checks or server metrics is called. */
  lemma JudgedClaims()
    ensures ClaimType("checks", true) == "failing-check" && ClaimType("checks", false) == "no-failing-check"
    ensures ClaimType("server_metrics", true) == "resource-pressure"
    ensures ClaimType("server_metrics", false) == "no-resource-pressure"
  {
  }

  /** An item's text and ID are those of what it claims, and the ID ends with the number of the
      category's event IDs. */
  lemma ItemClaims(c: string, events: seq<Event>)
    ensures var item := CategoryItem(c, events);
      && item.claim == Claim(c, item.status.Supported?)
      && item.id == "ledger_" + c + "_" + ClaimType(c, item.status.Supported?) + "_" + Hex(|EventIDs(events)|)
  {
    hide Claim, ClaimType, EventIDs, Filter, Hex;
  }

  /** The events a category's item cites. */
  lemma CitedEvents(c: string, events: seq<Event>)
    ensures var item, failing := CategoryItem(c, events), Filter(events, Critical) + Filter(events, Warning);
      item.evidenceIDs ==
        EventIDs(if Judged(c) && item.status.Supported? then failing else events)
  {
    hide LedgerID, HumanCategory, Claim, ClaimType, EventIDs, Filter;
  }

  lemma ItemCitesExactly(c: string, events: seq<Event>)
    ensures CitesExactly(c, CategoryItem(c, events), events)
  {
    CitedEvents(c, events);
    hide CategoryItem, EventIDs, Filter, Important;
    var item, failing := CategoryItem(c, events), Filter(events, Critical) + Filter(events, Warning);
    forall id
      ensures id in item.evidenceIDs <==> Cites(c, item.status, events, id)
    {
      EventIDsAre(events, id);
      EventIDsAre(failing, id);
      forall x
        ensures x in failing <==> x in events && Important(x)
      {
        FailingMembers(events, x);
      }
    }
  }

  lemma ItemRationale(e: CollectedEvidence, c: string, events: seq<Event>)
    ensures CategoryItem(c, events).rationale == Why(e, c, CategoryItem(c, events).status, events)
  {
    FailingCounted(events);
    hide LedgerID, HumanCategory, Claim, ClaimType, EventIDs, Filter, Failing;
  }

  lemma ItemCitesKept(e: CollectedEvidence, c: string)
    requires Consistent(e)
    ensures CitesOnly(CategoryItem(c, Lookup(CategoryEvents(e), c)), e.events)
  {
    var events := Lookup(CategoryEvents(e), c);
    hide CategoryEvents, CategoryItem, Lookup, Consistent;
    forall id | id in CategoryItem(c, events).evidenceIDs
      ensures Grounded(id, e.events)
    {
      CategoryItemCites(c, events, id);
      var x :| x in events && x.id == id;
      CategoryEventsAreKept(e, c, x);
    }
  }

  lemma ItemStatus(c: string, events: seq<Event>)
    requires events != []
    ensures CategoryItem(c, events).category == c && StatusFits(c, CategoryItem(c, events), events)
  {
    hide LedgerID, HumanCategory, Claim, ClaimType, EventIDs, Important, Filter;
    FailingAreImportant(events);
  }

  lemma FairItem(e: CollectedEvidence, c: string, item: LedgerItem)
    requires var events := Lookup(CategoryEvents(e), c);
      && item.category == c && CitesOnly(item, e.events) && StatusFits(c, item, events)
      && CitesExactly(c, item, events) && item.rationale == Why(e, c, item.status, events)
    ensures Fair(e, c, item)
  {
    hide Lookup, CategoryEvents, CitesOnly, StatusFits, CitesExactly, Why;
  }

  lemma OmittedIsFair(e: CollectedEvidence, c: string)
    requires Lookup(CategoryEvents(e), c) == []
    ensures Fair(e, c, OmittedItem(e, c))
  {
    hide CategoryEvents, LedgerID, HumanCategory;
  }

  lemma ItemIsFair(e: CollectedEvidence, c: string)
    requires Consistent(e)
    ensures var events := Lookup(CategoryEvents(e), c);
      Fair(e, c, if events != [] then CategoryItem(c, events) else OmittedItem(e, c))
  {
    hide *;
    var events := Lookup(CategoryEvents(e), c);
    if events == [] {
      OmittedIsFair(e, c);
    } else {
      ItemCitesKept(e, c);
      ItemStatus(c, events);
      ItemCitesExactly(c, events);
      ItemRationale(e, c, events);
      FairItem(e, c, CategoryItem(c, events));
    }
  }

  lemma FailingAreImportant(events: seq<Event>)
    ensures Filter(events, Critical) + Filter(events, Warning) == [] <==> forall x :: x in events ==> !Important(x)
  {
    var failing := Filter(events, Critical) + Filter(events, Warning);
    forall x
      ensures x in failing <==> x in events && Important(x)
    {
      FilterMembers(events, Critical, x);
      FilterMembers(events, Warning, x);
    }
    if failing != [] {
      assert failing[0] in failing;
    }
  }

  lemma CategoryHasEvents(e: CollectedEvidence, c: string)
    requires Consistent(e) && c in e.availableCategories
    ensures Lookup(e.byCategory, c) != []
    ensures !e.wasCapped ==> Lookup(CategoryEvents(e), c) != []
  {
  }

  lemma LastItem(e: CollectedEvidence, categories: seq<string>)
    requires Consistent(e) && categories != [] && categories[|categories| - 1] in e.availableCategories
    ensures var c := categories[|categories| - 1];
      var events := Lookup(CategoryEvents(e), c);
      AvailableItems(e, categories) == AvailableItems(e, categories[..|categories| - 1]) +
                                       [if events != [] then CategoryItem(c, events) else OmittedItem(e, c)]
  {
    CategoryHasEvents(e, categories[|categories| - 1]);
    hide CategoryEvents, CategoryItem, OmittedItem, Lookup, Consistent;
  }

  lemma {:induction false} ItemAt(e: CollectedEvidence, categories: seq<string>, i: nat)
    requires Consistent(e) && i < |categories|
    requires forall k :: 0 <= k < |categories| ==> categories[k] in e.availableCategories
    ensures |AvailableItems(e, categories)| == |categories|
    ensures Fair(e, categories[i], AvailableItems(e, categories)[i])
  {
    hide *;
    var n := |categories| - 1;
    LastItem(e, categories);
    ItemIsFair(e, categories[n]);
    if n > 0 {
      ItemAt(e, categories[..n], if i < n then i else 0);
    } else {
      NoItems(e);
    }
  }

  lemma NoItems(e: CollectedEvidence)
    ensures AvailableItems(e, []) == []
  {
  }

  lemma {:induction false} CountsCover(ledger: seq<LedgerItem>)
    ensures var s := Summary(ledger); s.supported + s.unsupported + s.contradicted + s.missing == |ledger|
  {
    if ledger != [] {
      CountsCover(ledger[..|ledger| - 1]);
    }
  }

  lemma AllItems(e: CollectedEvidence)
    requires Consistent(e)
    ensures var ledger, n := Ledger(e), |e.availableCategories|;
      && |ledger| == n + |e.missingCategories|
      && (forall i :: 0 <= i < n ==> Fair(e, e.availableCategories[i], ledger[i]))
      && (forall i :: n <= i < |ledger| ==> ledger[i] == MissingItem(e.missingCategories[i - n]))
  {
    hide CategoryEvents, AvailableItems, Consistent, Fair, MissingItem;
    if e.availableCategories == [] {
      NoItems(e);
    }
    forall i | 0 <= i < |e.availableCategories|
      ensures |AvailableItems(e, e.availableCategories)| == |e.availableCategories|
      ensures Fair(e, e.availableCategories[i], AvailableItems(e, e.availableCategories)[i])
    {
      ItemAt(e, e.availableCategories, i);
    }
    assert e.availableCategories != [] ==> Fair(e, e.availableCategories[0], AvailableItems(e, e.availableCategories)[0]);
  }

  /** Each counter is the number of items with its status. */
  lemma {:induction false} CountsAreStatuses(ledger: seq<LedgerItem>, status: LedgerStatus)
    ensures StatusCount(ledger, status) == |WithStatus(ledger, status)|
  {
    if ledger != [] {
      CountsAreStatuses(ledger[..|ledger| - 1], status);
      LastHasStatus(ledger, status);
      hide WithStatus;
    }
  }

  lemma LastHasStatus(ledger: seq<LedgerItem>, status: LedgerStatus)
    requires ledger != []
    ensures var n := |ledger| - 1;
      n !in WithStatus(ledger[..n], status) && WithStatus(ledger, status) ==
        if ledger[n].status == status then WithStatus(ledger[..n], status) + {n} else WithStatus(ledger[..n], status)
  {
  }

  function WithStatus(ledger: seq<LedgerItem>, status: LedgerStatus): set<nat> {
    set i: nat | i < |ledger| && ledger[i].status == status
  }

  lemma SummaryCountsStatuses(ledger: seq<LedgerItem>)
    ensures var s := Summary(ledger);
      && s.supported == |WithStatus(ledger, Supported)| && s.unsupported == |WithStatus(ledger, Unsupported)|
      && s.contradicted == |WithStatus(ledger, Contradicted)| && s.missing == |WithStatus(ledger, LedgerStatus.Missing)|
  {
    hide WithStatus, StatusCount;
    CountsAreStatuses(ledger, Supported);
    CountsAreStatuses(ledger, Unsupported);
    CountsAreStatuses(ledger, Contradicted);
    CountsAreStatuses(ledger, LedgerStatus.Missing);
  }

  /** On collected evidence the ledger has exactly one item for every available category and
      one for every missing one, in order; its four counters add up to its length; and every
      ID it cites belongs to an event that was kept. */
  lemma LedgerIsGrounded(providers: seq<Provider>, cap: nat, sorted: seq<Event>, e: CollectedEvidence)
    requires CollectOutcome(providers, cap, sorted, e)
    ensures var ledger, n := Ledger(e), |e.availableCategories|;
      && |ledger| == n + |e.missingCategories|
      && (forall i :: 0 <= i < n ==> Fair(e, e.availableCategories[i], ledger[i]))
      && (forall i :: n <= i < |ledger| ==> SaysMissing(ledger[i], e.missingCategories[i - n]))
    ensures forall i :: 0 <= i < |Ledger(e)| ==> CitesOnly(Ledger(e)[i], e.events)
    ensures var s := Summary(Ledger(e)); s.supported + s.unsupported + s.contradicted + s.missing == |Ledger(e)|
  {
    hide *;
    CollectedIsConsistent(providers, cap, sorted, e);
    LedgerSays(e);
    CountsCover(Ledger(e));
  }

  lemma LedgerSays(e: CollectedEvidence)
    requires Consistent(e)
    ensures var ledger, n := Ledger(e), |e.availableCategories|;
      && |ledger| == n + |e.missingCategories|
      && (forall i :: 0 <= i < n ==> Fair(e, e.availableCategories[i], ledger[i]))
      && (forall i :: n <= i < |ledger| ==> SaysMissing(ledger[i], e.missingCategories[i - n]))
    ensures forall i :: 0 <= i < |Ledger(e)| ==> CitesOnly(Ledger(e)[i], e.events)
  {
    hide *;
    AllItems(e);
    var ledger, n := Ledger(e), |e.availableCategories|;
    forall i | 0 <= i < n
      ensures CitesOnly(ledger[i], e.events)
    {
      FairCites(e, e.availableCategories[i], ledger[i]);
    }
    forall i | n <= i < |ledger|
      ensures SaysMissing(ledger[i], e.missingCategories[i - n]) && CitesOnly(ledger[i], e.events)
    {
      MissingSaysSo(e.missingCategories[i - n], e.events);
    }
  }

  lemma FairCites(e: CollectedEvidence, c: string, item: LedgerItem)
    requires Fair(e, c, item)
    ensures CitesOnly(item, e.events)
  {
  }

  /** The item of a category without evidence. */
  predicate SaysMissing(item: LedgerItem, c: string) {
    && item.category == c && item.status == LedgerStatus.Missing && item.impact == Neutral
    && item.evidenceIDs == [] && item.rationale == NothingReturned
  }

  lemma MissingSaysSo(c: string, events: seq<Event>)
    ensures SaysMissing(MissingItem(c), c) && CitesOnly(MissingItem(c), events)
  {
    hide LedgerID, HumanCategory, Claim, ClaimType;
  }
}
