/** The per-IP rate limiter: a counter that resets once a window has passed, and a background
    sweep that forgets stale visitors. */
module RateLimiter {
  import opened Civil
  import opened Options

  datatype Visitor = Visitor(tokens: int, lastReset: Instant)

  type Visitors = map<string, Visitor>

  function Lookup(vs: Visitors, ip: string): Option<Visitor> {
    if ip in vs then Some(vs[ip]) else None
  }

  /** What a reset leaves of the allowance, in 64 bits. */
  function FullTokens(rate: int): int {
    Wrap64(rate - 1)
  }

  /** The decision for one visitor, and what is remembered of it. */
  function Admit(v: Option<Visitor>, rate: int, window: int, now: Instant): (Visitor, bool) {
    if v.None? || Sub(now, v.value.lastReset) >= window then (Visitor(FullTokens(rate), now), true)
    else if v.value.tokens > 0 then (v.value.(tokens := v.value.tokens - 1), true)
    else (v.value, false)
  }

  predicate Stale(v: Visitor, window: int, now: Instant) {
    Sub(now, v.lastReset) > Wrap64(2 * window)
  }

  function Swept(vs: Visitors, window: int, now: Instant): Visitors {
    map ip | ip in vs && !Stale(vs[ip], window, now) :: vs[ip]
  }

  class Limiter {
    var visitors: Visitors
    const rate: int
    const window: int

    constructor (rate: int, window: int)
      ensures visitors == map[] && this.rate == rate && this.window == window
    {
      visitors := map[];
      this.rate := rate;
      this.window := window;
    }

    method Allow(ip: string, now: Instant) returns (ok: bool)
      modifies this
      ensures ok == Admit(Lookup(old(visitors), ip), rate, window, now).1
      ensures visitors == old(visitors)[ip := Admit(Lookup(old(visitors), ip), rate, window, now).0]
      ensures ip !in old(visitors) || Sub(now, old(visitors)[ip].lastReset) >= window ==>
        ok && visitors[ip] == Visitor(Wrap64(rate - 1), now)
      ensures ip in old(visitors) && Sub(now, old(visitors)[ip].lastReset) < window ==>
        && (ok <==> old(visitors)[ip].tokens > 0)
        && visitors[ip] == old(visitors)[ip].(tokens := old(visitors)[ip].tokens - if ok then 1 else 0)
    {
      if ip !in visitors || Sub(now, visitors[ip].lastReset) >= window {
        visitors := visitors[ip := Visitor(Wrap64(rate - 1), now)];
        return true;
      }
      if visitors[ip].tokens > 0 {
        visitors := visitors[ip := visitors[ip].(tokens := visitors[ip].tokens - 1)];
        return true;
      }
      assert visitors == visitors[ip := visitors[ip]];
      return false;
    }

    /** One tick of the background sweep. */
    method Sweep(now: Instant)
      modifies this
      ensures forall ip :: ip in visitors <==>
        ip in old(visitors) && Sub(now, old(visitors)[ip].lastReset) <= Wrap64(2 * window)
      ensures forall ip :: ip in visitors ==> visitors[ip] == old(visitors)[ip]
      ensures visitors == Swept(old(visitors), window, now)
    {
      var left := visitors.Keys;
      while left != {}
        invariant left <= visitors.Keys
        invariant visitors.Keys <= old(visitors).Keys
        invariant forall ip :: ip in left ==> visitors[ip] == old(visitors)[ip]
        invariant forall ip :: ip in old(visitors) && ip !in left ==>
          (ip in visitors <==> !Stale(old(visitors)[ip], window, now))
        invariant forall ip :: ip in visitors ==> visitors[ip] == old(visitors)[ip]
        decreases left
      {
        var ip :| ip in left;
        if Sub(now, visitors[ip].lastReset) > Wrap64(2 * window) {
          visitors := visitors - {ip};
        }
        left := left - {ip};
      }
    }
  }

  // ----- Runs: requests and sweeps in any order

  datatype Event = Request(ip: string, now: Instant) | Tick(now: Instant)

  datatype Decision = Decision(ip: string, now: Instant, allowed: bool)

  function VisitorsAfter(rate: int, window: int, events: seq<Event>): Visitors {
    if events == [] then map[]
    else
      var vs := VisitorsAfter(rate, window, events[..|events| - 1]);
      match events[|events| - 1]
      case Request(ip, now) => vs[ip := Admit(Lookup(vs, ip), rate, window, now).0]
      case Tick(now) => Swept(vs, window, now)
  }

  function Decisions(rate: int, window: int, events: seq<Event>): seq<Decision> {
    if events == [] then []
    else
      var front := events[..|events| - 1];
      match events[|events| - 1]
      case Request(ip, now) =>
        var ok := Admit(Lookup(VisitorsAfter(rate, window, front), ip), rate, window, now).1;
        Decisions(rate, window, front) + [Decision(ip, now, ok)]
      case Tick(_) => Decisions(rate, window, front)
  }

  /** The clock never goes back. */
  predicate Timed(events: seq<Event>) {
    forall i, j :: 0 <= i < j < |events| ==> events[i].now <= events[j].now
  }

  function WithoutTicks(events: seq<Event>): seq<Event> {
    if events == [] then []
    else
      var front := WithoutTicks(events[..|events| - 1]);
      if events[|events| - 1].Tick? then front else front + [events[|events| - 1]]
  }

  lemma RunSnoc(rate: int, window: int, events: seq<Event>, e: Event)
    ensures var vs := VisitorsAfter(rate, window, events);
      VisitorsAfter(rate, window, events + [e]) ==
        if e.Tick? then Swept(vs, window, e.now)
        else vs[e.ip := Admit(Lookup(vs, e.ip), rate, window, e.now).0]
    ensures var vs, ds := VisitorsAfter(rate, window, events), Decisions(rate, window, events);
      Decisions(rate, window, events + [e]) ==
        if e.Tick? then ds else ds + [Decision(e.ip, e.now, Admit(Lookup(vs, e.ip), rate, window, e.now).1)]
    ensures WithoutTicks(events + [e]) == if e.Tick? then WithoutTicks(events) else WithoutTicks(events) + [e]
  {
    assert (events + [e])[..|events|] == events;
  }

  // ----- The sweep is invisible

  /** The swept limiter remembers everything the unswept one needs to look at from `now` on. */
  ghost predicate Simulates(swept: Visitors, full: Visitors, window: int, now: Instant) {
    forall ip ::
      || Lookup(swept, ip) == Lookup(full, ip)
      || (ip !in swept && ip in full && Sub(now, full[ip].lastReset) >= window)
  }

  lemma LaterStillStale(v: Visitor, window: int, now: Instant, later: Instant)
    requires now <= later && Sub(now, v.lastReset) >= window
    ensures Sub(later, v.lastReset) >= window
  {
  }

  lemma NotFromTheFuture(rate: int, window: int, events: seq<Event>, now: Instant, ip: string)
    requires forall i :: 0 <= i < |events| ==> events[i].now <= now
    ensures var vs := VisitorsAfter(rate, window, events); ip in vs ==> vs[ip].lastReset <= now
  {
    if events != [] {
      NotFromTheFuture(rate, window, events[..|events| - 1], now, ip);
    }
  }

  lemma SweepSimulates(swept: Visitors, full: Visitors, window: int, now: Instant)
    requires Simulates(swept, full, window, now)
    requires MIN_INT64 <= window < 0x4000_0000_0000_0000
    requires forall ip :: ip in full ==> full[ip].lastReset <= now
    ensures Simulates(Swept(swept, window, now), full, window, now)
  {
    forall ip
      ensures || Lookup(Swept(swept, window, now), ip) == Lookup(full, ip)
              || (ip !in Swept(swept, window, now) && ip in full && Sub(now, full[ip].lastReset) >= window)
    {
      assert Lookup(swept, ip) == Lookup(full, ip) || ip !in swept;
    }
  }

  lemma {:induction false} WithoutTicksShape(events: seq<Event>, now: Instant)
    requires Timed(events) && forall i :: 0 <= i < |events| ==> events[i].now <= now
    ensures var es := WithoutTicks(events);
      TickFree(es) && Timed(es) && forall i :: 0 <= i < |es| ==> es[i].now <= now
  {
    if events != [] {
      WithoutTicksShape(events[..|events| - 1], events[|events| - 1].now);
    }
  }

  lemma RequestSimulates(swept: Visitors, full: Visitors, rate: int, window: int, ip: string, now: Instant)
    requires Simulates(swept, full, window, now)
    ensures Admit(Lookup(swept, ip), rate, window, now) == Admit(Lookup(full, ip), rate, window, now)
    ensures var v := Admit(Lookup(full, ip), rate, window, now).0;
      Simulates(swept[ip := v], full[ip := v], window, now)
  {
    hide Sub;
  }

  lemma WaitingSimulates(swept: Visitors, full: Visitors, window: int, now: Instant, later: Instant)
    requires Simulates(swept, full, window, now) && now <= later
    ensures Simulates(swept, full, window, later)
  {
    forall ip | ip in full && Sub(now, full[ip].lastReset) >= window
      ensures Sub(later, full[ip].lastReset) >= window
    {
      LaterStillStale(full[ip], window, now, later);
    }
    hide Sub;
  }

  lemma {:induction false} SweptRunSimulates(rate: int, window: int, events: seq<Event>, now: Instant)
    requires MIN_INT64 <= window < 0x4000_0000_0000_0000
    requires Timed(events) && forall i :: 0 <= i < |events| ==> events[i].now <= now
    ensures Simulates(VisitorsAfter(rate, window, events), VisitorsAfter(rate, window, WithoutTicks(events)), window, now)
    ensures Decisions(rate, window, events) == Decisions(rate, window, WithoutTicks(events))
  {
    if events != [] {
      hide Simulates, Admit, Swept;
      var front, e := events[..|events| - 1], events[|events| - 1];
      SweptRunSimulates(rate, window, front, e.now);
      var swept, full := VisitorsAfter(rate, window, front), VisitorsAfter(rate, window, WithoutTicks(front));
      match e
      case Request(ip, t) =>
        RunSnoc(rate, window, WithoutTicks(front), e);
        RequestSimulates(swept, full, rate, window, ip, t);
      case Tick(t) =>
        WithoutTicksShape(front, t);
        forall ip ensures ip in full ==> full[ip].lastReset <= t {
          NotFromTheFuture(rate, window, WithoutTicks(front), t, ip);
        }
        SweepSimulates(swept, full, window, t);
      WaitingSimulates(VisitorsAfter(rate, window, events), VisitorsAfter(rate, window, WithoutTicks(events)),
                       window, e.now, now);
    } else {
      assert VisitorsAfter(rate, window, []) == map[];
    }
  }

  /** Sweeps anywhere in the run change no decision. */
  lemma SweepsAreInvisible(rate: int, window: int, events: seq<Event>)
    requires MIN_INT64 <= window < 0x4000_0000_0000_0000
    requires Timed(events)
    ensures Decisions(rate, window, events) == Decisions(rate, window, WithoutTicks(events))
  {
    if events != [] {
      SweptRunSimulates(rate, window, events, events[|events| - 1].now);
    }
  }

  lemma DoubleWraps(window: int)
    requires 0x4000_0000_0000_0000 <= window <= MAX_INT64
    ensures Wrap64(2 * window) < 0
  {
  }

  /** How many requests are allowed from one reset to the next. */
  function Cap(rate: int): (c: nat)
    ensures c >= 1
  {
    if FullTokens(rate) >= 0 then FullTokens(rate) + 1 else 1
  }

  /** That is the rate, if it is at least one.  A lower rate still admits one request, and the
      lowest of all wraps to the largest allowance. */
  lemma CapIs(rate: int)
    requires MIN_INT64 <= rate <= MAX_INT64
    ensures Cap(rate) == if rate >= 1 then rate else if rate > MIN_INT64 then 1 else MAX_INT64 + 1
  {
  }

  lemma SweptToNothing(tokens: int, window: int)
    requires 0x4000_0000_0000_0000 <= window <= MAX_INT64
    ensures Swept(map["a" := Visitor(tokens, 0)], window, 0) == map[]
  {
    hide Wrap64;
    DoubleWraps(window);
  }

  /** `n` requests of one IP at one instant. */
  function Burst(n: nat): seq<Event> {
    seq(n, i => Request("a", 0))
  }

  lemma {:induction false} NothingToSweep(events: seq<Event>)
    requires TickFree(events)
    ensures WithoutTicks(events) == events
  {
    if events != [] {
      NothingToSweep(events[..|events| - 1]);
    }
  }

  /** The first `Cap(rate)` of them use the allowance up. */
  lemma {:induction false} BurstSpends(rate: int, window: int, n: nat)
    requires window > 0 && 1 <= n <= Cap(rate)
    ensures VisitorsAfter(rate, window, Burst(n)) == map["a" := Visitor(FullTokens(rate) - (n - 1), 0)]
  {
    hide VisitorsAfter, Decisions, WithoutTicks, Wrap64;
    RunSnoc(rate, window, Burst(n - 1), Request("a", 0));
    assert Burst(n) == Burst(n - 1) + [Request("a", 0)];
    if n == 1 {
      NothingYet(rate, window);
    } else {
      BurstSpends(rate, window, n - 1);
    }
  }

  lemma NothingYet(rate: int, window: int)
    ensures VisitorsAfter(rate, window, []) == map[]
  {
  }

  /** As many requests as are allowed, a sweep, and one request more. */
  function BurstAroundTick(rate: int): seq<Event> {
    Burst(Cap(rate)) + [Tick(0)] + [Request("a", 0)]
  }

  lemma AllUsedUp(rate: int, window: int)
    requires window > 0
    ensures !Admit(Some(Visitor(FullTokens(rate) - (Cap(rate) - 1), 0)), rate, window, 0).1 && Admit(None, rate, window, 0).1
  {
  }

  lemma WithoutTheSweep(rate: int, window: int)
    requires window > 0
    ensures var burst, r := Burst(Cap(rate)), Request("a", 0);
      Decisions(rate, window, burst + [r]) == Decisions(rate, window, burst) + [Decision("a", 0, false)]
  {
    BurstSpends(rate, window, Cap(rate));
    AllUsedUp(rate, window);
    RunSnoc(rate, window, Burst(Cap(rate)), Request("a", 0));
    hide *;
  }

  lemma WithTheSweep(rate: int, window: int)
    requires 0x4000_0000_0000_0000 <= window <= MAX_INT64
    ensures var burst := Burst(Cap(rate));
      Decisions(rate, window, BurstAroundTick(rate)) == Decisions(rate, window, burst) + [Decision("a", 0, true)]
  {
    hide Admit, Swept, VisitorsAfter, Decisions, WithoutTicks, Burst, Cap;
    var burst := Burst(Cap(rate));
    BurstSpends(rate, window, Cap(rate));
    SweptToNothing(FullTokens(rate) - (Cap(rate) - 1), window);
    AllUsedUp(rate, window);
    RunSnoc(rate, window, burst, Tick(0));
    RunSnoc(rate, window, burst + [Tick(0)], Request("a", 0));
  }

  lemma BurstWithoutTick(rate: int)
    ensures WithoutTicks(BurstAroundTick(rate)) == Burst(Cap(rate)) + [Request("a", 0)]
  {
    var burst := Burst(Cap(rate));
    NothingToSweep(burst);
    hide WithoutTicks, Burst, Cap, VisitorsAfter, Decisions, Admit, Swept, TickFree;
    RunSnoc(rate, 1, burst, Tick(0));
    RunSnoc(rate, 1, burst + [Tick(0)], Request("a", 0));
  }

  lemma BurstIsTimed(rate: int)
    ensures Timed(BurstAroundTick(rate))
  {
  }

  /** For longer windows 2*window overflows: at every rate, a sweep lets a request through that
      is denied without it. */
  lemma OverflowingWindowShows(rate: int, window: int)
    requires 0x4000_0000_0000_0000 <= window <= MAX_INT64
    ensures var events := BurstAroundTick(rate);
      Timed(events) && Decisions(rate, window, events) != Decisions(rate, window, WithoutTicks(events))
  {
    hide *;
    BurstWithoutTick(rate);
    BurstIsTimed(rate);
    WithTheSweep(rate, window);
    WithoutTheSweep(rate, window);
    var ds, events := Decisions(rate, window, Burst(Cap(rate))), BurstAroundTick(rate);
    assert Decisions(rate, window, events)[|ds|] != Decisions(rate, window, WithoutTicks(events))[|ds|];
  }

  ghost predicate SweepsNeverShow(rate: int, window: int) {
    forall events :: Timed(events) ==> Decisions(rate, window, events) == Decisions(rate, window, WithoutTicks(events))
  }

  /** At every rate, sweeps are invisible in all runs if and only if the window is below 2^62. */
  lemma SweepsInvisibleIffWindowFits(rate: int, window: int)
    requires MIN_INT64 <= window <= MAX_INT64
    ensures SweepsNeverShow(rate, window) <==> window < 0x4000_0000_0000_0000
  {
    hide Decisions, WithoutTicks, Timed;
    if window < 0x4000_0000_0000_0000 {
      forall events | Timed(events)
        ensures Decisions(rate, window, events) == Decisions(rate, window, WithoutTicks(events))
      {
        SweepsAreInvisible(rate, window, events);
      }
    } else {
      OverflowingWindowShows(rate, window);
    }
  }

  // ----- One visitor alone

  function TimesOf(events: seq<Event>, ip: string): seq<Instant> {
    if events == [] then []
    else
      var e := events[|events| - 1];
      var before := TimesOf(events[..|events| - 1], ip);
      if e.Request? && e.ip == ip then before + [e.now] else before
  }

  /** A visitor's requests: the limiter's memory of it, the times it was allowed, and in that
      list the start of the current epoch (since the last reset) and of the one before. */
  datatype Solo = Solo(v: Option<Visitor>, allowed: seq<Instant>, epoch: nat, previous: nat)

  function SoloStep(s: Solo, rate: int, window: int, now: Instant): Solo {
    var (v, ok) := Admit(s.v, rate, window, now);
    var resets := s.v.None? || Sub(now, s.v.value.lastReset) >= window;
    Solo(Some(v),
         if ok then s.allowed + [now] else s.allowed,
         if resets then |s.allowed| else s.epoch,
         if resets then s.epoch else s.previous)
  }

  function SoloRun(rate: int, window: int, times: seq<Instant>): Solo {
    if times == [] then Solo(None, [], 0, 0)
    else SoloStep(SoloRun(rate, window, times[..|times| - 1]), rate, window, times[|times| - 1])
  }

  /** The times at which `ip` was allowed. */
  function AllowedTimes(ds: seq<Decision>, ip: string): seq<Instant> {
    if ds == [] then []
    else
      var d := ds[|ds| - 1];
      var before := AllowedTimes(ds[..|ds| - 1], ip);
      if d.ip == ip && d.allowed then before + [d.now] else before
  }

  predicate TickFree(events: seq<Event>) {
    forall i :: 0 <= i < |events| ==> events[i].Request?
  }

  /** Visitors do not disturb one another. */
  lemma {:induction false} EachVisitorAlone(rate: int, window: int, events: seq<Event>, ip: string)
    requires TickFree(events)
    ensures var s := SoloRun(rate, window, TimesOf(events, ip));
      && Lookup(VisitorsAfter(rate, window, events), ip) == s.v
      && AllowedTimes(Decisions(rate, window, events), ip) == s.allowed
  {
    if events != [] {
      var front, e := events[..|events| - 1], events[|events| - 1];
      EachVisitorAlone(rate, window, front, ip);
      var ds := Decisions(rate, window, front);
      assert Decisions(rate, window, events)[..|ds|] == ds;
      if e.ip == ip {
        var times := TimesOf(front, ip);
        assert (times + [e.now])[..|times|] == times;
      }
    }
  }

  predicate Sorted(s: seq<int>) {
    forall i, j :: 0 <= i < j < |s| ==> s[i] <= s[j]
  }

  /** More than 2*cap allowances never fit in one window. */
  predicate Spread(allowed: seq<Instant>, cap: nat, window: int) {
    forall i, j :: 0 <= i && i + 2 * cap <= j < |allowed| ==> allowed[j] - allowed[i] >= window
  }

  ghost predicate EpochInv(s: Solo, rate: int, window: int) {
    && Sorted(s.allowed)
    && Spread(s.allowed, Cap(rate), window)
    && (s.v.None? ==> s.allowed == [] && s.epoch == s.previous == 0)
    && (s.v.Some? ==>
          && s.previous <= s.epoch < |s.allowed|
          && s.allowed[s.epoch] == s.v.value.lastReset
          && s.epoch - s.previous <= Cap(rate)
          && |s.allowed| - s.epoch == (if FullTokens(rate) < 0 then 1 else FullTokens(rate) + 1 - s.v.value.tokens)
          && (s.v.value.tokens < 0 <==> FullTokens(rate) < 0)
          && (s.previous == s.epoch ==> s.epoch == 0)
          && (s.previous < s.epoch ==> s.allowed[s.epoch] - s.allowed[s.previous] >= window))
  }

  lemma SpreadSnoc(s: Solo, rate: int, window: int, now: Instant)
    requires EpochInv(s, rate, window)
    requires forall i :: 0 <= i < |s.allowed| ==> s.allowed[i] <= now
    requires s.v.Some? ==> Sub(now, s.v.value.lastReset) >= window || s.v.value.tokens > 0
    ensures Spread(s.allowed + [now], Cap(rate), window)
  {
    var n, cap := |s.allowed|, Cap(rate);
    var longer := s.allowed + [now];
    forall i, j | 0 <= i && i + 2 * cap <= j < |longer|
      ensures longer[j] - longer[i] >= window
    {
      if j == n {
        assert s.allowed[i] <= s.allowed[s.previous];
        assert s.allowed[i] <= s.allowed[s.epoch];
      }
    }
  }

  lemma ResetKeepsEpochs(s: Solo, rate: int, window: int, now: Instant)
    requires EpochInv(s, rate, window)
    requires forall i :: 0 <= i < |s.allowed| ==> s.allowed[i] <= now
    requires s.v.None? || Sub(now, s.v.value.lastReset) >= window
    ensures EpochInv(SoloStep(s, rate, window, now), rate, window)
  {
    SpreadSnoc(s, rate, window, now);
    hide Spread, Wrap64;
  }

  lemma SpendKeepsEpochs(s: Solo, rate: int, window: int, now: Instant)
    requires EpochInv(s, rate, window)
    requires forall i :: 0 <= i < |s.allowed| ==> s.allowed[i] <= now
    requires s.v.Some? && Sub(now, s.v.value.lastReset) < window
    ensures EpochInv(SoloStep(s, rate, window, now), rate, window)
  {
    if s.v.value.tokens > 0 {
      SpreadSnoc(s, rate, window, now);
    }
    hide Spread, Wrap64;
  }

  lemma StepKeepsEpochs(s: Solo, rate: int, window: int, now: Instant)
    requires EpochInv(s, rate, window)
    requires forall i :: 0 <= i < |s.allowed| ==> s.allowed[i] <= now
    ensures EpochInv(SoloStep(s, rate, window, now), rate, window)
    ensures var s' := SoloStep(s, rate, window, now);
      forall i :: 0 <= i < |s'.allowed| ==> s'.allowed[i] <= now
  {
    if s.v.None? || Sub(now, s.v.value.lastReset) >= window {
      ResetKeepsEpochs(s, rate, window, now);
    } else {
      SpendKeepsEpochs(s, rate, window, now);
    }
    hide EpochInv;
  }

  lemma {:induction false} SoloKeepsEpochs(rate: int, window: int, times: seq<Instant>, now: Instant)
    requires Sorted(times) && forall i :: 0 <= i < |times| ==> times[i] <= now
    ensures var s := SoloRun(rate, window, times);
      EpochInv(s, rate, window) && forall i :: 0 <= i < |s.allowed| ==> s.allowed[i] <= now
  {
    if times != [] {
      hide EpochInv, SoloStep;
      var last := times[|times| - 1];
      SoloKeepsEpochs(rate, window, times[..|times| - 1], last);
      StepKeepsEpochs(SoloRun(rate, window, times[..|times| - 1]), rate, window, last);
    } else {
      assert EpochInv(Solo(None, [], 0, 0), rate, window);
    }
  }

  lemma {:induction false} TimesSorted(events: seq<Event>, ip: string, now: Instant)
    requires Timed(events) && forall i :: 0 <= i < |events| ==> events[i].now <= now
    ensures Sorted(TimesOf(events, ip)) && forall i :: 0 <= i < |TimesOf(events, ip)| ==> TimesOf(events, ip)[i] <= now
  {
    if events != [] {
      TimesSorted(events[..|events| - 1], ip, events[|events| - 1].now);
    }
  }

  // ----- The sliding-window bound

  predicate InWindow(t: Instant, start: Instant, window: int) {
    start <= t < start + window
  }

  function CountIn(ts: seq<Instant>, start: Instant, window: int): nat {
    if ts == [] then 0
    else CountIn(ts[..|ts| - 1], start, window) + if InWindow(ts[|ts| - 1], start, window) then 1 else 0
  }

  lemma {:induction false} CountBetween(ts: seq<Instant>, start: Instant, window: int, a: nat, b: nat)
    requires a <= b
    requires forall i :: 0 <= i < |ts| && InWindow(ts[i], start, window) ==> a <= i < b
    ensures CountIn(ts, start, window) <= b - a
  {
    if ts != [] {
      var n := |ts| - 1;
      CountBetween(ts[..n], start, window, a, if InWindow(ts[n], start, window) then n else b);
    }
  }

  /** If the last allowance is in the window, so are at most the 2*cap - 1 before it. */
  lemma WindowEndsHere(ts: seq<Instant>, cap: nat, start: Instant, window: int, i: nat)
    requires Sorted(ts) && Spread(ts, cap, window)
    requires i < |ts| && InWindow(ts[i], start, window) && InWindow(ts[|ts| - 1], start, window)
    ensures |ts| - 2 * cap <= i
  {
  }

  lemma {:induction false} SpreadBoundsCount(ts: seq<Instant>, cap: nat, start: Instant, window: int)
    requires Sorted(ts) && Spread(ts, cap, window)
    ensures CountIn(ts, start, window) <= 2 * cap
  {
    if ts != [] {
      var n := |ts| - 1;
      if InWindow(ts[n], start, window) {
        forall i: nat | i < |ts| && InWindow(ts[i], start, window)
          ensures n + 1 - 2 * cap <= i
        {
          WindowEndsHere(ts, cap, start, window, i);
        }
        hide Sorted, Spread;
        CountBetween(ts, start, window, if n + 1 >= 2 * cap then n + 1 - 2 * cap else 0, n + 1);
      } else {
        SpreadFront(ts, cap, window);
        SpreadBoundsCount(ts[..n], cap, start, window);
      }
    }
  }

  lemma SpreadFront(ts: seq<Instant>, cap: nat, window: int)
    requires ts != [] && Spread(ts, cap, window)
    ensures Spread(ts[..|ts| - 1], cap, window)
  {
  }

  /** In every run, with sweeps anywhere, each half-open interval one window long holds at
      most twice `rate` allowed requests of an IP. */
  lemma AtMostTwiceRatePerWindow(rate: int, window: int, events: seq<Event>, ip: string, start: Instant)
    requires MIN_INT64 <= window < 0x4000_0000_0000_0000
    requires Timed(events)
    ensures CountIn(AllowedTimes(Decisions(rate, window, events), ip), start, window) <= 2 * Cap(rate)
  {
    if events != [] {
      var es, now := WithoutTicks(events), events[|events| - 1].now;
      SweepsAreInvisible(rate, window, events);
      WithoutTicksShape(events, now);
      EachVisitorAlone(rate, window, es, ip);
      TimesSorted(es, ip, now);
      SoloKeepsEpochs(rate, window, TimesOf(es, ip), now);
      SpreadBoundsCount(SoloRun(rate, window, TimesOf(es, ip)).allowed, Cap(rate), start, window);
    }
  }

  ghost predicate AtMostTwiceRate(rate: int, window: int) {
    forall events, ip, start :: Timed(events) ==>
      CountIn(AllowedTimes(Decisions(rate, window, events), ip), start, window) <= 2 * rate
  }

  lemma AllowedSnoc(ds: seq<Decision>, d: Decision, ip: string)
    ensures AllowedTimes(ds + [d], ip) ==
      if d.ip == ip && d.allowed then AllowedTimes(ds, ip) + [d.now] else AllowedTimes(ds, ip)
  {
    assert (ds + [d])[..|ds|] == ds;
  }

  lemma CountSnoc(ts: seq<Instant>, t: Instant, start: Instant, window: int)
    ensures CountIn(ts + [t], start, window) == CountIn(ts, start, window) + if InWindow(t, start, window) then 1 else 0
  {
    assert (ts + [t])[..|ts|] == ts;
  }

  lemma {:induction false} EmptyWindow(ts: seq<Instant>, start: Instant, window: int)
    requires window <= 0
    ensures CountIn(ts, start, window) == 0
  {
    if ts != [] {
      EmptyWindow(ts[..|ts| - 1], start, window);
    }
  }

  /** How often the IP of `Burst` is allowed in the window that starts with it. */
  function Allowances(rate: int, window: int, events: seq<Event>): nat {
    CountIn(AllowedTimes(Decisions(rate, window, events), "a"), 0, window)
  }

  lemma NothingAllowed(rate: int, window: int)
    ensures Allowances(rate, window, []) == 0
  {
  }

  /** A request that meets no memory of its IP is allowed. */
  lemma NewcomerIsAllowed(rate: int, window: int, events: seq<Event>)
    requires window > 0 && VisitorsAfter(rate, window, events) == map[]
    ensures var longer, r := events + [Request("a", 0)], Visitor(FullTokens(rate), 0);
      && Allowances(rate, window, longer) == Allowances(rate, window, events) + 1
      && VisitorsAfter(rate, window, longer) == map["a" := r]
  {
    var d := Decision("a", 0, true);
    assert Admit(None, rate, window, 0) == (Visitor(FullTokens(rate), 0), true);
    hide VisitorsAfter, Decisions, WithoutTicks, Admit, FullTokens, AllowedTimes, CountIn;
    RunSnoc(rate, window, events, Request("a", 0));
    AllowedSnoc(Decisions(rate, window, events), d, "a");
    CountSnoc(AllowedTimes(Decisions(rate, window, events), "a"), 0, 0, window);
  }

  /** Requests, each followed by a sweep. */
  function Rounds(n: nat): seq<Event> {
    if n == 0 then [] else Rounds(n - 1) + [Request("a", 0)] + [Tick(0)]
  }

  lemma {:induction false} RoundsAreTimed(n: nat)
    ensures forall i :: 0 <= i < |Rounds(n)| ==> Rounds(n)[i].now == 0
  {
    if n > 0 {
      RoundsAreTimed(n - 1);
    }
  }

  /** With a window that overflows, every one of them is allowed. */
  lemma {:induction false} RoundsAreAllowed(rate: int, window: int, n: nat)
    requires 0x4000_0000_0000_0000 <= window <= MAX_INT64
    ensures VisitorsAfter(rate, window, Rounds(n)) == map[] && Allowances(rate, window, Rounds(n)) == n
  {
    if n == 0 {
      NothingYet(rate, window);
      NothingAllowed(rate, window);
    } else {
      RoundsAreAllowed(rate, window, n - 1);
      NewcomerIsAllowed(rate, window, Rounds(n - 1));
      SweptToNothing(FullTokens(rate), window);
      RunSnoc(rate, window, Rounds(n - 1) + [Request("a", 0)], Tick(0));
      hide VisitorsAfter, Decisions, WithoutTicks, Swept, FullTokens, AllowedTimes, CountIn;
    }
  }

  lemma OneRequestTooMany(rate: int, window: int)
    requires rate < 1 && window > 0
    ensures !AtMostTwiceRate(rate, window)
  {
    NothingYet(rate, window);
    NothingAllowed(rate, window);
    NewcomerIsAllowed(rate, window, []);
    hide VisitorsAfter, Decisions, WithoutTicks, FullTokens, AllowedTimes, CountIn;
    assert Timed([] + [Request("a", 0)]);
  }

  lemma TooManyRounds(rate: int, window: int)
    requires 0x4000_0000_0000_0000 <= window <= MAX_INT64
    ensures !AtMostTwiceRate(rate, window)
  {
    var n := if rate < 0 then 1 else 2 * rate + 1;
    RoundsAreAllowed(rate, window, n);
    RoundsAreTimed(n);
    hide VisitorsAfter, Decisions, WithoutTicks, FullTokens, AllowedTimes, CountIn, Rounds;
    assert Timed(Rounds(n));
  }

  lemma NothingTooMany(rate: int, window: int)
    requires rate < 0
    ensures !AtMostTwiceRate(rate, window)
  {
    assert Timed([]);
    assert CountIn(AllowedTimes(Decisions(rate, window, []), "a"), 0, window) > 2 * rate;
  }

  /** Windows hold at most twice `rate` allowed requests of an IP, in all runs, if and only if
      the rate is at least one and the window below 2^62; a window of no length holds none. */
  lemma TwiceRateIff(rate: int, window: int)
    requires MIN_INT64 <= rate <= MAX_INT64 && MIN_INT64 <= window <= MAX_INT64
    ensures AtMostTwiceRate(rate, window) <==>
      if window > 0 then rate >= 1 && window < 0x4000_0000_0000_0000 else rate >= 0
  {
    hide Decisions, Timed, Cap, AllowedTimes, CountIn;
    if window <= 0 && rate >= 0 {
      forall events, ip, start | Timed(events)
        ensures CountIn(AllowedTimes(Decisions(rate, window, events), ip), start, window) <= 2 * rate
      {
        EmptyWindow(AllowedTimes(Decisions(rate, window, events), ip), start, window);
      }
    } else if window <= 0 {
      NothingTooMany(rate, window);
    } else if rate < 1 {
      OneRequestTooMany(rate, window);
    } else if window < 0x4000_0000_0000_0000 {
      CapIs(rate);
      forall events, ip, start | Timed(events)
        ensures CountIn(AllowedTimes(Decisions(rate, window, events), ip), start, window) <= 2 * rate
      {
        AtMostTwiceRatePerWindow(rate, window, events, ip, start);
      }
    } else {
      TooManyRounds(rate, window);
    }
  }

  /** A request is denied exactly when the current epoch, younger than the window, has used up
      its `rate` allowances. */
  lemma DeniedIffUsedUp(rate: int, window: int, times: seq<Instant>, now: Instant)
    requires Sorted(times) && forall i :: 0 <= i < |times| ==> times[i] <= now
    ensures var s := SoloRun(rate, window, times);
      !Admit(s.v, rate, window, now).1 <==>
        && s.v.Some?
        && s.epoch < |s.allowed| && s.allowed[s.epoch] == s.v.value.lastReset
        && Sub(now, s.v.value.lastReset) < window
        && |s.allowed| - s.epoch == Cap(rate)
  {
    SoloKeepsEpochs(rate, window, times, now);
    hide Wrap64, Spread;
  }

  lemma DenialAlone(rate: int, window: int, times: seq<Instant>, now: Instant)
    requires Sorted(times) && forall i :: 0 <= i < |times| ==> times[i] <= now
    ensures var s := SoloRun(rate, window, times);
      !Admit(s.v, rate, window, now).1 ==>
        |s.allowed| >= Cap(rate) && Sub(now, s.allowed[|s.allowed| - Cap(rate)]) < window
  {
    DeniedIffUsedUp(rate, window, times, now);
    hide Admit, Cap, Sub, SoloRun;
  }

  lemma TimedFront(events: seq<Event>, e: Event)
    requires Timed(events + [e])
    ensures Timed(events) && forall i :: 0 <= i < |events| ==> events[i].now <= e.now
  {
    var all := events + [e];
    assert forall i :: 0 <= i < |events| ==> all[i] == events[i];
    assert all[|events|] == e;
  }

  /** So, in every run with sweeps and other visitors, a request is only denied when its IP was
      allowed at least `rate` times less than a window ago: nobody is turned away early. */
  lemma DenialsInRuns(rate: int, window: int, events: seq<Event>, ip: string, now: Instant)
    requires MIN_INT64 <= window < 0x4000_0000_0000_0000
    requires Timed(events + [Request(ip, now)])
    ensures var allowed := AllowedTimes(Decisions(rate, window, events), ip);
      Denies(rate, window, events, Request(ip, now)) ==>
        |allowed| >= Cap(rate) && Sub(now, allowed[|allowed| - Cap(rate)]) < window
  {
    hide *;
    var r := Request(ip, now);
    var es := WithoutTicks(events);
    TimedFront(events, r);
    SweepsAreInvisible(rate, window, events);
    WithoutTicksShape(events, now);
    EachVisitorAlone(rate, window, es, ip);
    TimesSorted(es, ip, now);
    DenialAlone(rate, window, TimesOf(es, ip), now);
    DenialIsUnswept(rate, window, events, r);
    DeniedByAdmit(rate, window, es, r);
  }

  /** The request that follows the events is denied. */
  predicate Denies(rate: int, window: int, events: seq<Event>, r: Event) {
    var ds := Decisions(rate, window, events + [r]);
    |ds| > 0 && !ds[|ds| - 1].allowed
  }

  lemma DenialIsUnswept(rate: int, window: int, events: seq<Event>, r: Event)
    requires MIN_INT64 <= window < 0x4000_0000_0000_0000
    requires Timed(events + [r]) && r.Request?
    ensures Denies(rate, window, events, r) <==> Denies(rate, window, WithoutTicks(events), r)
  {
    SweepsAreInvisible(rate, window, events + [r]);
    RunSnoc(rate, window, events, r);
    hide Decisions, VisitorsAfter, WithoutTicks, Timed;
  }

  lemma DeniedByAdmit(rate: int, window: int, events: seq<Event>, r: Event)
    requires r.Request?
    ensures Denies(rate, window, events, r) <==>
      !Admit(Lookup(VisitorsAfter(rate, window, events), r.ip), rate, window, r.now).1
  {
    RunSnoc(rate, window, events, r);
    hide Decisions, VisitorsAfter, WithoutTicks, Admit, Lookup;
  }
}
