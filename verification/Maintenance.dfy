/** Maintenance windows: when a one-shot or recurring window is active, and which checks it
    suppresses. */
module Maintenance {
  import opened Civil
  import opened Text

  datatype CheckConfig = CheckConfig(
    id: string,
    server: string,
    tags: seq<string>,
    failuresToOpen: int,
    successesToResolve: int)

  /** `offset` is the constant offset of the location the start time is written in. */
  datatype Window = Window(
    enabled: bool,
    start: Instant,
    end: Instant,
    offset: int,
    recurring: bool,
    rule: string,
    checkIDs: seq<string>,
    tags: seq<string>,
    servers: seq<string>)

  datatype Occurrence = Occurrence(start: Instant, end: Instant)

  const NoOccurrence := Occurrence(0, 0)

  function Duration(w: Window): int {
    Sub(w.end, w.start)
  }

  function BuildMonthlyOccurrence(y: int, m: int, w: Window): Instant {
    var lastDay := DateOf(DayNumber(y, m + 1, 0)).day;
    var startDay := DateOf(LocalDay(w.start, w.offset)).day;
    var day := if startDay > lastDay then lastDay else startDay;
    At(y, m, day, TimeOfDay(w.start, w.offset), w.offset)
  }

  function CurrentOccurrence(w: Window, now: Instant): Occurrence {
    var duration := Duration(w);
    if now < w.start || duration <= 0 then NoOccurrence
    else
      var nowDay := LocalDay(now, w.offset);
      var today := DateOf(nowDay);
      var clock := TimeOfDay(w.start, w.offset);
      match ToLower(w.rule)
      case "daily" =>
        var occ := At(today.year, today.month, today.day, clock, w.offset);
        var occ' := if occ > now then AddDays(occ, -1, w.offset) else occ;
        Occurrence(occ', occ' + duration)
      case "weekly" =>
        var diff := Weekday(nowDay) - Weekday(LocalDay(w.start, w.offset));
        var daysDiff := if diff < 0 then diff + 7 else diff;
        var occ := At(today.year, today.month, today.day - daysDiff, clock, w.offset);
        var occ' := if occ > now then AddDays(occ, -7, w.offset) else occ;
        Occurrence(occ', occ' + duration)
      case "monthly" =>
        var occ := BuildMonthlyOccurrence(today.year, today.month, w);
        var occ' :=
          if occ > now then
            if today.month - 1 == 0 then BuildMonthlyOccurrence(today.year - 1, 12, w)
            else BuildMonthlyOccurrence(today.year, today.month - 1, w)
          else occ;
        Occurrence(occ', occ' + duration)
      case _ => NoOccurrence
  }

  predicate IsActive(w: Window, now: Instant) {
    if !w.enabled || w.start == 0 || w.end == 0 then false
    else if !w.recurring then w.start <= now < w.end
    else
      var occ := CurrentOccurrence(w, now);
      occ.start != 0 && occ.start <= now < occ.end
  }

  // ----- The schedule a recurring window stands for

  predicate Recognised(w: Window) {
    ToLower(w.rule) in {"daily", "weekly", "monthly"}
  }

  function StartMonth(w: Window): int {
    var d := DateOf(LocalDay(w.start, w.offset));
    MonthIndex(d.year, d.month)
  }

  function Min(a: int, b: int): int {
    if a < b then a else b
  }

  /** The start day, or the last day of a month too short to have it. */
  function ClampedDay(w: Window, mi: int): int {
    Min(DateOf(LocalDay(w.start, w.offset)).day, LengthOf(mi))
  }

  /** The start of occurrence `k`, counted from the window's own start. */
  function KthStart(w: Window, k: nat): Instant
    requires Recognised(w)
  {
    match ToLower(w.rule)
    case "daily" => w.start + Days(k)
    case "weekly" => w.start + Days(7 * k)
    case _ => MonthlyStart(w, StartMonth(w) + k)
  }

  function MonthlyStart(w: Window, mi: int): Instant {
    Days(MonthStart(mi) + ClampedDay(w, mi) - 1) + TimeOfDay(w.start, w.offset) - w.offset
  }

  predicate InOccurrence(w: Window, k: nat, now: Instant)
    requires Recognised(w)
  {
    KthStart(w, k) <= now < KthStart(w, k) + Duration(w)
  }

  // ----- The closed form finds the latest occurrence

  lemma LocalSplit(t: Instant, offset: int)
    ensures t + offset == Days(LocalDay(t, offset)) + TimeOfDay(t, offset)
    ensures 0 <= TimeOfDay(t, offset) < Days(1)
  {
  }

  lemma LengthBounds(y: int, m: int)
    requires 1 <= m <= 12
    ensures LengthOf(MonthIndex(y, m)) == MonthLength(y, m)
    ensures 28 <= MonthLength(y, m) <= 31
  {
    var mi := MonthIndex(y, m);
    assert mi / 12 == y && mi % 12 == m - 1;
  }

  /** The local date of an instant, placed on the month line. */
  lemma LocalDate(t: Instant, offset: int)
    ensures var n, d := LocalDay(t, offset), DateOf(LocalDay(t, offset));
      var mi := MonthIndex(d.year, d.month);
      && d.Valid()
      && mi / 12 == d.year && mi % 12 + 1 == d.month
      && MonthStart(mi) + d.day - 1 == n
      && 1 <= d.day <= LengthOf(mi)
      && DayNumber(d.year, d.month, d.day) == n
  {
    hide DateOf, MonthStart, LengthOf, AddDays;
    DateRoundTrip(LocalDay(t, offset));
    var d := DateOf(LocalDay(t, offset));
    LengthBounds(d.year, d.month);
  }

  lemma MonthIndexSplit(mi: int)
    ensures MonthIndex(mi / 12, mi % 12 + 1) == mi
  {
  }

  /** The day before the first of the next month is the last of this one. */
  lemma LastDayOfMonth(y: int, m: int)
    requires 1 <= m <= 12
    ensures DateOf(DayNumber(y, m + 1, 0)).day == MonthLength(y, m)
  {
    hide DateOf, MonthStart;
    var mi := MonthIndex(y, m);
    assert mi / 12 == y && mi % 12 == m - 1;
    assert MonthIndex(y, m + 1) == mi + 1;
    NextMonth(mi);
    DayRoundTrip(Date(y, m, MonthLength(y, m)));
  }

  /** `buildMonthlyOccurrence` keeps to the month it is asked for, on the start day or on
      that month's last day, at the start's time of day. */
  lemma MonthlyOccurrenceDate(w: Window, y: int, m: int)
    requires 1 <= m <= 12
    ensures var occ := BuildMonthlyOccurrence(y, m, w);
      && DateOf(LocalDay(occ, w.offset)) == Date(y, m, ClampedDay(w, MonthIndex(y, m)))
      && TimeOfDay(occ, w.offset) == TimeOfDay(w.start, w.offset)
  {
    hide DateOf, MonthStart, LengthOf, AddDays;
    LengthBounds(y, m);
    LastDayOfMonth(y, m);
    var mi := MonthIndex(y, m);
    assert mi / 12 == y && mi % 12 == m - 1;
    DateRoundTrip(LocalDay(w.start, w.offset));
    LocalSplit(w.start, w.offset);
    NextMonth(mi);
    var day := ClampedDay(w, mi);
    DayRoundTrip(Date(y, m, day));
    var occ := BuildMonthlyOccurrence(y, m, w);
    AtDay(DayNumber(y, m, day), TimeOfDay(w.start, w.offset), w.offset);
  }

  lemma AtDay(n: int, clock: int, offset: int)
    requires 0 <= clock < Days(1)
    ensures LocalDay(Days(n) + clock - offset, offset) == n
    ensures TimeOfDay(Days(n) + clock - offset, offset) == clock
  {
  }

  lemma MonthlyIsKth(w: Window, mi: int)
    ensures BuildMonthlyOccurrence(mi / 12, mi % 12 + 1, w) == MonthlyStart(w, mi)
  {
    hide DateOf, MonthStart, LengthOf, AddDays;
    LengthBounds(mi / 12, mi % 12 + 1);
    LastDayOfMonth(mi / 12, mi % 12 + 1);
    MonthIndexSplit(mi);
  }

  /** A month's occurrence starts inside that month. */
  lemma MonthlyInMonth(w: Window, mi: int)
    ensures Days(MonthStart(mi)) <= MonthlyStart(w, mi) + w.offset < Days(MonthStart(mi + 1))
  {
    hide DateOf, MonthStart, LengthOf, AddDays;
    LocalDate(w.start, w.offset);
    LocalSplit(w.start, w.offset);
    NextMonth(mi);
  }

  lemma FirstOccurrence(w: Window)
    requires Recognised(w)
    ensures KthStart(w, 0) == w.start
  {
    hide DateOf, MonthStart, LengthOf, AddDays;
    LocalSplit(w.start, w.offset);
    LocalDate(w.start, w.offset);
  }

  lemma StartsIncrease(w: Window, k: nat)
    requires Recognised(w)
    ensures KthStart(w, k) < KthStart(w, k + 1)
  {
    hide DateOf, MonthStart, LengthOf, MonthlyStart, StartMonth;
    MonthlyInMonth(w, StartMonth(w) + k);
    MonthlyInMonth(w, StartMonth(w) + k + 1);
  }

  lemma {:induction false} StartsOrdered(w: Window, j: nat, k: nat)
    requires Recognised(w) && j <= k
    ensures KthStart(w, j) <= KthStart(w, k)
    ensures j < k ==> KthStart(w, j) < KthStart(w, k)
    decreases k - j
  {
    hide KthStart;
    if j < k {
      StartsIncrease(w, j);
      StartsOrdered(w, j + 1, k);
    }
  }

  lemma DailyCandidate(w: Window, now: Instant)
    requires ToLower(w.rule) == "daily" && w.start <= now && w.start < w.end
    ensures var occ := Days(LocalDay(now, w.offset)) + TimeOfDay(w.start, w.offset) - w.offset;
      var occ' := if occ > now then occ - Days(1) else occ;
      CurrentOccurrence(w, now) == Occurrence(occ', occ' + Duration(w))
  {
    hide ToLower, BuildMonthlyOccurrence, Weekday;
    hide DateOf, MonthStart, LengthOf, AddDays, LocalDay, TimeOfDay;
    DateRoundTrip(LocalDay(now, w.offset));
    var occ := Days(LocalDay(now, w.offset)) + TimeOfDay(w.start, w.offset) - w.offset;
    AddDaysIsShift(occ, -1, w.offset);
  }

  lemma DailyLatest(w: Window, now: Instant) returns (k: nat)
    requires ToLower(w.rule) == "daily" && w.start <= now && w.start < w.end
    ensures CurrentOccurrence(w, now) == Occurrence(KthStart(w, k), KthStart(w, k) + Duration(w))
    ensures KthStart(w, k) <= now < KthStart(w, k + 1)
  {
    hide CurrentOccurrence, LocalDay, TimeOfDay;
    var nowDay, startDay := LocalDay(now, w.offset), LocalDay(w.start, w.offset);
    LocalSplit(now, w.offset);
    LocalSplit(w.start, w.offset);
    DailyCandidate(w, now);
    var occ := Days(nowDay) + TimeOfDay(w.start, w.offset) - w.offset;
    k := if occ > now then nowDay - startDay - 1 else nowDay - startDay;
  }

  function DaysBack(nowDay: int, startDay: int): int {
    (Weekday(nowDay) - Weekday(startDay)) % 7
  }

  lemma BackToWeekday(nowDay: int, startDay: int)
    ensures var diff := Weekday(nowDay) - Weekday(startDay);
      DaysBack(nowDay, startDay) == if diff < 0 then diff + 7 else diff
  {
  }

  lemma WeeklyCandidate(w: Window, now: Instant)
    requires ToLower(w.rule) == "weekly" && w.start <= now && w.start < w.end
    ensures var nowDay, startDay := LocalDay(now, w.offset), LocalDay(w.start, w.offset);
      var occ := Days(nowDay - DaysBack(nowDay, startDay)) + TimeOfDay(w.start, w.offset) - w.offset;
      var occ' := if occ > now then occ - Days(7) else occ;
      CurrentOccurrence(w, now) == Occurrence(occ', occ' + Duration(w))
  {
    hide ToLower;
    hide DateOf, MonthStart, LengthOf, AddDays, LocalDay, TimeOfDay, Weekday, DaysBack;
    var nowDay, startDay := LocalDay(now, w.offset), LocalDay(w.start, w.offset);
    DateRoundTrip(nowDay);
    BackToWeekday(nowDay, startDay);
    var back := DaysBack(nowDay, startDay);
    var today := DateOf(nowDay);
    assert DayNumber(today.year, today.month, today.day - back) == nowDay - back;
    var occ := Days(nowDay - back) + TimeOfDay(w.start, w.offset) - w.offset;
    AddDaysIsShift(occ, -7, w.offset);
  }

  lemma WeeklyLatest(w: Window, now: Instant) returns (k: nat)
    requires ToLower(w.rule) == "weekly" && w.start <= now && w.start < w.end
    ensures CurrentOccurrence(w, now) == Occurrence(KthStart(w, k), KthStart(w, k) + Duration(w))
    ensures KthStart(w, k) <= now < KthStart(w, k + 1)
  {
    hide CurrentOccurrence, LocalDay, TimeOfDay, DaysBack;
    var nowDay, startDay := LocalDay(now, w.offset), LocalDay(w.start, w.offset);
    LocalSplit(now, w.offset);
    LocalSplit(w.start, w.offset);
    WeeklyCandidate(w, now);
    var weeks := WholeWeeks(nowDay, startDay);
    var occ := Days(nowDay - DaysBack(nowDay, startDay)) + TimeOfDay(w.start, w.offset) - w.offset;
    k := if occ > now then weeks - 1 else weeks;
  }

  /** `Day() - daysDiff`, which may be zero or negative, is the same weekday a whole number
      of weeks after the start. */
  lemma WholeWeeks(nowDay: int, startDay: int) returns (weeks: nat)
    requires startDay <= nowDay
    ensures 0 <= DaysBack(nowDay, startDay) < 7
    ensures nowDay - DaysBack(nowDay, startDay) == startDay + 7 * weeks
  {
    weeks := (nowDay - startDay) / 7;
  }

  lemma MonthlyCandidate(w: Window, now: Instant)
    requires ToLower(w.rule) == "monthly" && w.start <= now && w.start < w.end
    ensures var today := DateOf(LocalDay(now, w.offset));
      var mi := MonthIndex(today.year, today.month);
      var occ := MonthlyStart(w, mi);
      var occ' := if occ > now then MonthlyStart(w, mi - 1) else occ;
      CurrentOccurrence(w, now) == Occurrence(occ', occ' + Duration(w))
  {
    hide ToLower;
    hide DateOf, MonthStart, LengthOf, MonthlyStart, BuildMonthlyOccurrence, LocalDay, TimeOfDay;
    var today := DateOf(LocalDay(now, w.offset));
    var mi := MonthIndex(today.year, today.month);
    LocalDate(now, w.offset);
    MonthlyIsKth(w, mi);
    MonthlyIsKth(w, mi - 1);
    PreviousMonth(today.year, today.month);
  }

  lemma MonthlyLatest(w: Window, now: Instant) returns (k: nat)
    requires ToLower(w.rule) == "monthly" && w.start <= now && w.start < w.end
    ensures CurrentOccurrence(w, now) == Occurrence(KthStart(w, k), KthStart(w, k) + Duration(w))
    ensures KthStart(w, k) <= now < KthStart(w, k + 1)
  {
    hide CurrentOccurrence, DateOf, MonthStart, LengthOf, MonthlyStart, StartMonth, LocalDay, TimeOfDay;
    var today := DateOf(LocalDay(now, w.offset));
    var mi, mi0 := MonthIndex(today.year, today.month), StartMonth(w);
    LocalDate(now, w.offset);
    LocalSplit(now, w.offset);
    FirstOccurrence(w);
    MonthOrder(w, now);
    MonthlyCandidate(w, now);
    MonthlyInMonth(w, mi);
    MonthlyInMonth(w, mi + 1);
    MonthlyInMonth(w, mi - 1);
    NextMonth(mi);
    k := if MonthlyStart(w, mi) > now then mi - 1 - mi0 else mi - mi0;
  }

  /** December comes before January. */
  lemma PreviousMonth(y: int, m: int)
    requires 1 <= m <= 12
    ensures var mi := MonthIndex(y, m) - 1;
      (mi / 12, mi % 12 + 1) == if m - 1 == 0 then (y - 1, 12) else (y, m - 1)
  {
  }

  lemma MonthOrder(w: Window, now: Instant)
    requires w.start <= now
    ensures var d := DateOf(LocalDay(now, w.offset)); StartMonth(w) <= MonthIndex(d.year, d.month)
  {
    hide DateOf, MonthStart, LengthOf, AddDays;
    LocalDate(w.start, w.offset);
    LocalDate(now, w.offset);
    var d := DateOf(LocalDay(now, w.offset));
    var mi := MonthIndex(d.year, d.month);
    if mi < StartMonth(w) {
      MonthsIncrease(mi, StartMonth(w));
    }
  }

  /** From the start on, `currentOccurrence` returns the start of an occurrence of the
      schedule, at or before `now`, and the next occurrence is still to come. */
  lemma CurrentOccurrenceIsLatest(w: Window, now: Instant)
    requires Recognised(w) && w.start <= now && w.start < w.end
    ensures exists k: nat ::
      CurrentOccurrence(w, now) == Occurrence(KthStart(w, k), KthStart(w, k) + Duration(w))
      && KthStart(w, k) <= now < KthStart(w, k + 1)
    ensures forall j: nat :: KthStart(w, j) <= now ==> KthStart(w, j) <= CurrentOccurrence(w, now).start
    ensures w.start <= CurrentOccurrence(w, now).start
  {
    hide CurrentOccurrence, KthStart;
    var k: nat;
    if ToLower(w.rule) == "daily" {
      k := DailyLatest(w, now);
    } else if ToLower(w.rule) == "weekly" {
      k := WeeklyLatest(w, now);
    } else {
      k := MonthlyLatest(w, now);
    }
    FirstOccurrence(w);
    StartsOrdered(w, 0, k);
    forall j: nat | KthStart(w, j) <= now
      ensures KthStart(w, j) <= KthStart(w, k)
    {
      if j <= k {
        StartsOrdered(w, j, k);
      } else {
        StartsOrdered(w, k + 1, j);
      }
    }
  }

  lemma NotYetStarted(w: Window, now: Instant)
    requires now < w.start
    ensures CurrentOccurrence(w, now) == NoOccurrence
  {
  }

  /** The closed form decides exactly whether some occurrence contains `now`, also when
      occurrences last longer than the period and overlap.  The exceptions are the zero
      instants the code reads as "not set". */
  lemma ActiveIffInSomeOccurrence(w: Window, now: Instant)
    requires w.enabled && w.recurring && Recognised(w) && w.start < w.end
    ensures IsActive(w, now) <==>
      && w.start != 0 && w.end != 0 && CurrentOccurrence(w, now).start != 0
      && exists k: nat :: InOccurrence(w, k, now)
  {
    hide CurrentOccurrence, KthStart;
    if w.start <= now {
      CurrentOccurrenceIsLatest(w, now);
      var k: nat :|
        CurrentOccurrence(w, now) == Occurrence(KthStart(w, k), KthStart(w, k) + Duration(w));
      assert InOccurrence(w, k, now) <==> now < CurrentOccurrence(w, now).end;
      if j: nat :| InOccurrence(w, j, now) {
        assert KthStart(w, j) <= KthStart(w, k);
      }
    } else {
      NotYetStarted(w, now);
      forall k: nat
        ensures !InOccurrence(w, k, now)
      {
        FirstOccurrence(w);
        StartsOrdered(w, 0, k);
      }
    }
  }

  /** The window is active exactly in its occurrences, at every instant. */
  ghost predicate FollowsSchedule(w: Window)
    requires Recognised(w) && w.start < w.end
  {
    forall now :: IsActive(w, now) <==> exists k: nat :: InOccurrence(w, k, now)
  }

  lemma StartIsInOccurrence(w: Window, k: nat)
    requires Recognised(w) && w.start < w.end
    ensures InOccurrence(w, k, KthStart(w, k))
  {
  }

  /** An occurrence at the zero instant is the current one there, and counts as not set. */
  lemma ZeroStartMissed(w: Window, k: nat)
    requires w.enabled && w.recurring && Recognised(w) && w.start < w.end && KthStart(w, k) == 0
    ensures !IsActive(w, 0) && InOccurrence(w, k, 0)
  {
    hide CurrentOccurrence, IsActive;
    StartIsInOccurrence(w, k);
    ActiveIffInSomeOccurrence(w, 0);
    FirstOccurrence(w);
    StartsOrdered(w, 0, k);
    CurrentOccurrenceIsLatest(w, 0);
  }

  /** A recurring window follows its schedule if and only if it has an end and none of its
      occurrences starts at the zero instant. */
  lemma FollowsScheduleIff(w: Window)
    requires w.enabled && w.recurring && Recognised(w) && w.start < w.end
    ensures FollowsSchedule(w) <==> w.end != 0 && forall k: nat :: KthStart(w, k) != 0
  {
    hide CurrentOccurrence, KthStart, IsActive, InOccurrence;
    if k: nat :| KthStart(w, k) == 0 {
      ZeroStartMissed(w, k);
    } else if w.end == 0 {
      ActiveIffInSomeOccurrence(w, KthStart(w, 0));
      StartIsInOccurrence(w, 0);
    } else {
      forall now
        ensures IsActive(w, now) <==> exists k: nat :: InOccurrence(w, k, now)
      {
        ActiveWithoutZeros(w, now);
      }
    }
  }

  lemma ActiveWithoutZeros(w: Window, now: Instant)
    requires w.enabled && w.recurring && Recognised(w) && w.start < w.end
    requires w.end != 0 && forall k: nat :: KthStart(w, k) != 0
    ensures IsActive(w, now) <==> exists k: nat :: InOccurrence(w, k, now)
  {
    ActiveIffInSomeOccurrence(w, now);
    FirstOccurrence(w);
    hide CurrentOccurrence, KthStart, IsActive;
    if w.start <= now {
      CurrentOccurrenceIsLatest(w, now);
    } else if k: nat :| InOccurrence(w, k, now) {
      StartsOrdered(w, 0, k);
    }
  }

  /** Every window that starts after the zero instant is active exactly in its occurrences. */
  lemma ActiveIffScheduled(w: Window, now: Instant)
    requires w.enabled && w.recurring && Recognised(w) && 0 < w.start < w.end
    ensures IsActive(w, now) <==> exists k: nat :: InOccurrence(w, k, now)
  {
    hide CurrentOccurrence, KthStart;
    ActiveIffInSomeOccurrence(w, now);
    if w.start <= now {
      CurrentOccurrenceIsLatest(w, now);
    } else if k: nat :| InOccurrence(w, k, now) {
      FirstOccurrence(w);
      StartsOrdered(w, 0, k);
    }
  }

  /** Starting a day before the zero instant, a daily window misses the occurrence that
      begins exactly there. */
  lemma ZeroOccurrenceMissed()
    ensures var w := Window(true, -Days(1), -Days(1) + 1, 0, true, "daily", [], [], []);
      !IsActive(w, 0) && Recognised(w) && InOccurrence(w, 1, 0)
  {
    var w := Window(true, -Days(1), -Days(1) + 1, 0, true, "daily", [], [], []);
    assert ToLower(w.rule) == "daily";
    assert KthStart(w, 1) == 0;
    ActiveIffInSomeOccurrence(w, 0);
    CurrentOccurrenceIsLatest(w, 0);
  }

  // ----- All windows

  /** What a window's fields promise: a one-off window lasts from its start to its end, a
      recurring one repeats, and a disabled one, or one with an unknown rule, never is. */
  ghost predicate Promised(w: Window, now: Instant) {
    && w.enabled
    && if w.recurring then Recognised(w) && w.start < w.end && exists k: nat :: InOccurrence(w, k, now)
       else w.start <= now < w.end
  }

  /** No instant that matters to the window is the zero instant. */
  ghost predicate AvoidsZero(w: Window) {
    && w.start != 0 && w.end != 0
    && (w.recurring && Recognised(w) ==> forall k: nat :: KthStart(w, k) != 0)
  }

  /** The window promises nothing, at any instant. */
  predicate NeverPromised(w: Window) {
    !w.enabled || w.start >= w.end || (w.recurring && !Recognised(w))
  }

  lemma NeverPromisedNeverActive(w: Window, now: Instant)
    requires NeverPromised(w)
    ensures !IsActive(w, now) && !Promised(w, now)
  {
  }

  lemma OneOffFollows(w: Window)
    requires w.enabled && !w.recurring && w.start < w.end
    ensures (forall now :: IsActive(w, now) <==> Promised(w, now)) <==> w.start != 0 && w.end != 0
  {
    if w.start == 0 || w.end == 0 {
      assert Promised(w, w.start) && !IsActive(w, w.start);
    }
  }

  /** Every window, one-off or recurring, is active exactly when it promises to be, at every
      instant, if and only if it promises nothing or avoids the zero instant. */
  lemma ActiveIffPromised(w: Window)
    ensures (forall now :: IsActive(w, now) <==> Promised(w, now)) <==> NeverPromised(w) || AvoidsZero(w)
  {
    if NeverPromised(w) {
      forall now {
        NeverPromisedNeverActive(w, now);
      }
    } else if !w.recurring {
      OneOffFollows(w);
    } else {
      hide IsActive, KthStart, InOccurrence;
      FollowsScheduleIff(w);
      assert FollowsSchedule(w) <==> forall now :: IsActive(w, now) <==> Promised(w, now);
      FirstOccurrence(w);
    }
  }

  // ----- Scope, and the store

  predicate Covers(w: Window, check: CheckConfig) {
    || (w.checkIDs == [] && w.tags == [] && w.servers == [])
    || check.id in w.checkIDs
    || (exists t :: t in w.tags && t in check.tags)
    || check.server in w.servers
  }

  method CoversCheck(w: Window, check: CheckConfig) returns (r: bool)
    ensures r <==>
      || (w.checkIDs == [] && w.tags == [] && w.servers == [])
      || check.id in w.checkIDs
      || (exists t :: t in w.tags && t in check.tags)
      || check.server in w.servers
  {
    if |w.checkIDs| == 0 && |w.tags| == 0 && |w.servers| == 0 {
      return true;
    }
    for i := 0 to |w.checkIDs|
      invariant check.id !in w.checkIDs[..i]
    {
      if w.checkIDs[i] == check.id { return true; }
    }
    if |w.tags| > 0 && |check.tags| > 0 {
      var tagSet: set<string> := {};
      for i := 0 to |check.tags|
        invariant forall t :: t in tagSet <==> t in check.tags[..i]
      {
        tagSet := tagSet + {check.tags[i]};
      }
      assert check.tags[..|check.tags|] == check.tags;
      for i := 0 to |w.tags|
        invariant forall t :: t in w.tags[..i] ==> t !in check.tags
      {
        if w.tags[i] in tagSet { return true; }
      }
    }
    for i := 0 to |w.servers|
      invariant check.server !in w.servers[..i]
    {
      if w.servers[i] == check.server { return true; }
    }
    return false;
  }

  /** A check is suppressed exactly when a window that promises maintenance now names nothing,
      or names the check, one of its tags, or its server. */
  lemma SuppressedAsPromised(windows: seq<Window>, check: CheckConfig, now: Instant)
    requires forall w :: w in windows ==> NeverPromised(w) || AvoidsZero(w)
    ensures Suppressed(windows, check, now) <==>
      exists w :: w in windows && Promised(w, now)
        && (|| (w.checkIDs == [] && w.tags == [] && w.servers == [])
            || check.id in w.checkIDs
            || (exists t :: t in w.tags && t in check.tags)
            || check.server in w.servers)
  {
    forall w | w in windows
      ensures IsActive(w, now) <==> Promised(w, now)
    {
      ActiveIffPromised(w);
    }
    hide IsActive, Promised;
  }

  predicate Suppressed(windows: seq<Window>, check: CheckConfig, now: Instant) {
    exists w :: w in windows && IsActive(w, now) && Covers(w, check)
  }

  predicate Expired(w: Window, cutoff: Instant) {
    !w.recurring && w.end < cutoff
  }

  function WithoutExpired(windows: seq<Window>, cutoff: Instant): seq<Window> {
    if windows == [] then []
    else
      var before, w := WithoutExpired(windows[..|windows| - 1], cutoff), windows[|windows| - 1];
      if Expired(w, cutoff) then before else before + [w]
  }

  lemma {:induction false} WithoutExpiredKeeps(windows: seq<Window>, cutoff: Instant, w: Window)
    ensures w in WithoutExpired(windows, cutoff) <==> w in windows && !Expired(w, cutoff)
  {
    if windows != [] {
      WithoutExpiredKeeps(windows[..|windows| - 1], cutoff, w);
    }
  }

  /** Pruning never changes an answer given from the cutoff on. */
  lemma PruningIsInvisible(windows: seq<Window>, cutoff: Instant, check: CheckConfig, now: Instant)
    requires cutoff <= now
    ensures Suppressed(WithoutExpired(windows, cutoff), check, now) <==> Suppressed(windows, check, now)
  {
    forall w
      ensures w in WithoutExpired(windows, cutoff) && IsActive(w, now) <==> w in windows && IsActive(w, now)
    {
      WithoutExpiredKeeps(windows, cutoff, w);
    }
  }

  class MaintenanceStore {
    var windows: seq<Window>

    constructor ()
      ensures windows == []
    {
      windows := [];
    }

    method IsCheckInMaintenance(check: CheckConfig, now: Instant) returns (r: bool)
      ensures r <==> Suppressed(windows, check, now)
    {
      for i := 0 to |windows|
        invariant !Suppressed(windows[..i], check, now)
      {
        var covers := CoversCheck(windows[i], check);
        if IsActive(windows[i], now) && covers {
          return true;
        }
        assert windows[..i + 1] == windows[..i] + [windows[i]];
      }
      assert windows[..|windows|] == windows;
      return false;
    }

    method PruneExpired(cutoff: Instant) returns (removed: nat)
      modifies this
      ensures windows == WithoutExpired(old(windows), cutoff)
      ensures forall w :: w in windows <==> w in old(windows) && (w.recurring || w.end >= cutoff)
      ensures removed == |old(windows)| - |windows|
    {
      var kept: seq<Window> := [];
      removed := 0;
      for i := 0 to |windows|
        invariant windows == old(windows)
        invariant kept == WithoutExpired(windows[..i], cutoff)
        invariant removed == i - |kept|
      {
        assert windows[..i + 1][..i] == windows[..i];
        if !windows[i].recurring && windows[i].end < cutoff {
          removed := removed + 1;
        } else {
          kept := kept + [windows[i]];
        }
      }
      assert windows[..|windows|] == windows;
      forall w
        ensures w in kept <==> w in windows && (w.recurring || w.end >= cutoff)
      {
        WithoutExpiredKeeps(windows, cutoff, w);
      }
      if removed > 0 {
        windows := kept;
      } else {
        NothingExpired(windows, cutoff);
      }
    }
  }

  lemma {:induction false} NothingExpired(windows: seq<Window>, cutoff: Instant)
    ensures |WithoutExpired(windows, cutoff)| <= |windows|
    ensures |WithoutExpired(windows, cutoff)| == |windows| ==> WithoutExpired(windows, cutoff) == windows
  {
    if windows != [] {
      hide Expired;
      NothingExpired(windows[..|windows| - 1], cutoff);
      assert windows == windows[..|windows| - 1] + [windows[|windows| - 1]];
    }
  }
}
