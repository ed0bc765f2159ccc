/** The sleep window around an instant, the decision at that instant, and the wait until the
    controller looks again. */
module Schedule {
  import opened Calendar
  import opened Holidays

  /** What the schedule fields of a KronosApp mean: clock times, Go weekdays, holiday days. */
  datatype Config = Config(
    startSleep: ClockTime, endSleep: ClockTime,
    weekdays: set<int>, holidays: set<int>,
    forceSleep: bool, forceWake: bool)

  datatype Window = Window(start: Instant, end: Instant)

  /** The window the source builds around now: today's clock times, moved by a day when they
      cross midnight. */
  function WindowAround(startSleep: ClockTime, endSleep: ClockTime, now: Instant): Window
  {
    var start, end := At(DayOf(now), startSleep), At(DayOf(now), endSleep);
    if end < start && end < now then Window(start, end + DAY)
    else if end < start && now < end then Window(start - DAY, end)
    else Window(start, end)
  }

  /** The decision of the source at now. */
  predicate Decides(cfg: Config, now: Instant)
  {
    if DayOf(now) in cfg.holidays then true
    else if cfg.forceSleep then true
    else if cfg.forceWake then false
    else
      var window := WindowAround(cfg.startSleep, cfg.endSleep, now);
      WeekdayOf(DayOf(now)) !in cfg.weekdays || (window.start < now && now < window.end)
  }

  function GetRequeueTime(window: Window, now: Instant): int
  {
    var nextRequeue :=
      if now < window.start then window.start
      else if window.start < now && now < window.end then window.end
      else window.start + DAY;
    nextRequeue - now
  }

  /** The wait that Reconcile picks at now. */
  ghost function Wait(cfg: Config, now: Instant): int
  {
    if DayOf(now) in cfg.holidays then At(FirstFree(cfg.holidays, DayOf(now)), 0) - now
    else GetRequeueTime(WindowAround(cfg.startSleep, cfg.endSleep, now), now)
  }

  ghost function Deadline(cfg: Config, now: Instant): Instant { now + Wait(cfg, now) }

  // ---- the schedule a reader of the documentation expects ----

  /** The clock time lies strictly inside the sleep window of a cyclic day. */
  predicate InWindow(cfg: Config, clock: int)
  {
    if cfg.startSleep <= cfg.endSleep then cfg.startSleep < clock < cfg.endSleep
    else cfg.startSleep < clock || clock < cfg.endSleep
  }

  /** A day on which the objects sleep all day long. */
  predicate Rests(cfg: Config, day: int)
  {
    day in cfg.holidays || WeekdayOf(day) !in cfg.weekdays
  }

  /** The ideal schedule: no window arithmetic, only the day and the clock time. */
  predicate Ideal(cfg: Config, t: Instant)
  {
    if cfg.forceSleep then true
    else if cfg.forceWake then DayOf(t) in cfg.holidays
    else Rests(cfg, DayOf(t)) || InWindow(cfg, ClockOf(t))
  }

  predicate Overnight(cfg: Config) { cfg.endSleep < cfg.startSleep }

  predicate Unforced(cfg: Config) { !cfg.forceSleep && !cfg.forceWake }

  /** The comparison against the normalised window is the ideal schedule, at every instant. */
  lemma DecidesIdeally(cfg: Config, now: Instant)
    ensures Decides(cfg, now) <==> Ideal(cfg, now)
  {
    SplitIsAt(now);
  }

  /** The window always has today's or yesterday's start, and never ends before it starts
      unless now is exactly the end. */
  lemma WindowShape(cfg: Config, now: Instant)
    ensures var w := WindowAround(cfg.startSleep, cfg.endSleep, now);
            && ClockOf(w.start) == cfg.startSleep && ClockOf(w.end) == cfg.endSleep
            && (w.end < w.start <==> Overnight(cfg) && ClockOf(now) == cfg.endSleep)
            && w.end - w.start < DAY
  {
    var day := DayOf(now);
    SplitIsAt(now);
    AtSplits(day, cfg.startSleep);
    AtSplits(day - 1, cfg.startSleep);
    AtSplits(day, cfg.endSleep);
    AtSplits(day + 1, cfg.endSleep);
  }

  /** The third branch of the requeue choice: the next look is at tomorrow's start. */
  predicate SkipsToTomorrow(cfg: Config, now: Instant)
  {
    ClockOf(now) == cfg.startSleep || (cfg.startSleep <= cfg.endSleep <= ClockOf(now))
  }

  /** The deadline of a working day by clock times alone. */
  lemma DeadlineByClock(cfg: Config, now: Instant)
    requires DayOf(now) !in cfg.holidays
    ensures var day, clock := DayOf(now), ClockOf(now);
            Deadline(cfg, now) ==
            if SkipsToTomorrow(cfg, now) then At(day + 1, cfg.startSleep)
            else if Overnight(cfg) && cfg.startSleep < clock then At(day + 1, cfg.endSleep)
            else if clock < cfg.startSleep && !(Overnight(cfg) && clock < cfg.endSleep) then At(day, cfg.startSleep)
            else At(day, cfg.endSleep)
  {
    SplitIsAt(now);
  }

  /** Every wait is positive and at most a day, or a day per holiday listed. */
  lemma WaitMakesProgress(cfg: Config, now: Instant)
    ensures 0 < Wait(cfg, now)
    ensures DayOf(now) !in cfg.holidays ==> Wait(cfg, now) <= 86_400_000_000_000
    ensures DayOf(now) in cfg.holidays ==> Wait(cfg, now) <= 86_400_000_000_000 * |cfg.holidays|
  {
    SplitIsAt(now);
    if DayOf(now) in cfg.holidays {
      WaitBounds(cfg.holidays, now);
    }
  }

  predicate AtBoundary(cfg: Config, t: Instant)
  {
    ClockOf(t) == cfg.startSleep || ClockOf(t) == cfg.endSleep
  }

  ghost predicate NextBoundary(cfg: Config, now: Instant, t: Instant)
  {
    now < t && AtBoundary(cfg, t) && forall u :: now < u < t ==> !AtBoundary(cfg, u)
  }

  /** On a working day the controller looks again at the very next start or end of a window,
      except when it looks exactly at the start of a window that has an end of its own. */
  lemma RequeueIsNextBoundary(cfg: Config, now: Instant)
    requires DayOf(now) !in cfg.holidays
    ensures NextBoundary(cfg, now, Deadline(cfg, now))
            <==> ClockOf(now) != cfg.startSleep || cfg.startSleep == cfg.endSleep
  {
    var day, deadline := DayOf(now), Deadline(cfg, now);
    SplitIsAt(now);
    DeadlineByClock(cfg, now);
    AtSplits(DayOf(deadline), cfg.startSleep);
    AtSplits(DayOf(deadline), cfg.endSleep);
    if ClockOf(now) == cfg.startSleep && cfg.startSleep != cfg.endSleep {
      var missed := if cfg.startSleep < cfg.endSleep then At(day, cfg.endSleep) else At(day + 1, cfg.endSleep);
      AtSplits(day, cfg.endSleep);
      AtSplits(day + 1, cfg.endSleep);
      assert now < missed < deadline && AtBoundary(cfg, missed);
    } else {
      AtSplits(day + 1, cfg.startSleep);
      AtSplits(day + 1, cfg.endSleep);
      AtSplits(day, cfg.startSleep);
      AtSplits(day, cfg.endSleep);
      forall u | now < u < deadline
        ensures !AtBoundary(cfg, u)
      {
        SplitIsAt(u);
        assert DayOf(u) == day || DayOf(u) == day + 1;
      }
    }
  }
}
