/** When may the decision be trusted until the controller looks again? */
module Stability {
  import opened Calendar
  import opened Schedule

  /** The decision does not change before the deadline. */
  ghost predicate Stable(cfg: Config, now: Instant)
  {
    forall t :: now <= t < Deadline(cfg, now) ==> (Decides(cfg, t) <==> Decides(cfg, now))
  }

  /** What a caller can read off the configuration and the clock: the only risky looks are those
      that reach into a day of the other kind, and a look exactly at the start of a window. */
  ghost predicate Steady(cfg: Config, now: Instant)
  {
    var today, clock := DayOf(now), ClockOf(now);
    if today in cfg.holidays || cfg.forceSleep then true
    else if cfg.forceWake then
      today + 1 in cfg.holidays ==>
        if SkipsToTomorrow(cfg, now) then cfg.startSleep == 0
        else Overnight(cfg) && cfg.startSleep < clock ==> cfg.endSleep == 0
    else if !SkipsToTomorrow(cfg, now) then true
    else
      && (clock == cfg.startSleep && cfg.startSleep != cfg.endSleep ==> Rests(cfg, today))
      && (cfg.startSleep == 0 || (Rests(cfg, today) <==> Rests(cfg, today + 1)))
  }

  lemma SteadyAcrossHolidays(cfg: Config, now: Instant, t: Instant)
    requires DayOf(now) in cfg.holidays && now <= t < Deadline(cfg, now)
    ensures Decides(cfg, t) && Decides(cfg, now)
  {
    SplitIsAt(now);
    SplitIsAt(t);
    assert DayOf(t) in cfg.holidays;
  }

  lemma WithinTwoDays(cfg: Config, now: Instant, t: Instant)
    requires DayOf(now) !in cfg.holidays && now <= t < Deadline(cfg, now)
    ensures DayOf(t) == DayOf(now) || DayOf(t) == DayOf(now) + 1
    ensures DayOf(t) == DayOf(now) ==> ClockOf(now) <= ClockOf(t)
  {
    SplitIsAt(now);
    SplitIsAt(t);
    DeadlineByClock(cfg, now);
  }

  lemma SteadyOnWorkingDay(cfg: Config, now: Instant, t: Instant)
    requires DayOf(now) !in cfg.holidays && Steady(cfg, now) && now <= t < Deadline(cfg, now)
    ensures Decides(cfg, t) <==> Decides(cfg, now)
  {
    DecidesIdeally(cfg, now);
    DecidesIdeally(cfg, t);
    SplitIsAt(now);
    SplitIsAt(t);
    DeadlineByClock(cfg, now);
    WithinTwoDays(cfg, now, t);
  }

  /** An instant at which an unsteady look has become wrong before its deadline. */
  ghost function Spoiler(cfg: Config, now: Instant): Instant
  {
    var today := DayOf(now);
    if cfg.forceWake then At(today + 1, 0)
    else if ClockOf(now) == cfg.startSleep && cfg.startSleep != cfg.endSleep && !Rests(cfg, today) then now + 1
    else if Overnight(cfg) then At(today + 1, cfg.endSleep)
    else At(today + 1, 0)
  }

  lemma UnsteadyIsSpoiled(cfg: Config, now: Instant)
    requires !Steady(cfg, now)
    ensures now <= Spoiler(cfg, now) < Deadline(cfg, now)
    ensures Decides(cfg, Spoiler(cfg, now)) <==> !Decides(cfg, now)
  {
    var t, today := Spoiler(cfg, now), DayOf(now);
    DecidesIdeally(cfg, now);
    DecidesIdeally(cfg, t);
    SplitIsAt(now);
    AtSplits(today + 1, 0);
    AtSplits(today + 1, cfg.endSleep);
    DeadlineByClock(cfg, now);
    if !cfg.forceWake && ClockOf(now) == cfg.startSleep && cfg.startSleep != cfg.endSleep && !Rests(cfg, today) {
      AtSplits(today, ClockOf(now) + 1);
    }
  }

  /** For every configuration and every instant, exactly when the decision holds until the deadline. */
  lemma StableExactlyWhenSteady(cfg: Config, now: Instant)
    ensures Stable(cfg, now) <==> Steady(cfg, now)
  {
    if Steady(cfg, now) {
      forall t | now <= t < Deadline(cfg, now)
        ensures Decides(cfg, t) <==> Decides(cfg, now)
      {
        if DayOf(now) in cfg.holidays {
          SteadyAcrossHolidays(cfg, now, t);
        } else {
          SteadyOnWorkingDay(cfg, now, t);
        }
      }
    } else {
      UnsteadyIsSpoiled(cfg, now);
    }
  }

  /** Overnight windows: any weekdays, any holidays, any look not exactly at the start. */
  lemma OvernightIsStable(cfg: Config, now: Instant)
    requires Overnight(cfg) && Unforced(cfg) && ClockOf(now) != cfg.startSleep
    ensures Stable(cfg, now)
  {
    StableExactlyWhenSteady(cfg, now);
  }

  predicate EveryDay(cfg: Config)
  {
    cfg.holidays == {} && forall w :: 0 <= w < 7 ==> w in cfg.weekdays
  }

  /** All seven weekdays and no holidays: any window. */
  lemma EveryDayIsStable(cfg: Config, now: Instant)
    requires EveryDay(cfg) && Unforced(cfg) && ClockOf(now) != cfg.startSleep
    ensures Stable(cfg, now)
  {
    StableExactlyWhenSteady(cfg, now);
  }

  /** A working week with a window by day: on Friday evening the controller is awake and looks
      again on Saturday at the start, so it is wrong from midnight on. */
  lemma FridayEveningIsNotSteady(cfg: Config, friday: int)
    requires cfg == Config(12 * 60 * MINUTE, 14 * 60 * MINUTE, {1, 2, 3, 4, 5}, {}, false, false)
    requires WeekdayOf(friday) == 5
    ensures !Stable(cfg, At(friday, 18 * 60 * MINUTE))
  {
    var now := At(friday, 18 * 60 * MINUTE);
    AtSplits(friday, 18 * 60 * MINUTE);
    assert !Rests(cfg, friday) && Rests(cfg, friday + 1);
    StableExactlyWhenSteady(cfg, now);
  }
}
