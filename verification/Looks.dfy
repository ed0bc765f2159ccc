/** The endless chain of looks: each one fires a little after the deadline of the one before. */
module Looks {
  import opened Calendar
  import opened Holidays
  import opened Schedule
  import opened Stability

  /** The instants at which the controller looks. */
  type Chain = nat -> Instant

  ghost predicate Punctual(cfg: Config, chain: Chain, latency: int)
  {
    forall i, j :: j == i + 1 ==> Deadline(cfg, chain(i)) < chain(j) <= Deadline(cfg, chain(i)) + latency
  }

  lemma LooksAdvance(cfg: Config, chain: Chain, latency: int, i: nat)
    requires Punctual(cfg, chain, latency)
    ensures chain(i) < Deadline(cfg, chain(i)) < chain(i + 1)
  {
    WaitMakesProgress(cfg, chain(i));
    var j := i + 1;
    assert Deadline(cfg, chain(i)) < chain(j);
  }

  ghost predicate Advances(chain: Chain) { forall i, j :: j == i + 1 ==> chain(i) < chain(j) }

  lemma PunctualAdvances(cfg: Config, chain: Chain, latency: int)
    requires Punctual(cfg, chain, latency)
    ensures Advances(chain)
  {
    forall i: nat, j: nat | j == i + 1
      ensures chain(i) < chain(j)
    {
      LooksAdvance(cfg, chain, latency, i);
    }
  }

  /** The decision of this look is in force at t: it is the last look not after t. */
  ghost predicate InForce(chain: Chain, t: Instant, look: nat)
  {
    chain(look) <= t < chain(look + 1)
  }

  lemma {:induction false} LastLookBefore(chain: Chain, t: Instant, i: nat) returns (look: nat)
    requires Advances(chain) && chain(i) <= t
    ensures i <= look && InForce(chain, t, look)
    decreases t - chain(i)
  {
    var next := i + 1;
    assert chain(i) < chain(next);
    if t < chain(next) {
      look := i;
    } else {
      look := LastLookBefore(chain, t, next);
    }
  }

  lemma {:induction false} ChainIncreases(chain: Chain, i: nat, j: nat)
    requires Advances(chain) && i <= j
    ensures chain(i) <= chain(j)
    decreases j - i
  {
    if i < j {
      var next := i + 1;
      assert chain(i) < chain(next);
      ChainIncreases(chain, next, j);
    }
  }

  /** At every instant exactly one look is in force. */
  lemma OneInForce(chain: Chain, t: Instant) returns (look: nat)
    requires Advances(chain) && chain(0) <= t
    ensures InForce(chain, t, look)
    ensures forall other :: InForce(chain, t, other) ==> other == look
  {
    look := LastLookBefore(chain, t, 0);
    forall other: nat | InForce(chain, t, other)
      ensures other == look
    {
      if other < look {
        ChainIncreases(chain, other + 1, look);
      } else if look < other {
        ChainIncreases(chain, look + 1, other);
      }
    }
  }

  /** An instant at which the ideal schedule may change. */
  ghost predicate ChangePoint(cfg: Config, t: Instant)
  {
    AtBoundary(cfg, t) || (ClockOf(t) == 0 && DayOf(t) !in cfg.holidays && DayOf(t) - 1 in cfg.holidays)
  }

  lemma DeadlinesAreChangePoints(cfg: Config, now: Instant)
    ensures ChangePoint(cfg, Deadline(cfg, now))
    ensures var deadline := Deadline(cfg, now);
            || ClockOf(deadline) in {cfg.startSleep, cfg.endSleep}
            || (ClockOf(deadline) == 0 && DayOf(deadline) !in cfg.holidays && DayOf(deadline) - 1 in cfg.holidays)
  {
    var today := DayOf(now);
    if today in cfg.holidays {
      var free := FirstFree(cfg.holidays, today);
      AtSplits(free, 0);
      assert today < free - 1 ==> free - 1 in cfg.holidays;
    } else {
      DeadlineByClock(cfg, now);
      AtSplits(today, cfg.startSleep);
      AtSplits(today, cfg.endSleep);
      AtSplits(today + 1, cfg.startSleep);
      AtSplits(today + 1, cfg.endSleep);
    }
  }

  /** The decision in force at t is the ideal one, unless t is at most the latency after a change point. */
  lemma DecisionFollowsIdeal(cfg: Config, chain: Chain, latency: int, t: Instant, look: nat)
    requires Punctual(cfg, chain, latency) && InForce(chain, t, look) && Stable(cfg, chain(look))
    ensures || (Decides(cfg, chain(look)) <==> Ideal(cfg, t))
            || (ChangePoint(cfg, Deadline(cfg, chain(look)))
                && Deadline(cfg, chain(look)) <= t < Deadline(cfg, chain(look)) + latency)
  {
    var next := look + 1;
    assert chain(next) <= Deadline(cfg, chain(look)) + latency;
    DecidesIdeally(cfg, t);
    DeadlinesAreChangePoints(cfg, chain(look));
  }

  /** No stretch is skipped: whenever the ideal schedule says the same thing for longer than the
      latency, that decision is in force at some moment of the stretch. */
  lemma NoStretchSkipped(cfg: Config, chain: Chain, latency: int, first: Instant, last: Instant, asleep: bool)
    returns (t: Instant, look: nat)
    requires Punctual(cfg, chain, latency) && chain(0) <= first && 0 <= latency < last - first
    requires forall i :: Stable(cfg, chain(i))
    requires forall u :: first <= u < last ==> (Ideal(cfg, u) <==> asleep)
    ensures first <= t < last && InForce(chain, t, look)
    ensures Decides(cfg, chain(look)) <==> asleep
  {
    PunctualAdvances(cfg, chain, latency);
    t := first;
    look := OneInForce(chain, first);
    DecisionFollowsIdeal(cfg, chain, latency, first, look);
    if !(Decides(cfg, chain(look)) <==> asleep) {
      var next := look + 1;
      assert chain(next) <= Deadline(cfg, chain(look)) + latency;
      DecidesIdeally(cfg, chain(next));
      LooksAdvance(cfg, chain, latency, next);
      t, look := chain(next), next;
    }
  }

  /** A latency too short to carry a look from one change point past the end of the wake period. */
  predicate PromptEnough(cfg: Config, latency: int)
  {
    0 <= latency && (cfg.startSleep != cfg.endSleep ==> latency < ClockOf(cfg.startSleep - cfg.endSleep))
  }

  lemma NextLookMissesStart(cfg: Config, now: Instant, next: Instant, latency: int)
    requires Overnight(cfg) || EveryDay(cfg)
    requires cfg.startSleep != cfg.endSleep && PromptEnough(cfg, latency)
    requires Deadline(cfg, now) < next <= Deadline(cfg, now) + latency
    ensures ClockOf(next) != cfg.startSleep
  {
    var deadline := Deadline(cfg, now);
    DeadlinesAreChangePoints(cfg, now);
    SplitIsAt(deadline);
    SplitIsAt(next);
    assert DayOf(deadline) <= DayOf(next) <= DayOf(deadline) + 1;
  }

  /** No look of a prompt chain after the first falls on a start. */
  lemma NeverAtStart(cfg: Config, chain: Chain, latency: int, i: nat)
    requires Overnight(cfg) || EveryDay(cfg)
    requires cfg.startSleep != cfg.endSleep && PromptEnough(cfg, latency)
    requires Punctual(cfg, chain, latency) && i != 0
    ensures ClockOf(chain(i)) != cfg.startSleep
  {
    var previous := i - 1;
    assert chain(i) <= Deadline(cfg, chain(previous)) + latency;
    NextLookMissesStart(cfg, chain(previous), chain(i), latency);
  }

  /** Every look of a prompt chain after the first, and the first one off a start, is steady and may
      be trusted until its deadline. */
  lemma ChainIsStable(cfg: Config, chain: Chain, latency: int, i: nat)
    requires Unforced(cfg) && (Overnight(cfg) || EveryDay(cfg)) && PromptEnough(cfg, latency)
    requires Punctual(cfg, chain, latency) && (i != 0 || ClockOf(chain(0)) != cfg.startSleep)
    ensures Steady(cfg, chain(i)) && Stable(cfg, chain(i))
  {
    if cfg.startSleep != cfg.endSleep && i != 0 {
      NeverAtStart(cfg, chain, latency, i);
    }
    StableExactlyWhenSteady(cfg, chain(i));
  }
}
