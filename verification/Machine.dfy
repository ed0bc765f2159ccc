/** The endless chain of reconciles: schedule and ledger together. */
module Machine {
  import opened Wrappers
  import opened Calendar
  import opened Resources
  import opened Passes
  import opened Conservation
  import opened FaultFree
  import opened Outcomes
  import opened Fetch
  import opened Schedule
  import opened Stability
  import opened Looks
  import opened Reconciler
  import opened Values

  /** Reconcile i happens at an instant, finds a world, includes some objects, and ends in a result. */
  datatype Machine = Machine(
    times: nat -> Instant, worlds: nat -> World, included: nat -> Included, results: nat -> Result)

  /** A reconcile to be retried has failed before acting, or its pass ended with an error without
      scaling an object down whose record has not landed. */
  ghost predicate Retried(cfg: Config, now: Instant, w: World, included: Included, w': World)
  {
    || OnlyAsks(w, w')
    || exists mid ::
         && OnlyAsks(w, mid) && ActsFrom(cfg, now, mid, included, w', Retry)
         && (Decides(cfg, now) ==> PassKeeps(mid, SLEEP_ORDER, included))
  }

  /** Reconcile i leads to reconcile j: it acts on the world it finds, and j fires after the wait that
      i asked for, at most the latency late, or is a retry within the backoff. */
  ghost predicate LeadsTo(cfg: Config, m: Machine, latency: int, backoff: int, i: nat, j: nat)
  {
    match m.results(i)
    case RequeueAfter(wait) =>
      && ActsOn(cfg, m.times(i), m.worlds(i), m.included(i), m.worlds(j), RequeueAfter(wait))
      && m.times(i) + wait < m.times(j) <= m.times(i) + wait + latency
    case Retry =>
      && Retried(cfg, m.times(i), m.worlds(i), m.included(i), m.worlds(j))
      && m.times(i) < m.times(j) <= m.times(i) + backoff
    case Stop => false
    case Crash => false
  }

  /** Any calls may fail, and nobody else edits the objects. */
  ghost predicate Reconciles(cfg: Config, m: Machine, latency: int, backoff: int)
  {
    forall i, j :: j == i + 1 ==> LeadsTo(cfg, m, latency, backoff, i, j)
  }

  lemma OneReconcile(cfg: Config, m: Machine, latency: int, backoff: int, i: nat)
    requires Reconciles(cfg, m, latency, backoff)
    ensures LeadsTo(cfg, m, latency, backoff, i, i + 1)
    ensures m.results(i).Retry? || m.results(i) == RequeueAfter(Wait(cfg, m.times(i)))
  {
    var j := i + 1;
    assert LeadsTo(cfg, m, latency, backoff, i, j);
  }

  lemma ReconcilesAdvance(cfg: Config, m: Machine, latency: int, backoff: int)
    requires Reconciles(cfg, m, latency, backoff)
    ensures Advances(m.times)
  {
    forall i: nat, j: nat | j == i + 1
      ensures m.times(i) < m.times(j)
    {
      OneReconcile(cfg, m, latency, backoff, i);
      WaitMakesProgress(cfg, m.times(i));
    }
  }

  /** Without retries the reconciles are a punctual chain of looks. */
  lemma ReconcilesArePunctual(cfg: Config, m: Machine, latency: int, backoff: int)
    requires Reconciles(cfg, m, latency, backoff) && forall i :: m.results(i).RequeueAfter?
    ensures Punctual(cfg, m.times, latency)
  {
    forall i: nat, j: nat | j == i + 1
      ensures Deadline(cfg, m.times(i)) < m.times(j) <= Deadline(cfg, m.times(i)) + latency
    {
      OneReconcile(cfg, m, latency, backoff, i);
    }
  }

  lemma SleepingApplies(w: World, included: Included)
    requires AllGranted(w) && Tidy(w) && Listing(w, included)
    ensures Applied(SleepPass(w, included).world, included, true)
  {
    GrantedSleepPass(w, included);
    var w' := SleepPass(w, included).world;
    forall kind, r | kind in included && r in included[kind]
      ensures Asleep(w', r.key) && Recorded(w'.secret, r.key)
    {
      assert r.key in Keys(included[kind]) && r.key.kind == kind;
    }
  }

  /** A reconcile without failures asks to come back, applies its decision and keeps every original. */
  lemma GrantedAct(cfg: Config, now: Instant, w: World, included: Included, w': World, result: Result)
    requires AllGranted(w) && Tidy(w) && ActsOn(cfg, now, w, included, w', result)
    ensures result == RequeueAfter(Wait(cfg, now))
    ensures AllGranted(w') && Tidy(w') && SameOriginals(w, w') && w'.cluster.Keys == w.cluster.Keys
    ensures Applied(w', included, Decides(cfg, now))
  {
    var mid :| OnlyAsks(w, mid) && ActsFrom(cfg, now, mid, included, w', result);
    var order :| IsKindOrder(order) && Act(cfg, now, mid, included, order) == Acted(w', result);
    AsksKeepTidy(w, mid);
    if Decides(cfg, now) {
      GrantedSleepPass(mid, included);
      SleepPassConserves(mid, included);
      SleepingApplies(mid, included);
    } else {
      GrantedWakePass(mid, order);
      WakePassConserves(mid, order);
    }
    SameThrough(w, mid, w');
  }

  lemma AsksKeepTidy(w: World, mid: World)
    requires AllGranted(w) && Tidy(w) && OnlyAsks(w, mid)
    ensures AllGranted(mid) && Tidy(mid) && SameOriginals(w, mid) && mid.cluster.Keys == w.cluster.Keys
  {}

  /** Whatever fails, a reconcile of the chain keeps every original value. */
  lemma ReconcileKeeps(cfg: Config, m: Machine, latency: int, backoff: int, i: nat)
    requires Reconciles(cfg, m, latency, backoff) && Filed(m.worlds(i).secret)
    ensures var w, w' := m.worlds(i), m.worlds(i + 1);
            Filed(w'.secret) && SameOriginals(w, w') && w'.cluster.Keys == w.cluster.Keys
  {
    var now, w, w', included, result := m.times(i), m.worlds(i), m.worlds(i + 1), m.included(i), m.results(i);
    OneReconcile(cfg, m, latency, backoff, i);
    if !OnlyAsks(w, w') {
      var mid :| && OnlyAsks(w, mid) && ActsFrom(cfg, now, mid, included, w', result)
                 && (result.Retry? && Decides(cfg, now) ==> PassKeeps(mid, SLEEP_ORDER, included));
      var order :| IsKindOrder(order) && Act(cfg, now, mid, included, order) == Acted(w', result);
      if Decides(cfg, now) {
        SleepPassConserves(mid, included);
        if !result.Retry? {
          FinishedPass(mid, included);
        }
      } else {
        WakePassConserves(mid, order);
      }
      SameThrough(w, mid, w');
    }
  }

  lemma {:induction false} WorldAt(cfg: Config, m: Machine, latency: int, backoff: int, i: nat)
    requires Reconciles(cfg, m, latency, backoff) && Filed(m.worlds(0).secret)
    ensures Filed(m.worlds(i).secret) && SameOriginals(m.worlds(0), m.worlds(i))
    ensures m.worlds(i).cluster.Keys == m.worlds(0).cluster.Keys
  {
    if i != 0 {
      var previous := i - 1;
      var w, v, w' := m.worlds(0), m.worlds(previous), m.worlds(i);
      WorldAt(cfg, m, latency, backoff, previous);
      ReconcileKeeps(cfg, m, latency, backoff, previous);
      SameThrough(w, v, w');
    }
  }

  /** Without failing calls every world of the chain is tidy. */
  lemma {:induction false} TidyAt(cfg: Config, m: Machine, latency: int, backoff: int, i: nat)
    requires Reconciles(cfg, m, latency, backoff) && forall k :: m.results(k).RequeueAfter?
    requires AllGranted(m.worlds(0)) && Tidy(m.worlds(0))
    ensures AllGranted(m.worlds(i)) && Tidy(m.worlds(i))
  {
    if i != 0 {
      var previous := i - 1;
      TidyAt(cfg, m, latency, backoff, previous);
      OneReconcile(cfg, m, latency, backoff, previous);
      GrantedAct(cfg, m.times(previous), m.worlds(previous), m.included(previous), m.worlds(i), m.results(previous));
    }
  }

  /** The cluster at an instant agrees with the ideal schedule: the objects included by the reconcile
      in force sleep and are recorded, or every object has its original value and nothing is recorded.
      After a start with an empty Secret that is the starting cluster. */
  ghost predicate Agrees(cfg: Config, start: World, w: World, included: Included, t: Instant)
  {
    if Ideal(cfg, t) then Applied(w, included, true)
    else
      && w.secret == map[] && (start.secret == map[] ==> w.cluster == start.cluster)
      && forall key :: key in w.cluster ==> Some(w.cluster[key]) == Original(start, key)
  }

  /** Starting from an empty Secret, having every original value is being the starting cluster. */
  lemma AwakeIsStart(start: World, w: World)
    requires start.secret == map[] && w.cluster.Keys == start.cluster.Keys
    requires forall key :: key in w.cluster ==> Some(w.cluster[key]) == Original(start, key)
    ensures w.cluster == start.cluster
  {
    forall key | key in start.cluster
      ensures w.cluster[key] == start.cluster[key]
    {
      assert Some(w.cluster[key]) == Original(start, key);
    }
  }

  /** Nothing the reconcile does can fail unnoticed. */
  ghost predicate Trusted(w: World, included: Included)
  {
    AllExposed(w, included) || (AllGranted(w) && Tidy(w))
  }

  lemma TrustedAct(cfg: Config, now: Instant, w: World, included: Included, w': World, wait: int)
    requires Filed(w.secret) && Trusted(w, included)
    requires ActsOn(cfg, now, w, included, w', RequeueAfter(wait))
    ensures Applied(w', included, Decides(cfg, now))
  {
    if AllExposed(w, included) {
      var mid :| OnlyAsks(w, mid) && ActsFrom(cfg, now, mid, included, w', RequeueAfter(wait));
      var order :| IsKindOrder(order) && Act(cfg, now, mid, included, order) == Acted(w', RequeueAfter(wait));
      SameRecordsExposed(w, mid, included);
      ComingBackMeansApplied(cfg, now, mid, included, order);
    } else {
      GrantedAct(cfg, now, w, included, w', RequeueAfter(wait));
    }
  }

  lemma SameRecordsExposed(w: World, v: World, included: Included)
    requires v.secret == w.secret && AllExposed(w, included)
    ensures AllExposed(v, included)
  {
    forall kind, i | kind in included && 0 <= i < |included[kind]| && !IsDormant(included[kind][i].value)
      ensures IsLastNew(v, included[kind], i)
    {
      assert IsLastNew(w, included[kind], i);
    }
  }

  /** At most the latency has passed since a change point, which was the deadline of the reconcile. */
  ghost predicate JustChanged(cfg: Config, m: Machine, latency: int, look: nat, t: Instant)
  {
    var deadline := Deadline(cfg, m.times(look));
    ChangePoint(cfg, deadline) && deadline <= t < deadline + latency
  }

  /** Any calls may fail. The reconcile in force has kept every original value; it is retried soon, or
      else, if its instant is steady and nothing can fail unnoticed, the cluster agrees with the ideal
      schedule except just after a change point. */
  lemma ReconcileInForce(cfg: Config, m: Machine, latency: int, backoff: int, t: Instant, look: nat)
    requires Reconciles(cfg, m, latency, backoff) && Filed(m.worlds(0).secret) && InForce(m.times, t, look)
    ensures SameOriginals(m.worlds(0), m.worlds(look + 1))
    ensures m.worlds(look + 1).cluster.Keys == m.worlds(0).cluster.Keys
    ensures m.results(look).Retry? ==> t < m.times(look) + backoff
    ensures !m.results(look).Retry? && Steady(cfg, m.times(look)) && Trusted(m.worlds(look), m.included(look)) ==>
              || Agrees(cfg, m.worlds(0), m.worlds(look + 1), m.included(look), t)
              || JustChanged(cfg, m, latency, look, t)
  {
    OneReconcile(cfg, m, latency, backoff, look);
    WorldAt(cfg, m, latency, backoff, look);
    WorldAt(cfg, m, latency, backoff, look + 1);
    if !m.results(look).Retry? && Steady(cfg, m.times(look)) && Trusted(m.worlds(look), m.included(look)) {
      var now, w' := m.times(look), m.worlds(look + 1);
      StableExactlyWhenSteady(cfg, now);
      DecidesIdeally(cfg, t);
      DeadlinesAreChangePoints(cfg, now);
      TrustedAct(cfg, now, m.worlds(look), m.included(look), w', m.results(look).wait);
      if !Decides(cfg, now) {
        forall key | key in w'.cluster
          ensures Some(w'.cluster[key]) == Original(m.worlds(0), key)
        {
          assert Original(w', key) == Original(m.worlds(0), key);
        }
        if m.worlds(0).secret == map[] {
          AwakeIsStart(m.worlds(0), w');
        }
      }
    }
  }

  /** A chain that reconciles at steady instants and in which nothing can fail unnoticed: at every
      instant the cluster agrees with the ideal schedule, or a change point has just passed, or the
      reconcile in force has failed and is retried within the backoff. */
  lemma SteadyChainFollowsSchedule(cfg: Config, m: Machine, latency: int, backoff: int, t: Instant)
    returns (look: nat)
    requires Reconciles(cfg, m, latency, backoff) && Filed(m.worlds(0).secret) && m.times(0) <= t
    requires forall i :: Steady(cfg, m.times(i)) && Trusted(m.worlds(i), m.included(i))
    ensures InForce(m.times, t, look)
    ensures SameOriginals(m.worlds(0), m.worlds(look + 1))
    ensures || Agrees(cfg, m.worlds(0), m.worlds(look + 1), m.included(look), t)
            || JustChanged(cfg, m, latency, look, t)
            || (m.results(look).Retry? && t < m.times(look) + backoff)
  {
    ReconcilesAdvance(cfg, m, latency, backoff);
    look := OneInForce(m.times, t);
    ReconcileInForce(cfg, m, latency, backoff, t, look);
  }

  /** Overnight windows or a schedule without rest days, a latency shorter than the wake period, no
      retries, and no call failing or none that can fail unnoticed: for ever after the first look, or
      after the second when the first is at a start. */
  lemma ClusterFollowsSchedule(cfg: Config, m: Machine, latency: int, backoff: int, t: Instant)
    returns (look: nat)
    requires Unforced(cfg) && (Overnight(cfg) || EveryDay(cfg)) && PromptEnough(cfg, latency)
    requires Reconciles(cfg, m, latency, backoff) && forall i :: m.results(i).RequeueAfter?
    requires m.times(if ClockOf(m.times(0)) == cfg.startSleep then 1 else 0) <= t
    requires || (AllGranted(m.worlds(0)) && Tidy(m.worlds(0)))
             || (Filed(m.worlds(0).secret) && forall i :: AllExposed(m.worlds(i), m.included(i)))
    ensures InForce(m.times, t, look)
    ensures SameOriginals(m.worlds(0), m.worlds(look + 1))
    ensures || Agrees(cfg, m.worlds(0), m.worlds(look + 1), m.included(look), t)
            || JustChanged(cfg, m, latency, look, t)
  {
    ReconcilesArePunctual(cfg, m, latency, backoff);
    ReconcilesAdvance(cfg, m, latency, backoff);
    var first := if ClockOf(m.times(0)) == cfg.startSleep then 1 else 0;
    look := LastLookBefore(m.times, t, first);
    ChainIsStable(cfg, m.times, latency, look);
    if AllGranted(m.worlds(0)) && Tidy(m.worlds(0)) {
      TidyAt(cfg, m, latency, backoff, look);
    }
    ReconcileInForce(cfg, m, latency, backoff, t, look);
  }

  // ---- what the user sees ----

  lemma PassKeepsFit(w: World, included: Included)
    requires Filed(w.secret) && WorldFits(w) && Listing(w, included)
    ensures WorldFits(SleepPass(w, included).world)
  {
    forall kind, r | kind in included && r in included[kind]
      ensures Fits(r)
    {
      assert Fits(Resource(r.key, w.cluster[r.key]));
    }
    KindsKeepFit(w, SLEEP_ORDER, included, map[]);
  }

  lemma {:induction false} FitsAt(cfg: Config, m: Machine, latency: int, backoff: int, i: nat)
    requires Reconciles(cfg, m, latency, backoff) && Filed(m.worlds(0).secret) && WorldFits(m.worlds(0))
    ensures WorldFits(m.worlds(i))
  {
    if i != 0 {
      var previous := i - 1;
      var w, w', included := m.worlds(previous), m.worlds(i), m.included(previous);
      FitsAt(cfg, m, latency, backoff, previous);
      WorldAt(cfg, m, latency, backoff, previous);
      OneReconcile(cfg, m, latency, backoff, previous);
      if !OnlyAsks(w, w') {
        var mid :| OnlyAsks(w, mid) && ActsFrom(cfg, m.times(previous), mid, included, w', m.results(previous));
        var order :|
          IsKindOrder(order) && Act(cfg, m.times(previous), mid, included, order) == Acted(w', m.results(previous));
        if Decides(cfg, m.times(previous)) {
          PassKeepsFit(mid, included);
        } else {
          WakeKeepsFit(mid, order);
        }
      }
    }
  }

  lemma FiresInTime(cfg: Config, m: Machine, latency: int, backoff: int, i: nat)
    requires Reconciles(cfg, m, latency, backoff) && m.results(i).RequeueAfter?
    ensures m.times(i + 1) <= Deadline(cfg, m.times(i)) + latency
  {
    OneReconcile(cfg, m, latency, backoff, i);
  }

  lemma AgreesInWords(cfg: Config, start: World, w: World, included: Included, t: Instant)
    requires Unforced(cfg) && start.secret == map[] && WorldFits(w) && Agrees(cfg, start, w, included, t)
    ensures var clock := ClockOf(t);
            if || DayOf(t) in cfg.holidays || WeekdayOf(DayOf(t)) !in cfg.weekdays
               || cfg.startSleep < clock < cfg.endSleep
               || (cfg.endSleep < cfg.startSleep && (cfg.startSleep < clock || clock < cfg.endSleep)) then
              forall kind, r :: kind in included && r in included[kind] ==>
                r.key in w.cluster && w.cluster[r.key] == if r.key.kind == CronJob then Suspend(true) else Replicas(0)
            else w.cluster == start.cluster
  {
    if Ideal(cfg, t) {
      forall kind, r | kind in included && r in included[kind]
        ensures r.key in w.cluster
        ensures w.cluster[r.key] == if r.key.kind == CronJob then Suspend(true) else Replicas(0)
      {
        AsleepMeans(w, r.key);
      }
    }
  }

  /** The same chains from an empty Secret, in plain values: at every instant that is not at most the
      latency after a deadline, which is at a start, at an end, or at the midnight after a holiday, the
      included objects are suspended or at zero, or the cluster is the starting one, by the day and the
      clock time alone. */
  lemma UserSees(cfg: Config, m: Machine, latency: int, backoff: int, t: Instant)
    returns (look: nat, deadline: Instant)
    requires Unforced(cfg) && (Overnight(cfg) || EveryDay(cfg)) && PromptEnough(cfg, latency)
    requires Reconciles(cfg, m, latency, backoff) && forall i :: m.results(i).RequeueAfter?
    requires m.times(if ClockOf(m.times(0)) == cfg.startSleep then 1 else 0) <= t
    requires m.worlds(0).secret == map[] && ClusterFits(m.worlds(0).cluster)
    requires AllGranted(m.worlds(0)) || forall i :: AllExposed(m.worlds(i), m.included(i))
    ensures m.times(look) <= t < m.times(look + 1) && t < deadline + latency
    ensures || ClockOf(deadline) in {cfg.startSleep, cfg.endSleep}
            || (ClockOf(deadline) == 0 && DayOf(deadline) !in cfg.holidays && DayOf(deadline) - 1 in cfg.holidays)
    ensures t < deadline ==>
              var cluster, clock := m.worlds(look + 1).cluster, ClockOf(t);
              if || DayOf(t) in cfg.holidays || WeekdayOf(DayOf(t)) !in cfg.weekdays
                 || cfg.startSleep < clock < cfg.endSleep
                 || (cfg.endSleep < cfg.startSleep && (cfg.startSleep < clock || clock < cfg.endSleep)) then
                forall kind, r :: kind in m.included(look) && r in m.included(look)[kind] ==>
                  r.key in cluster && cluster[r.key] == if r.key.kind == CronJob then Suspend(true) else Replicas(0)
              else cluster == m.worlds(0).cluster
  {
    look := ClusterFollowsSchedule(cfg, m, latency, backoff, t);
    deadline := Deadline(cfg, m.times(look));
    FiresInTime(cfg, m, latency, backoff, look);
    DeadlinesAreChangePoints(cfg, m.times(look));
    if t < deadline {
      FitsAt(cfg, m, latency, backoff, look + 1);
      AgreesInWords(cfg, m.worlds(0), m.worlds(look + 1), m.included(look), t);
    }
  }
}
