/** What it means to sleep, in replica counts and suspend flags, and that no pass mixes the two up. */
module Values {
  import opened Resources
  import opened Passes
  import opened Conservation
  import opened Runs
  import opened FaultFree
  import opened Outcomes
  import opened Fates

  /** CronJobs have suspend flags, and the other kinds have replica counts. */
  predicate Fits(r: Resource) { r.key.kind.CronJob? <==> r.value.Suspend? }

  predicate AllFit(rs: seq<Resource>) { forall r :: r in rs ==> Fits(r) }

  ghost predicate ClusterFits(cluster: map<Key, Value>)
  {
    forall key :: key in cluster ==> Fits(Resource(key, cluster[key]))
  }

  ghost predicate LedgerFits(ledger: Ledger) { forall kind :: kind in ledger ==> AllFit(ledger[kind]) }

  ghost predicate WorldFits(w: World) { ClusterFits(w.cluster) && LedgerFits(w.secret) }

  /** An object that fits its kind sleeps exactly when it is suspended or has no replicas. */
  lemma AsleepMeans(w: World, key: Key)
    requires WorldFits(w)
    ensures Asleep(w, key) <==>
            key in w.cluster && w.cluster[key] == if key.kind == CronJob then Suspend(true) else Replicas(0)
  {
    assert key in w.cluster ==> Fits(Resource(key, w.cluster[key]));
  }

  /** Whatever fails in a pass that ends without an error: an included object is suspended or scaled to
      zero if it was not so before, had no record and its own scale-down happens; else it keeps its value. */
  lemma ScaledToZero(w: World, included: Included, kind: Kind, i: nat)
    requires Filed(w.secret) && Listing(w, included) && SleepPass(w, included).ok
    requires kind in included && i < |included[kind]|
    ensures var r, cluster := included[kind][i], SleepPass(w, included).world.cluster;
            var awake := match r.value case Replicas(count) => count != 0 case Suspend(flag) => !flag;
            var start := KindStart(w, SLEEP_ORDER, included, kind);
            && r.key in cluster
            && cluster[r.key] ==
               if awake && !Recorded(w.secret, r.key) && Lands(Turn(StartOf(start, kind), included[kind], i)) then
                 (if kind == CronJob then Suspend(true) else Replicas(0))
               else r.value
  {
    EveryKindHandled(kind);
    ListingIsReady(w, included);
    AtKindStart(w, SLEEP_ORDER, included, kind);
    SameRecords(w, KindStart(w, SLEEP_ORDER, included, kind), kind, included[kind]);
    assert included[kind][i] in included[kind];
    ItemAfterKinds(w, SLEEP_ORDER, included, map[], kind, i);
  }

  /** Without failing calls every included object without a record ends up suspended or at zero. */
  lemma NewObjectsAtZero(w: World, included: Included, kind: Kind, i: nat)
    requires Filed(w.secret) && Listing(w, included) && ClusterFits(w.cluster)
    requires GrantedFrom(w) && DroppedExist(w, SLEEP_ORDER, included)
    requires kind in included && i < |included[kind]| && !Recorded(w.secret, included[kind][i].key)
    ensures SleepPass(w, included).ok && SleepPass(w, included).failed == map[]
    ensures var key, cluster := included[kind][i].key, SleepPass(w, included).world.cluster;
            key in cluster && cluster[key] == if kind == CronJob then Suspend(true) else Replicas(0)
  {
    var r, start := included[kind][i], KindStart(w, SLEEP_ORDER, included, kind);
    EveryKindHandled(kind);
    ListingIsReady(w, included);
    QuietKinds(w, SLEEP_ORDER, included, map[]);
    ScaledToZero(w, included, kind, i);
    AtKindStart(w, SLEEP_ORDER, included, kind);
    StartAdvances(w, SLEEP_ORDER, included, kind);
    ScanSame(StartOf(start, kind), included[kind][..i], w.fate);
    assert r in included[kind] && Fits(Resource(r.key, w.cluster[r.key]));
  }

  // ---- every pass keeps the shape ----

  lemma {:induction false} WakesKeepFit(w: World, rs: seq<Resource>)
    requires ClusterFits(w.cluster) && AllFit(rs)
    ensures ClusterFits(WakeAll(w, rs).world.cluster)
    decreases |rs|
  {
    if rs != [] {
      assert rs[0] in rs && Fits(Resource(rs[0].key, rs[0].value));
      WakesKeepFit(Wake(w, rs[0]).world, rs[1..]);
    }
  }

  lemma KindKeepsFit(w: World, kind: Kind, items: seq<Resource>)
    requires Filed(w.secret) && OfKind(items, kind) && Distinct(items) && AllFit(items) && WorldFits(w)
    ensures WorldFits(SleepKind(w, kind, items).world)
  {
    var st := ScanKind(w, kind, items);
    ScanOfKind(w, kind, items);
    ScanTouchesNew(StartOf(w, kind), items);
    forall key | key in st.world.cluster
      ensures Fits(Resource(key, st.world.cluster[key]))
    {
      assert Fits(Resource(key, w.cluster[key]));
    }
    WakesKeepFit(st.world, st.saved);
    ClusterAfter(w, kind, items);
    SecretAfter(w, kind, items);
  }

  lemma {:induction false} KindsKeepFit(w: World, kinds: seq<Kind>, included: Included, failed: Failures)
    requires Filed(w.secret) && WorldFits(w)
    requires forall kind :: kind in included ==>
               OfKind(included[kind], kind) && Distinct(included[kind]) && AllFit(included[kind])
    ensures WorldFits(SleepKinds(w, kinds, included, failed).world)
    decreases |kinds|
  {
    if kinds != [] {
      if kinds[0] !in included {
        KindsKeepFit(w, kinds[1..], included, failed);
      } else {
        var done := SleepKind(w, kinds[0], included[kinds[0]]);
        KindKeepsFit(w, kinds[0], included[kinds[0]]);
        SecretAfter(w, kinds[0], included[kinds[0]]);
        KindsKeepFit(done.world, kinds[1..], included,
                     if done.failed == [] then failed else failed[kinds[0] := done.failed]);
      }
    }
  }

  lemma WakeKeepsFit(w: World, order: seq<Kind>)
    requires Filed(w.secret) && WorldFits(w) && IsKindOrder(order)
    ensures WorldFits(WakePass(w, order).world)
  {
    var rs := AllRecords(w.secret, order);
    OrderReadsAll(w.secret, order);
    forall r | r in rs
      ensures Fits(r)
    {
      assert r in Saved(w.secret, r.key.kind);
    }
    WakesKeepFit(w, rs);
    WakesTouchTheirs(w, rs);
  }

  ghost predicate StepsFit(steps: seq<Step>)
  {
    forall step :: step in steps ==>
      match step
      case SleepStep(included) =>
        forall kind :: kind in included ==>
          OfKind(included[kind], kind) && Distinct(included[kind]) && AllFit(included[kind])
      case WakeStep(order) => IsKindOrder(order)
      case EditStep(key, value) => Fits(Resource(key, value))
  }

  /** Over every run, whatever fails, suspend flags stay with CronJobs and replica counts with the others,
      in the cluster and in the records. */
  lemma {:induction false} RunKeepsFit(w: World, steps: seq<Step>)
    requires Filed(w.secret) && WorldFits(w) && StepsFit(steps)
    ensures WorldFits(Run(w, steps))
    decreases |steps|
  {
    if steps != [] {
      assert steps[0] in steps && forall step :: step in steps[1..] ==> step in steps;
      match steps[0] {
        case SleepStep(included) =>
          KindsKeepFit(w, SLEEP_ORDER, included, map[]);
          PassStaysFiled(w, SLEEP_ORDER, included, map[]);
        case WakeStep(order) =>
          WakeKeepsFit(w, order);
          WakePassConserves(w, order);
        case EditStep(_, _) =>
      }
      RunKeepsFit(Apply(w, steps[0]), steps[1..]);
    }
  }
}
