/** Runs in which every API call is granted. */
module FaultFree {
  import opened Wrappers
  import opened Resources
  import opened Passes
  import opened Conservation
  import opened Runs

  ghost predicate AllGranted(w: World) { forall n :: w.fate(n).Granted? }

  ghost predicate Asleep(w: World, key: Key) { key in w.cluster && IsDormant(w.cluster[key]) }

  /** Records are in order and every recorded object exists and sleeps. */
  ghost predicate Tidy(w: World)
  {
    Filed(w.secret) && forall key :: Recorded(w.secret, key) ==> Asleep(w, key)
  }

  lemma {:induction false} GrantedScan(st: Scan, items: seq<Resource>)
    requires AllGranted(st.world) && Distinct(items) && st.failed == []
    requires forall r :: r in items ==> r.key in st.world.cluster && st.world.cluster[r.key] == r.value
    ensures var end := ScanAll(st, items);
            && end.failed == []
            && (forall r :: r in end.added && r !in st.added ==> Asleep(end.world, r.key))
    decreases |items|
  {
    if items != [] {
      var item, rest := items[0], items[1..];
      assert items == [item] + rest && item in items;
      var next := ScanOne(st, item);
      forall r | r in rest
        ensures r.key in next.world.cluster && next.world.cluster[r.key] == r.value
      {
        var i :| 0 <= i < |rest| && rest[i] == r;
        assert items[i + 1] == r && items[0].key != r.key;
      }
      GrantedScan(next, rest);
      ScanTouchesNew(next, rest);
      if IndexOf(st.saved, item.key) < 0 {
        assert Asleep(next.world, item.key);
      }
    }
  }

  /** One kind of a sleep pass without failures: it succeeds, the recorded objects of the kind are
      exactly the included ones, and all recorded objects sleep. */
  lemma GrantedSleepKind(w: World, kind: Kind, items: seq<Resource>)
    requires AllGranted(w) && Tidy(w) && Snapshot(w, kind, items) && items != []
    ensures var done := SleepKind(w, kind, items);
            && done.ok && done.failed == [] && Tidy(done.world) && AllGranted(done.world)
            && RecordsLand(w, kind, items)
            && Keys(Saved(done.world.secret, kind)) == Keys(items)
  {
    var st, saved := ScanKind(w, kind, items), Saved(w.secret, kind);
    ScanOfKind(w, kind, items);
    GrantedScan(Scan(w, saved, [], [], []), items);
    ScanTouchesNew(Scan(w, saved, [], [], []), items);
    forall r | r in st.saved
      ensures r.key in st.world.cluster
    {
      assert r in saved && r.key.kind == kind && Recorded(w.secret, r.key);
    }
    GrantedWakes(st.world, st.saved);
    WakesTouchTheirs(st.world, st.saved);
    SecretAfter(w, kind, items);
    ClusterAfter(w, kind, items);
    GrantedKindIsTidy(w, kind, items);
  }

  lemma GrantedKindIsTidy(w: World, kind: Kind, items: seq<Resource>)
    requires AllGranted(w) && Tidy(w) && Snapshot(w, kind, items)
    requires RecordsLand(w, kind, items) && items != []
    ensures Tidy(SleepKind(w, kind, items).world)
  {
    var st, w', saved := ScanKind(w, kind, items), SleepKind(w, kind, items).world, Saved(w.secret, kind);
    ScanOfKind(w, kind, items);
    SecretAfter(w, kind, items);
    ClusterAfter(w, kind, items);
    GrantedScan(Scan(w, saved, [], [], []), items);
    forall key | Recorded(w'.secret, key)
      ensures Asleep(w', key)
    {
      if key.kind != kind {
        assert Recorded(w.secret, key);
        assert key !in Keys(items) && key !in Keys(saved);
        StrangerKept(w, kind, items, key);
      } else {
        assert key in Keys(st.added + st.kept);
        var r :| r in st.added + st.kept && r.key == key;
        assert key !in Keys(st.saved);
        if r in st.kept {
          assert Recorded(w.secret, key);
          assert key !in Keys(st.added);
        }
      }
    }
  }

  lemma {:induction false} GrantedSleepKinds(w: World, kinds: seq<Kind>, included: Included)
    requires AllGranted(w) && Tidy(w) && NoRepeats(kinds)
    requires forall kind :: kind in kinds && kind in included ==>
               Snapshot(w, kind, included[kind]) && included[kind] != []
    requires forall kind :: kind in included ==> OfKind(included[kind], kind) && Distinct(included[kind])
    ensures var done := SleepKinds(w, kinds, included, map[]);
            && done.ok && done.failed == map[] && Tidy(done.world) && AllGranted(done.world)
            && PassKeeps(w, kinds, included)
    decreases |kinds|
  {
    if kinds != [] {
      var kind, rest := kinds[0], kinds[1..];
      assert kinds == [kind] + rest;
      if kind !in included {
        GrantedSleepKinds(w, rest, included);
      } else {
        var items := included[kind];
        var done := SleepKind(w, kind, items);
        GrantedSleepKind(w, kind, items);
        forall other | other in rest && other in included
          ensures Snapshot(done.world, other, included[other])
        {
          SnapshotSurvives(w, kind, items, other, included[other]);
        }
        GrantedSleepKinds(done.world, rest, included);
      }
    }
  }

  /** A sleep pass without failures: afterwards the saved keys of every included kind equal the
      included keys, every recorded object sleeps, and no original value has changed. */
  lemma GrantedSleepPass(w: World, included: Included)
    requires AllGranted(w) && Tidy(w) && Listing(w, included)
    ensures var done := SleepPass(w, included);
            && done.ok && done.failed == map[] && Tidy(done.world) && AllGranted(done.world)
            && SameOriginals(w, done.world)
            && (forall kind :: kind in included ==>
                  Keys(Saved(done.world.secret, kind)) == Keys(included[kind]))
  {
    GrantedSleepKinds(w, SLEEP_ORDER, included);
    SleepPassConserves(w, included);
    FinishedPass(w, included);
  }

  /** A wake pass without failures empties the Secret, and the cluster is the original one. */
  lemma GrantedWakePass(w: World, order: seq<Kind>)
    requires AllGranted(w) && Tidy(w) && IsKindOrder(order)
    ensures var done := WakePass(w, order);
            && done.ok && done.world.secret == map[] && AllGranted(done.world) && Tidy(done.world)
            && SameOriginals(w, done.world)
            && (forall key :: key in w.cluster ==>
                  key in done.world.cluster && Some(done.world.cluster[key]) == Original(w, key))
  {
    WakePassConserves(w, order);
    OrderReadsAll(w.secret, order);
    var rs := AllRecords(w.secret, order);
    forall r | r in rs
      ensures r.key in w.cluster
    {
      assert Recorded(w.secret, r.key);
    }
    GrantedWakes(w, rs);
    WakesTouchTheirs(w, rs);
    var done := WakePass(w, order).world;
    forall key | key in w.cluster
      ensures Some(done.cluster[key]) == Original(w, key)
    {
      assert Original(done, key) == Original(w, key);
    }
  }

  // ---- runs ----

  /** The steps of a run without failures: nobody else edits a recorded object. */
  ghost predicate Orderly(w: World, step: Step)
  {
    match step
    case SleepStep(included) => Listing(w, included)
    case WakeStep(order) => IsKindOrder(order)
    case EditStep(key, _) => !Recorded(w.secret, key)
  }

  ghost predicate AllOrderly(w: World, steps: seq<Step>)
    decreases |steps|
  {
    steps != [] ==> Orderly(w, steps[0]) && AllOrderly(Apply(w, steps[0]), steps[1..])
  }

  /** Every reachable state is tidy, and every step allowed: nothing is ever lost. */
  lemma {:induction false} ReachableIsTidy(w: World, steps: seq<Step>)
    requires AllGranted(w) && Tidy(w) && AllOrderly(w, steps)
    ensures Tidy(Run(w, steps)) && AllGranted(Run(w, steps)) && AllAllowed(w, steps)
    decreases |steps|
  {
    if steps != [] {
      match steps[0] {
        case SleepStep(included) =>
          GrantedSleepPass(w, included);
          SleepPassConserves(w, included);
        case WakeStep(order) => GrantedWakePass(w, order);
        case EditStep(_, _) =>
      }
      ReachableIsTidy(Apply(w, steps[0]), steps[1..]);
    }
  }

  lemma {:induction false} SleepsKeepOriginals(w: World, steps: seq<Step>)
    requires AllGranted(w) && Tidy(w) && AllOrderly(w, steps)
    requires forall step :: step in steps ==> step.SleepStep?
    ensures SameOriginals(w, Run(w, steps))
    ensures Run(w, steps).cluster.Keys == w.cluster.Keys
    decreases |steps|
  {
    if steps != [] {
      assert steps[0] in steps;
      GrantedSleepPass(w, steps[0].included);
      SleepPassConserves(w, steps[0].included);
      SleepsKeepOriginals(Apply(w, steps[0]), steps[1..]);
      SameThrough(w, Apply(w, steps[0]), Run(w, steps));
    }
  }

  /** Round trip: from an empty Secret, any sleep passes over any changing included lists and one
      wake give back the starting cluster and an empty Secret. */
  lemma SleepThenWake(w: World, steps: seq<Step>, order: seq<Kind>)
    requires AllGranted(w) && w.secret == map[] && AllOrderly(w, steps) && IsKindOrder(order)
    requires forall step :: step in steps ==> step.SleepStep?
    ensures WakePass(Run(w, steps), order).ok
    ensures WakePass(Run(w, steps), order).world.cluster == w.cluster
    ensures WakePass(Run(w, steps), order).world.secret == map[]
  {
    ReachableIsTidy(w, steps);
    SleepsKeepOriginals(w, steps);
    GrantedWakePass(Run(w, steps), order);
    WakePassConserves(Run(w, steps), order);
    forall key | key in w.cluster
      ensures WakePass(Run(w, steps), order).world.cluster[key] == w.cluster[key]
    {
      assert Original(Run(w, steps), key) == Original(w, key);
    }
  }
}
