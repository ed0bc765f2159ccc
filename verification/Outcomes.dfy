/** What a sleep pass has really done when some of its calls failed: which objects sleep, which
    names it reports, and which objects nobody will try again. */
module Outcomes {
  import opened Wrappers
  import opened Resources
  import opened Passes
  import opened Conservation
  import opened Runs
  import opened FaultFree

  // ---- the turn of one item ----

  /** The item has no record when its turn comes. */
  ghost predicate IsNew(st: Scan, items: seq<Resource>, i: nat)
    requires i < |items|
  {
    IndexOf(ScanAll(st, items[..i]).saved, items[i].key) < 0
  }

  /** The world in which the item's turn comes. */
  ghost function Turn(st: Scan, items: seq<Resource>, i: nat): World
    requires i < |items|
  {
    ScanAll(st, items[..i]).world
  }

  /** A scale-down in this world happens: its fetch is granted and its update not refused. */
  ghost predicate Lands(w: World) { Fate(w).Granted? && !Fate(Called(w)).Refused? }

  /** A scale-down in this world happens and is seen to happen. */
  ghost predicate Confirmed(w: World) { Fate(w).Granted? && Fate(Called(w)).Granted? }

  lemma {:induction false} ScanSteps(st: Scan, items: seq<Resource>, n: nat)
    requires n < |items|
    ensures ScanAll(st, items[..n + 1]) == ScanOne(ScanAll(st, items[..n]), items[n])
    decreases n
  {
    if n == 0 {
      assert items[..1][1..] == [];
    } else {
      ScanSteps(ScanOne(st, items[0]), items[1..], n - 1);
      assert items[..n + 1][1..] == items[1..][..n] && items[..n][1..] == items[1..][..n - 1];
    }
  }

  // ---- what a kind reports ----

  /** The last of the first n items that has no record when its turn comes, or -1. */
  ghost function LastNew(st: Scan, items: seq<Resource>, n: nat): (last: int)
    requires n <= |items|
    ensures -1 <= last < n
    ensures 0 <= last ==> IsNew(st, items, last)
    ensures forall i :: last < i < n ==> !IsNew(st, items, i)
  {
    if n == 0 then -1 else if IsNew(st, items, n - 1) then n - 1 else LastNew(st, items, n - 1)
  }

  /** For all lists: the loop reports at most one name, that of its last new item, and it reports
      the name exactly when putting this one item to sleep fails. */
  lemma {:induction false} ReportsExactlyLast(st: Scan, items: seq<Resource>, n: nat)
    requires n <= |items|
    ensures var last := LastNew(st, items, n);
            ScanAll(st, items[..n]).failed ==
            if last < 0 then st.failed
            else if PutToSleep(Turn(st, items, last), items[last]).ok then []
            else [items[last].key.name]
    decreases n
  {
    if n != 0 {
      ReportsExactlyLast(st, items, n - 1);
      ScanSteps(st, items, n - 1);
    }
  }

  // ---- one kind ----

  ghost function StartOf(w: World, kind: Kind): Scan { Scan(w, Saved(w.secret, kind), [], [], []) }

  /** What the loop has left alone when an item's turn comes. */
  lemma AtTurn(w: World, kind: Kind, items: seq<Resource>, i: nat)
    requires Filed(w.secret) && Snapshot(w, kind, items) && i < |items|
    ensures IsNew(StartOf(w, kind), items, i) <==> !Recorded(w.secret, items[i].key)
    ensures Turn(StartOf(w, kind), items, i).fate == w.fate
    ensures var turn := Turn(StartOf(w, kind), items, i);
            items[i].key in turn.cluster && turn.cluster[items[i].key] == items[i].value
  {
    var before, item := items[..i], items[i];
    var st := ScanAll(StartOf(w, kind), before);
    assert st == ScanKind(w, kind, before) && item in items && item.key !in Keys(before);
    ScanOfKind(w, kind, before);
    IndexFindsKey(st.saved, item.key);
    ClusterAfter(w, kind, before);
    assert item.key !in Keys(st.added);
  }

  lemma UpdateLands(w: World, r: Resource)
    requires r.key in w.cluster
    ensures UpdateClient(w, r).world.cluster == if Lands(w) then w.cluster[r.key := r.value] else w.cluster
  {}

  /** The value an item ends with: the dormant one when its scale-down happens. */
  function LeftWith(item: Resource, slept: bool): Value
  {
    if slept && !IsDormant(item.value) then Dormant(item.key.kind) else item.value
  }

  lemma TurnChanges(st: Scan, item: Resource)
    requires item.key in st.world.cluster && st.world.cluster[item.key] == item.value
    ensures ScanOne(st, item).world.cluster
         == st.world.cluster[item.key := LeftWith(item, IndexOf(st.saved, item.key) < 0 && Lands(st.world))]
  {
    if IndexOf(st.saved, item.key) < 0 && !IsDormant(item.value) {
      UpdateLands(st.world, item.(value := Dormant(item.key.kind)));
    }
  }

  /** The included object has no record and its own scale-down happens, if one is needed. */
  ghost predicate Taken(w: World, kind: Kind, items: seq<Resource>, i: nat)
    requires i < |items|
  {
    !Recorded(w.secret, items[i].key) && Lands(Turn(StartOf(w, kind), items, i))
  }

  /** Whatever fails, the item loop leaves every included object with the value its own turn gave it. */
  lemma {:induction false} ItemAfterScan(w: World, kind: Kind, items: seq<Resource>, i: nat, n: nat)
    requires Filed(w.secret) && Snapshot(w, kind, items) && i < n <= |items|
    ensures var cluster := ScanAll(StartOf(w, kind), items[..n]).world.cluster;
            items[i].key in cluster && cluster[items[i].key] == LeftWith(items[i], Taken(w, kind, items, i))
    decreases n
  {
    var start, last := StartOf(w, kind), n - 1;
    AtTurn(w, kind, items, last);
    ScanSteps(start, items, last);
    TurnChanges(ScanAll(start, items[..last]), items[last]);
    if i < last {
      ItemAfterScan(w, kind, items, i, last);
      assert items[i].key != items[last].key;
    }
  }

  /** The same for the whole block of the kind: waking the dropped objects changes no included one. */
  lemma ItemAfterKind(w: World, kind: Kind, items: seq<Resource>, i: nat)
    requires Filed(w.secret) && Snapshot(w, kind, items) && i < |items|
    ensures var cluster := SleepKind(w, kind, items).world.cluster;
            items[i].key in cluster && cluster[items[i].key] == LeftWith(items[i], Taken(w, kind, items, i))
  {
    assert items[..|items|] == items && items[i] in items;
    ItemAfterScan(w, kind, items, i, |items|);
    ScanOfKind(w, kind, items);
    ClusterAfter(w, kind, items);
  }

  /** Object by object: an awake new object loses its original value, and the value it has lost it to
      is the dormant one, exactly when its scale-down happens and the records do not land. */
  lemma OriginalAfterKind(w: World, kind: Kind, items: seq<Resource>, i: nat)
    requires Filed(w.secret) && Snapshot(w, kind, items) && i < |items|
    requires !Recorded(w.secret, items[i].key) && !IsDormant(items[i].value)
    ensures Original(SleepKind(w, kind, items).world, items[i].key)
         == Some(if RecordsLand(w, kind, items) || !Taken(w, kind, items, i) then items[i].value else Dormant(kind))
  {
    assert items[i] in items;
    if RecordsLand(w, kind, items) {
      NewKept(w, kind, items, items[i]);
    } else {
      ItemAfterKind(w, kind, items, i);
      SecretAfter(w, kind, items);
    }
  }

  /** The i-th item is the last one without a record. */
  ghost predicate IsLastNew(w: World, items: seq<Resource>, i: nat)
    requires i < |items|
  {
    !Recorded(w.secret, items[i].key) && forall j :: i < j < |items| ==> Recorded(w.secret, items[j].key)
  }

  /** The last included object without a record is awake and its scale-down is not seen to happen. */
  ghost predicate LastNewFails(w: World, kind: Kind, items: seq<Resource>)
  {
    exists i :: 0 <= i < |items| && IsLastNew(w, items, i)
      && !IsDormant(items[i].value) && !Confirmed(Turn(StartOf(w, kind), items, i))
  }

  lemma SleepIsConfirmed(w: World, r: Resource)
    requires r.key in w.cluster
    ensures PutToSleep(w, r).ok <==> IsDormant(r.value) || Confirmed(w)
  {}

  lemma LastNewIsLast(w: World, kind: Kind, items: seq<Resource>)
    requires Filed(w.secret) && Snapshot(w, kind, items)
    ensures var last := LastNew(StartOf(w, kind), items, |items|);
            if last < 0 then forall i :: 0 <= i < |items| ==> Recorded(w.secret, items[i].key)
            else IsLastNew(w, items, last)
  {
    forall i: nat | i < |items|
      ensures IsNew(StartOf(w, kind), items, i) <==> !Recorded(w.secret, items[i].key)
    {
      AtTurn(w, kind, items, i);
    }
  }

  /** A block that succeeds reports a name exactly when its last new object fails. */
  lemma KindReports(w: World, kind: Kind, items: seq<Resource>)
    requires Filed(w.secret) && Snapshot(w, kind, items) && SleepKind(w, kind, items).ok
    ensures SleepKind(w, kind, items).failed != [] <==> LastNewFails(w, kind, items)
  {
    var start := StartOf(w, kind);
    var last := LastNew(start, items, |items|);
    assert items[..|items|] == items;
    ReportsExactlyLast(start, items, |items|);
    LastNewIsLast(w, kind, items);
    if 0 <= last {
      AtTurn(w, kind, items, last);
      SleepIsConfirmed(Turn(start, items, last), items[last]);
      assert forall i :: 0 <= i < |items| && IsLastNew(w, items, i) ==> i == last;
    }
  }

  // ---- a whole pass ----

  /** The world in which the block of the kind begins. */
  ghost function KindStart(w: World, kinds: seq<Kind>, included: Included, kind: Kind): World
    decreases |kinds|
  {
    if kinds == [] || kinds[0] == kind then w
    else if kinds[0] !in included then KindStart(w, kinds[1..], included, kind)
    else KindStart(SleepKind(w, kinds[0], included[kinds[0]]).world, kinds[1..], included, kind)
  }

  /** The included lists of these kinds are current, as every block of a pass needs them. */
  ghost predicate Ready(w: World, kinds: seq<Kind>, included: Included)
  {
    && Filed(w.secret) && NoRepeats(kinds)
    && (forall kind :: kind in included ==> OfKind(included[kind], kind) && Distinct(included[kind]))
    && (forall kind :: kind in kinds && kind in included ==> Snapshot(w, kind, included[kind]))
  }

  lemma ListingIsReady(w: World, included: Included)
    requires Filed(w.secret) && Listing(w, included)
    ensures Ready(w, SLEEP_ORDER, included)
  {}

  lemma ReadyNext(w: World, kinds: seq<Kind>, included: Included)
    requires Ready(w, kinds, included) && kinds != []
    ensures kinds[0] !in kinds[1..]
    ensures kinds[0] !in included ==> Ready(w, kinds[1..], included)
    ensures kinds[0] in included ==> Ready(SleepKind(w, kinds[0], included[kinds[0]]).world, kinds[1..], included)
  {
    var kind, rest := kinds[0], kinds[1..];
    assert kinds == [kind] + rest;
    if kind in included {
      var items := included[kind];
      SecretAfter(w, kind, items);
      forall other | other in rest && other in included
        ensures Snapshot(SleepKind(w, kind, items).world, other, included[other])
      {
        SnapshotSurvives(w, kind, items, other, included[other]);
      }
    }
  }

  /** When the block of a kind begins, its records are the stored ones and its list is current. */
  lemma {:induction false} AtKindStart(w: World, kinds: seq<Kind>, included: Included, kind: Kind)
    requires Ready(w, kinds, included) && kind in kinds && kind in included
    ensures var start := KindStart(w, kinds, included, kind);
            Filed(start.secret) && Snapshot(start, kind, included[kind])
            && Saved(start.secret, kind) == Saved(w.secret, kind) && start.fate == w.fate
    decreases |kinds|
  {
    if kinds[0] != kind {
      ReadyNext(w, kinds, included);
      if kinds[0] in included {
        SecretAfter(w, kinds[0], included[kinds[0]]);
        AtKindStart(SleepKind(w, kinds[0], included[kinds[0]]).world, kinds[1..], included, kind);
      } else {
        AtKindStart(w, kinds[1..], included, kind);
      }
    }
  }

  lemma {:induction false} ItemAfterKinds(
    w: World, kinds: seq<Kind>, included: Included, failed: Failures, kind: Kind, i: nat)
    requires Ready(w, kinds, included) && SleepKinds(w, kinds, included, failed).ok
    requires kind in kinds && kind in included && i < |included[kind]|
    ensures var cluster, items := SleepKinds(w, kinds, included, failed).world.cluster, included[kind];
            items[i].key in cluster
            && cluster[items[i].key] == LeftWith(items[i], Taken(KindStart(w, kinds, included, kind), kind, items, i))
    decreases |kinds|
  {
    var rest := kinds[1..];
    ReadyNext(w, kinds, included);
    if kinds[0] !in included {
      ItemAfterKinds(w, rest, included, failed, kind, i);
    } else {
      var items := included[kinds[0]];
      var done := SleepKind(w, kinds[0], items);
      var failed' := if done.failed == [] then failed else failed[kinds[0] := done.failed];
      SecretAfter(w, kinds[0], items);
      ClusterAfter(w, kinds[0], items);
      if kinds[0] == kind {
        assert items[i] in items;
        ItemAfterKind(w, kind, items, i);
        KindsLeaveStranger(done.world, rest, included, failed', items[i].key);
      } else {
        ItemAfterKinds(done.world, rest, included, failed', kind, i);
      }
    }
  }

  /** The i-th included object of the kind slept before the pass, or has no record and its own
      scale-down happens. */
  ghost predicate Slept(w: World, included: Included, kind: Kind, i: nat)
    requires kind in included && i < |included[kind]|
  {
    IsDormant(included[kind][i].value)
    || (!Recorded(w.secret, included[kind][i].key)
        && Lands(Turn(StartOf(KindStart(w, SLEEP_ORDER, included, kind), kind), included[kind], i)))
  }

  /** Whatever fails in a pass that ends without an error: an included object sleeps afterwards
      exactly when it slept before, or had no record and its own scale-down has happened. */
  lemma IncludedSleeps(w: World, included: Included, kind: Kind, i: nat)
    requires Filed(w.secret) && Listing(w, included) && SleepPass(w, included).ok
    requires kind in included && i < |included[kind]|
    ensures Asleep(SleepPass(w, included).world, included[kind][i].key) <==> Slept(w, included, kind, i)
    ensures Recorded(SleepPass(w, included).world.secret, included[kind][i].key)
  {
    assert included[kind][i] in included[kind];
    EveryKindHandled(kind);
    ListingIsReady(w, included);
    FinishedPass(w, included);
    AtKindStart(w, SLEEP_ORDER, included, kind);
    ItemAfterKinds(w, SLEEP_ORDER, included, map[], kind, i);
  }

  /** The objects as decided: all included ones asleep and recorded, or nothing recorded at all. */
  ghost predicate Applied(w: World, included: Included, asleep: bool)
  {
    if asleep then
      forall kind, r :: kind in included && r in included[kind] ==> Asleep(w, r.key) && Recorded(w.secret, r.key)
    else w.secret == map[]
  }

  ghost predicate AllSlept(w: World, included: Included)
  {
    forall kind, i :: kind in included && 0 <= i < |included[kind]| ==> Slept(w, included, kind, i)
  }

  /** A pass that ends without an error has applied the decision exactly when all have slept. */
  lemma AppliedWhenAllSlept(w: World, included: Included)
    requires Filed(w.secret) && Listing(w, included) && SleepPass(w, included).ok
    ensures Applied(SleepPass(w, included).world, included, true) <==> AllSlept(w, included)
  {
    forall kind, i | kind in included && 0 <= i < |included[kind]|
      ensures var w', r := SleepPass(w, included).world, included[kind][i];
              r in included[kind] && Recorded(w'.secret, r.key) && (Asleep(w', r.key) <==> Slept(w, included, kind, i))
    {
      IncludedSleeps(w, included, kind, i);
    }
  }

  /** A pass reports a kind exactly when its last new object fails. */
  lemma {:induction false} PassReports(
    w: World, kinds: seq<Kind>, included: Included, failed: Failures, kind: Kind)
    requires Ready(w, kinds, included) && SleepKinds(w, kinds, included, failed).ok
    ensures kind in SleepKinds(w, kinds, included, failed).failed <==>
            kind in failed || (kind in kinds && kind in included
                               && LastNewFails(KindStart(w, kinds, included, kind), kind, included[kind]))
    decreases |kinds|
  {
    if kinds != [] {
      var first, rest := kinds[0], kinds[1..];
      assert kinds == [first] + rest;
      ReadyNext(w, kinds, included);
      if first !in included {
        PassReports(w, rest, included, failed, kind);
      } else {
        var done := SleepKind(w, first, included[first]);
        KindReports(w, first, included[first]);
        PassReports(done.world, rest, included,
                    if done.failed == [] then failed else failed[first := done.failed], kind);
      }
    }
  }

  /** No failure can hide: every awake item is the last one without a record. */
  ghost predicate Exposed(w: World, items: seq<Resource>)
  {
    forall i :: 0 <= i < |items| && !IsDormant(items[i].value) ==> IsLastNew(w, items, i)
  }

  ghost predicate AllExposed(w: World, included: Included)
  {
    forall kind :: kind in included ==> Exposed(w, included[kind])
  }

  lemma SameRecords(w: World, v: World, kind: Kind, items: seq<Resource>)
    requires OfKind(items, kind) && Saved(v.secret, kind) == Saved(w.secret, kind)
    ensures forall i :: 0 <= i < |items| ==> (Recorded(v.secret, items[i].key) <==> Recorded(w.secret, items[i].key))
    ensures forall i :: 0 <= i < |items| ==> (IsLastNew(v, items, i) <==> IsLastNew(w, items, i))
  {
    forall i | 0 <= i < |items|
      ensures items[i].key.kind == kind
    {
      assert items[i] in items;
    }
  }

  lemma ExposedSlept(w: World, included: Included, kind: Kind, i: nat)
    requires Filed(w.secret) && Listing(w, included) && AllExposed(w, included)
    requires SleepPass(w, included).ok && SleepPass(w, included).failed == map[]
    requires kind in included && i < |included[kind]|
    ensures Slept(w, included, kind, i)
  {
    var items, start := included[kind], KindStart(w, SLEEP_ORDER, included, kind);
    EveryKindHandled(kind);
    ListingIsReady(w, included);
    PassReports(w, SLEEP_ORDER, included, map[], kind);
    AtKindStart(w, SLEEP_ORDER, included, kind);
    SameRecords(w, start, kind, items);
    assert !LastNewFails(start, kind, items);
    if !IsDormant(items[i].value) {
      assert IsLastNew(start, items, i);
    }
  }

  /** When every awake included object is the last new one of its kind, no failure is hidden: a pass
      that reports nothing and ends without an error has put every included object to sleep. */
  lemma NothingHidden(w: World, included: Included)
    requires Filed(w.secret) && Listing(w, included) && AllExposed(w, included)
    requires SleepPass(w, included).ok && SleepPass(w, included).failed == map[]
    ensures Applied(SleepPass(w, included).world, included, true)
  {
    forall kind, i | kind in included && 0 <= i < |included[kind]|
      ensures Slept(w, included, kind, i)
    {
      ExposedSlept(w, included, kind, i);
    }
    AppliedWhenAllSlept(w, included);
  }

  // ---- an object that has a record ----

  lemma {:induction false} KindsLeaveRecorded(
    w: World, kinds: seq<Kind>, included: Included, failed: Failures, key: Key)
    requires Filed(w.secret) && key in w.cluster && Recorded(w.secret, key)
    requires forall kind :: kind in included ==> OfKind(included[kind], kind) && Distinct(included[kind])
    requires key.kind in included && key in Keys(included[key.kind])
    ensures var w' := SleepKinds(w, kinds, included, failed).world;
            && Filed(w'.secret) && Recorded(w'.secret, key)
            && key in w'.cluster && w'.cluster[key] == w.cluster[key]
    decreases |kinds|
  {
    if kinds != [] {
      var kind, rest := kinds[0], kinds[1..];
      if kind !in included {
        KindsLeaveRecorded(w, rest, included, failed, key);
      } else {
        var items := included[kind];
        var done := SleepKind(w, kind, items);
        SecretAfter(w, kind, items);
        ScanOfKind(w, kind, items);
        if kind == key.kind {
          RecordedLeftAlone(w, kind, items, key);
        } else {
          assert key !in Keys(items) && key !in Keys(Saved(w.secret, kind));
          StrangerKept(w, kind, items, key);
        }
        if done.ok {
          KindsLeaveRecorded(done.world, rest, included,
                             if done.failed == [] then failed else failed[kind := done.failed], key);
        }
      }
    }
  }

  /** Sleep passes that include the object, and edits of other objects. */
  ghost predicate KeepsIncluded(steps: seq<Step>, key: Key)
  {
    forall step :: step in steps ==>
      match step
      case SleepStep(included) => key.kind in included && key in Keys(included[key.kind])
      case WakeStep(_) => false
      case EditStep(edited, _) => edited != key
  }

  /** Whatever fails, no sequence of sleep passes touches an included object that has a record: one
      whose scale-down failed when its record was made is never tried again. */
  lemma {:induction false} RecordedNeverTouched(w: World, steps: seq<Step>, key: Key)
    requires Filed(w.secret) && WellListed(steps) && KeepsIncluded(steps, key)
    requires key in w.cluster && Recorded(w.secret, key)
    ensures key in Run(w, steps).cluster && Run(w, steps).cluster[key] == w.cluster[key]
    ensures Recorded(Run(w, steps).secret, key)
    decreases |steps|
  {
    if steps != [] {
      assert steps[0] in steps && forall step :: step in steps[1..] ==> step in steps;
      if steps[0].SleepStep? {
        KindsLeaveRecorded(w, SLEEP_ORDER, steps[0].included, map[], key);
      }
      RecordedNeverTouched(Apply(w, steps[0]), steps[1..], key);
    }
  }

  // ---- a pass that ends with an error ----

  /** What a failed pass has done to the kinds before and after the one it failed at. */
  ghost predicate StoppedAt(w: World, w': World, kinds: seq<Kind>, included: Included, n: nat)
  {
    && n < |kinds| && kinds[n] in included && w'.cluster.Keys == w.cluster.Keys
    && (forall m :: 0 <= m < n && kinds[m] in included ==>
          Keys(Saved(w'.secret, kinds[m])) == Keys(included[kinds[m]]))
    && (forall m :: n < m < |kinds| ==> Saved(w'.secret, kinds[m]) == Saved(w.secret, kinds[m]))
    && (forall m, key :: n < m < |kinds| && key in w.cluster && key.kind == kinds[m] ==>
          w'.cluster[key] == w.cluster[key])
  }

  lemma {:induction false} KindsStop(w: World, kinds: seq<Kind>, included: Included, failed: Failures)
    returns (n: nat)
    requires Ready(w, kinds, included) && !SleepKinds(w, kinds, included, failed).ok
    requires forall kind :: kind in included ==> included[kind] != []
    ensures StoppedAt(w, SleepKinds(w, kinds, included, failed).world, kinds, included, n)
    decreases |kinds|
  {
    var kind, rest := kinds[0], kinds[1..];
    ReadyNext(w, kinds, included);
    if kind !in included {
      var m := KindsStop(w, rest, included, failed);
      n := m + 1;
      ShiftStop(w, w, SleepKinds(w, kinds, included, failed).world, kinds, included, m);
    } else {
      var items := included[kind];
      var done := SleepKind(w, kind, items);
      SecretAfter(w, kind, items);
      ClusterAfter(w, kind, items);
      forall key | key in w.cluster && key.kind != kind
        ensures key in done.world.cluster && done.world.cluster[key] == w.cluster[key]
      {
        assert key !in Keys(items) && key !in Keys(Saved(w.secret, kind));
        StrangerKept(w, kind, items, key);
      }
      if !done.ok {
        n := 0;
      } else {
        var failed' := if done.failed == [] then failed else failed[kind := done.failed];
        var m := KindsStop(done.world, rest, included, failed');
        n := m + 1;
        FinishedKind(w, kind, items);
        LaterKindsKeepRecords(done.world, rest, included, failed', kind);
        ShiftStop(w, done.world, SleepKinds(w, kinds, included, failed).world, kinds, included, m);
      }
    }
  }

  lemma ShiftStop(w: World, mid: World, w': World, kinds: seq<Kind>, included: Included, m: nat)
    requires kinds != [] && NoRepeats(kinds) && StoppedAt(mid, w', kinds[1..], included, m)
    requires kinds[0] in included ==> Keys(Saved(w'.secret, kinds[0])) == Keys(included[kinds[0]])
    requires mid.cluster.Keys == w.cluster.Keys
    requires forall k :: k != kinds[0] ==> Saved(mid.secret, k) == Saved(w.secret, k)
    requires forall key :: key in w.cluster && key.kind != kinds[0] ==> mid.cluster[key] == w.cluster[key]
    ensures StoppedAt(w, w', kinds, included, m + 1)
  {
    assert forall i :: 1 <= i < |kinds| ==> kinds[i] == kinds[1..][i - 1];
  }

  /** Deployments, StatefulSets, CronJobs, ReplicaSets: a pass that ends with an error has recorded the
      included objects of the kinds before the one it failed at, and left those after it alone. */
  lemma PassStops(w: World, included: Included) returns (n: nat)
    requires Filed(w.secret) && Listing(w, included) && !SleepPass(w, included).ok
    ensures StoppedAt(w, SleepPass(w, included).world, [Deployment, StatefulSet, CronJob, ReplicaSet], included, n)
  {
    ListingIsReady(w, included);
    n := KindsStop(w, SLEEP_ORDER, included, map[]);
  }

  // ---- passes over Deployments alone ----

  lemma {:induction false} AbsentKindsSkipped(w: World, kinds: seq<Kind>, included: Included, failed: Failures)
    requires forall kind :: kind in kinds ==> kind !in included
    ensures SleepKinds(w, kinds, included, failed) == PassResult(w, true, failed)
    decreases |kinds|
  {
    if kinds != [] {
      AbsentKindsSkipped(w, kinds[1..], included, failed);
    }
  }

  lemma OnlyDeployments(w: World, items: seq<Resource>)
    ensures var done := SleepKind(w, Deployment, items);
            SleepPass(w, map[Deployment := items])
            == PassResult(done.world, done.ok,
                          if done.ok && done.failed != [] then map[Deployment := done.failed] else map[])
  {
    var done, included: Included := SleepKind(w, Deployment, items), map[Deployment := items];
    assert SLEEP_ORDER[1..] == [StatefulSet, CronJob, ReplicaSet];
    AbsentKindsSkipped(done.world, SLEEP_ORDER[1..], included,
                       if done.failed == [] then map[] else map[Deployment := done.failed]);
  }

  /** A Deployment that is awake, with nothing recorded. */
  ghost predicate AwakeDeployment(w: World, r: Resource)
  {
    && w.secret == map[] && r.key.kind == Deployment
    && r.key in w.cluster && w.cluster[r.key] == r.value && !IsDormant(r.value)
  }

  lemma LoneScan(w: World, r: Resource)
    requires w.secret == map[]
    ensures ScanKind(w, Deployment, [r]) == ScanOne(Scan(w, [], [], [], []), r)
  {
    var st := Scan(w, [], [], [], []);
    assert [r][1..] == [] && Saved(w.secret, Deployment) == [];
    assert ScanAll(ScanOne(st, r), []) == ScanOne(st, r);
  }

  /** A refused write of the Secret: the object is scaled to zero and its count is nowhere. */
  lemma RefusedWriteLoses(w: World, r: Resource)
    requires AwakeDeployment(w, r)
    requires w.fate(w.calls).Granted? && w.fate(w.calls + 1).Granted? && w.fate(w.calls + 2).Refused?
    ensures Original(w, r.key) == Some(r.value)
    ensures var lost := SleepPass(w, map[Deployment := [r]]);
            && !lost.ok && Original(lost.world, r.key) == Some(Replicas(0))
            && lost.world == World(w.cluster[r.key := Replicas(0)], map[], w.fate, w.calls + 3)
  {
    LoneScan(w, r);
    OnlyDeployments(w, [r]);
  }

  /** A dropped record whose wake fails ends the block before the write: the new object is scaled to
      zero, its count is nowhere, and the old records stay. */
  lemma FailedWakeLoses(w: World, r: Resource, dropped: Resource)
    requires r.key.kind == Deployment && r.key in w.cluster && w.cluster[r.key] == r.value && !IsDormant(r.value)
    requires w.secret == map[Deployment := [dropped]] && dropped.key.kind == Deployment
    requires (dropped.key.name, dropped.key.namespace) != (r.key.name, r.key.namespace)
    requires w.fate(w.calls).Granted? && w.fate(w.calls + 1).Granted? && !w.fate(w.calls + 2).Granted?
    ensures Original(w, r.key) == Some(r.value)
    ensures var lost := SleepPass(w, map[Deployment := [r]]);
            && !lost.ok && Original(lost.world, r.key) == Some(Replicas(0))
            && lost.world == World(w.cluster[r.key := Replicas(0)], w.secret, w.fate, w.calls + 3)
  {
    var slept := World(w.cluster[r.key := Replicas(0)], w.secret, w.fate, w.calls + 2);
    var st := Scan(w, [dropped], [], [], []);
    assert IndexOf([dropped], r.key) < 0 by { assert [dropped][1..] == []; }
    assert ScanOne(st, r) == Scan(slept, [dropped], [r], [], []);
    assert ScanKind(w, Deployment, [r]) == ScanOne(st, r) by {
      assert Saved(w.secret, Deployment) == [dropped] && [r][1..] == [];
      assert ScanAll(st, [r]) == ScanAll(ScanOne(st, r), []);
    }
    assert WakeAll(slept, [dropped]) == Reply(Called(slept), false);
    OnlyDeployments(w, [r]);
  }

  lemma LoneRecord(r: Resource)
    ensures AllRecords(map[Deployment := [r]], SLEEP_ORDER) == [r]
  {
    var ledger, rest: seq<Kind> := map[Deployment := [r]], [StatefulSet, CronJob, ReplicaSet];
    assert SLEEP_ORDER[1..] == rest && rest[1..] == [CronJob, ReplicaSet];
    assert [CronJob, ReplicaSet][1..] == [ReplicaSet] && [ReplicaSet][1..] == [];
    assert AllRecords(ledger, [ReplicaSet]) == [] == AllRecords(ledger, [CronJob, ReplicaSet]);
    assert AllRecords(ledger, rest) == [];
  }

  lemma LoneWake(w: World, r: Resource)
    requires w.secret == map[Deployment := [r]] && r.key in w.cluster && w.cluster[r.key] == r.value
    requires w.fate(w.calls).Granted? && w.fate(w.calls + 1).Granted? && w.fate(w.calls + 2).Granted?
    ensures WakePass(w, SLEEP_ORDER) == Reply(World(w.cluster, map[], w.fate, w.calls + 3), true)
  {
    LoneRecord(r);
    assert w.cluster[r.key := r.value] == w.cluster;
    assert Wake(w, r) == Reply(w.(calls := w.calls + 2), true);
    assert [r][1..] == [];
    assert WakeAll(w, [r]) == Wake(w, r);
  }

  /** The retry records the zero, so the next wake restores the zero. */
  lemma RetryRecordsZero(w: World, r: Resource)
    requires w.secret == map[] && r.key.kind == Deployment && r.key in w.cluster
    requires w.cluster[r.key] == r.value == Replicas(0)
    requires w.fate(w.calls).Granted? && w.fate(w.calls + 1).Granted?
    requires w.fate(w.calls + 2).Granted? && w.fate(w.calls + 3).Granted?
    ensures var retried := SleepPass(w, map[Deployment := [r]]);
            && retried.ok && retried.failed == map[]
            && retried.world == World(w.cluster, map[Deployment := [r]], w.fate, w.calls + 1)
            && WakePass(retried.world, SLEEP_ORDER) == Reply(World(w.cluster, map[], w.fate, w.calls + 4), true)
  {
    LoneScan(w, r);
    OnlyDeployments(w, [r]);
    var st := ScanKind(w, Deployment, [r]);
    assert st == Scan(w, [], [r], [], []) && st.added + st.kept == [r];
    assert SleepKind(w, Deployment, [r]).world.secret == map[Deployment := [r]];
    var retried := SleepPass(w, map[Deployment := [r]]).world;
    LoneWake(retried, r);
  }
}
