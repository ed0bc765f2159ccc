/** The original value of every object can always be read off the cluster and the Secret. */
module Conservation {
  import opened Wrappers
  import opened Resources
  import opened Passes

  /** The recorded value if there is one, else the live value. */
  ghost function Original(w: World, key: Key): Option<Value>
  {
    if Recorded(w.secret, key) then Some(ValueOf(Saved(w.secret, key.kind), key))
    else if key in w.cluster then Some(w.cluster[key])
    else None
  }

  ghost predicate SameOriginals(w: World, w': World)
  {
    forall key :: Original(w', key) == Original(w, key)
  }

  /** The items are objects of the kind, each once, with the values they have now. */
  ghost predicate Snapshot(w: World, kind: Kind, items: seq<Resource>)
  {
    && OfKind(items, kind) && Distinct(items)
    && forall r :: r in items ==> r.key in w.cluster && w.cluster[r.key] == r.value
  }

  /** The rewritten record list reaches the Secret: no wake of a dropped record fails and the
      write is not refused. */
  ghost predicate RecordsLand(w: World, kind: Kind, items: seq<Resource>)
  {
    var st := ScanKind(w, kind, items);
    var woken := WakeAll(st.world, st.saved);
    woken.ok && !Fate(woken.world).Refused?
  }

  /** No new object has been scaled down. */
  ghost predicate NothingSlept(w: World, kind: Kind, items: seq<Resource>)
  {
    var st := ScanKind(w, kind, items);
    forall r :: r in st.added && r.key in st.world.cluster ==> st.world.cluster[r.key] == r.value
  }

  /** The lists the item loop leaves, for a Secret in order. */
  lemma ScanOfKind(w: World, kind: Kind, items: seq<Resource>)
    requires Filed(w.secret) && OfKind(items, kind) && Distinct(items)
    ensures var st, before := ScanKind(w, kind, items), Saved(w.secret, kind);
            && (forall r :: r in st.saved <==> r in before && r.key !in Keys(items))
            && (forall r :: r in st.kept <==> r in before && r.key in Keys(items))
            && (forall r :: r in st.added <==> r in items && r.key !in Keys(before))
            && Distinct(st.saved) && Distinct(st.added + st.kept)
            && OfKind(st.added + st.kept, kind) && Keys(st.added + st.kept) == Keys(items)
  {
    var start := Scan(w, Saved(w.secret, kind), [], [], []);
    ScanSplits(start, items, kind);
    ScanStaysDistinct(start, items, kind);
    var st := ScanKind(w, kind, items);
    DistinctAppends(st.added, st.kept);
    KeysAppend(st.added, st.kept);
  }

  /** The Secret after one kind of a sleep pass. */
  lemma SecretAfter(w: World, kind: Kind, items: seq<Resource>)
    requires Filed(w.secret) && OfKind(items, kind) && Distinct(items)
    ensures var w', st := SleepKind(w, kind, items).world, ScanKind(w, kind, items);
            && w'.fate == w.fate && Filed(w'.secret)
            && w'.secret == (if RecordsLand(w, kind, items) && items != []
                             then w.secret[kind := st.added + st.kept] else w.secret)
  {
    var st := ScanKind(w, kind, items);
    ScanOfKind(w, kind, items);
    ScanTouchesNew(Scan(w, Saved(w.secret, kind), [], [], []), items);
    WakesTouchTheirs(st.world, st.saved);
    if items == [] {
      assert st.added + st.kept == [];
    } else {
      assert items[0].key in Keys(st.added + st.kept);
    }
  }

  /** The cluster after one kind of a sleep pass. */
  lemma ClusterAfter(w: World, kind: Kind, items: seq<Resource>)
    requires Filed(w.secret) && OfKind(items, kind) && Distinct(items)
    ensures var w', st := SleepKind(w, kind, items).world, ScanKind(w, kind, items);
            && w'.cluster == WakeAll(st.world, st.saved).world.cluster
            && w'.cluster.Keys == st.world.cluster.Keys == w.cluster.Keys
            && OnlyTouches(w, st.world, Keys(st.added))
            && (forall key :: key in w.cluster && key !in Keys(st.saved) ==>
                  w'.cluster[key] == st.world.cluster[key])
  {
    var st := ScanKind(w, kind, items);
    ScanTouchesNew(Scan(w, Saved(w.secret, kind), [], [], []), items);
    WakesTouchTheirs(st.world, st.saved);
  }

  /** Once the wakes have succeeded, every dropped object has its recorded value. */
  lemma DroppedAreAwake(w: World, kind: Kind, items: seq<Resource>, r: Resource)
    requires Filed(w.secret) && OfKind(items, kind) && Distinct(items)
    requires r in Saved(w.secret, kind) && r.key !in Keys(items)
    requires WakeAll(ScanKind(w, kind, items).world, ScanKind(w, kind, items).saved).ok
    ensures var w' := SleepKind(w, kind, items).world;
            r.key in w'.cluster && w'.cluster[r.key] == r.value
  {
    var st := ScanKind(w, kind, items);
    ScanOfKind(w, kind, items);
    WakesWrite(st.world, st.saved);
    ClusterAfter(w, kind, items);
  }

  lemma RecordedIs(ledger: Ledger, r: Resource)
    requires Filed(ledger) && r in Saved(ledger, r.key.kind)
    ensures Recorded(ledger, r.key) && ValueOf(Saved(ledger, r.key.kind), r.key) == r.value
  {}

  /** Objects that are neither included nor recorded, and all objects of other kinds. */
  lemma StrangerKept(w: World, kind: Kind, items: seq<Resource>, key: Key)
    requires Filed(w.secret) && OfKind(items, kind) && Distinct(items)
    requires key !in Keys(items) && key !in Keys(Saved(w.secret, kind))
    ensures var w' := SleepKind(w, kind, items).world;
            && Original(w', key) == Original(w, key)
            && (key in w.cluster ==> key in w'.cluster && w'.cluster[key] == w.cluster[key])
  {
    SecretAfter(w, kind, items);
    ClusterAfter(w, kind, items);
    ScanOfKind(w, kind, items);
    var st := ScanKind(w, kind, items);
    assert key !in Keys(st.added + st.kept);
    KeysAppend(st.added, st.kept);
  }

  lemma RecordedKept(w: World, kind: Kind, items: seq<Resource>, r: Resource)
    requires Filed(w.secret) && OfKind(items, kind) && Distinct(items)
    requires r in Saved(w.secret, kind)
    ensures var w' := SleepKind(w, kind, items).world; Original(w', r.key) == Original(w, r.key) == Some(r.value)
  {
    var w', st := SleepKind(w, kind, items).world, ScanKind(w, kind, items);
    SecretAfter(w, kind, items);
    ScanOfKind(w, kind, items);
    RecordedIs(w.secret, r);
    if w'.secret == w.secret {
    } else if r.key in Keys(items) {
      assert r in st.added + st.kept;
      RecordedIs(w'.secret, r);
    } else {
      DroppedAreAwake(w, kind, items, r);
    }
  }

  lemma NewKept(w: World, kind: Kind, items: seq<Resource>, r: Resource)
    requires Filed(w.secret) && Snapshot(w, kind, items)
    requires RecordsLand(w, kind, items) || NothingSlept(w, kind, items)
    requires r in items && r.key !in Keys(Saved(w.secret, kind))
    ensures var w' := SleepKind(w, kind, items).world; Original(w', r.key) == Original(w, r.key) == Some(r.value)
  {
    var w', st := SleepKind(w, kind, items).world, ScanKind(w, kind, items);
    SecretAfter(w, kind, items);
    ScanOfKind(w, kind, items);
    assert r in st.added && r in st.added + st.kept;
    if RecordsLand(w, kind, items) {
      RecordedIs(w'.secret, r);
    } else {
      ClusterAfter(w, kind, items);
    }
  }

  lemma OriginalKept(w: World, kind: Kind, items: seq<Resource>, key: Key)
    requires Filed(w.secret) && Snapshot(w, kind, items)
    requires RecordsLand(w, kind, items) || NothingSlept(w, kind, items)
    ensures Original(SleepKind(w, kind, items).world, key) == Original(w, key)
  {
    if key in Keys(Saved(w.secret, kind)) {
      RecordedKept(w, kind, items, Resource(key, ValueOf(Saved(w.secret, kind), key)));
    } else if key in Keys(items) {
      var r :| r in items && r.key == key;
      NewKept(w, kind, items, r);
    } else {
      StrangerKept(w, kind, items, key);
    }
  }

  lemma LostWhenSleptUnrecorded(w: World, kind: Kind, items: seq<Resource>) returns (key: Key)
    requires Filed(w.secret) && Snapshot(w, kind, items)
    requires !RecordsLand(w, kind, items) && !NothingSlept(w, kind, items)
    ensures Original(SleepKind(w, kind, items).world, key) != Original(w, key)
  {
    var st := ScanKind(w, kind, items);
    SecretAfter(w, kind, items);
    ClusterAfter(w, kind, items);
    ScanOfKind(w, kind, items);
    var r :| r in st.added && r.key in st.world.cluster && st.world.cluster[r.key] != r.value;
    key := r.key;
    assert r in items;
  }

  /** One kind of a sleep pass keeps every original value exactly when the new records land
      or nothing was scaled down, whatever other calls fail. */
  lemma SleepKindConserves(w: World, kind: Kind, items: seq<Resource>)
    requires Filed(w.secret) && Snapshot(w, kind, items)
    ensures SameOriginals(w, SleepKind(w, kind, items).world)
            <==> RecordsLand(w, kind, items) || NothingSlept(w, kind, items)
  {
    if RecordsLand(w, kind, items) || NothingSlept(w, kind, items) {
      forall key {
        OriginalKept(w, kind, items, key);
      }
    } else {
      var key := LostWhenSleptUnrecorded(w, kind, items);
    }
  }

  /** An included object that already has a record is not touched. */
  lemma RecordedLeftAlone(w: World, kind: Kind, items: seq<Resource>, key: Key)
    requires Filed(w.secret) && OfKind(items, kind) && Distinct(items)
    requires key in w.cluster && key in Keys(items) && key in Keys(Saved(w.secret, kind))
    ensures SleepKind(w, kind, items).world.cluster.Keys == w.cluster.Keys
    ensures SleepKind(w, kind, items).world.cluster[key] == w.cluster[key]
  {
    ScanOfKind(w, kind, items);
    ClusterAfter(w, kind, items);
  }

  // ---- whole passes ----

  ghost predicate SnapshotOf(w: World, included: Included)
  {
    forall kind :: kind in included ==> Snapshot(w, kind, included[kind])
  }

  predicate NoRepeats(kinds: seq<Kind>)
  {
    forall i, j :: 0 <= i < j < |kinds| ==> kinds[i] != kinds[j]
  }

  /** Every kind the pass gets to lands its records or has scaled nothing down. */
  ghost predicate PassKeeps(w: World, kinds: seq<Kind>, included: Included)
    decreases |kinds|
  {
    if kinds == [] then true
    else if kinds[0] !in included then PassKeeps(w, kinds[1..], included)
    else
      var items := included[kinds[0]];
      && (RecordsLand(w, kinds[0], items) || NothingSlept(w, kinds[0], items))
      && (SleepKind(w, kinds[0], items).ok ==> PassKeeps(SleepKind(w, kinds[0], items).world, kinds[1..], included))
  }

  /** A kind leaves the listed values of the other kinds as they were. */
  lemma SnapshotSurvives(w: World, kind: Kind, items: seq<Resource>, other: Kind, listed: seq<Resource>)
    requires Filed(w.secret) && OfKind(items, kind) && Distinct(items)
    requires other != kind && Snapshot(w, other, listed)
    ensures Snapshot(SleepKind(w, kind, items).world, other, listed)
  {
    forall r | r in listed
      ensures r.key in SleepKind(w, kind, items).world.cluster
      ensures SleepKind(w, kind, items).world.cluster[r.key] == r.value
    {
      StrangerKept(w, kind, items, r.key);
    }
  }

  lemma FailsUnlanded(w: World, kind: Kind, items: seq<Resource>)
    requires Filed(w.secret) && Snapshot(w, kind, items)
    requires !RecordsLand(w, kind, items) && !NothingSlept(w, kind, items)
    ensures !SleepKind(w, kind, items).ok
  {}

  /** A sleep pass keeps every original value exactly when it never scales an object down
      without landing its record. */
  lemma {:induction false} SleepKindsConserve(w: World, kinds: seq<Kind>, included: Included, failed: Failures)
    requires Filed(w.secret) && NoRepeats(kinds)
    requires forall kind :: kind in kinds && kind in included ==> Snapshot(w, kind, included[kind])
    ensures Filed(SleepKinds(w, kinds, included, failed).world.secret)
    ensures SleepKinds(w, kinds, included, failed).world.cluster.Keys == w.cluster.Keys
    ensures SleepKinds(w, kinds, included, failed).world.fate == w.fate
    ensures SameOriginals(w, SleepKinds(w, kinds, included, failed).world) <==> PassKeeps(w, kinds, included)
    decreases |kinds|
  {
    if kinds != [] {
      var rest := kinds[1..];
      if kinds[0] !in included {
        SleepKindsConserve(w, rest, included, failed);
      } else {
        var kind, items := kinds[0], included[kinds[0]];
        var done := SleepKind(w, kind, items);
        SecretAfter(w, kind, items);
        ClusterAfter(w, kind, items);
        SleepKindConserves(w, kind, items);
        if done.ok {
          forall other | other in rest && other in included
            ensures Snapshot(done.world, other, included[other])
          {
            SnapshotSurvives(w, kind, items, other, included[other]);
          }
          var failed' := if done.failed == [] then failed else failed[kind := done.failed];
          SleepKindsConserve(done.world, rest, included, failed');
          if !RecordsLand(w, kind, items) && !NothingSlept(w, kind, items) {
            FailsUnlanded(w, kind, items);
          }
          SameThrough(w, done.world, SleepKinds(done.world, rest, included, failed').world);
        }
      }
    }
  }

  lemma SameThrough(a: World, b: World, c: World)
    requires SameOriginals(a, b)
    ensures SameOriginals(a, c) <==> SameOriginals(b, c)
  {}

  /** What the fetch hands to a sleep pass: the listed values are current and no kind is empty. */
  ghost predicate Listing(w: World, included: Included)
  {
    SnapshotOf(w, included) && forall kind :: kind in included ==> included[kind] != []
  }

  /** A kind that later blocks of the pass do not handle keeps its records. */
  lemma {:induction false} LaterKindsKeepRecords(
    w: World, kinds: seq<Kind>, included: Included, failed: Failures, kind: Kind)
    requires kind !in kinds
    requires Filed(w.secret) && forall k :: k in included ==> OfKind(included[k], k) && Distinct(included[k])
    ensures Saved(SleepKinds(w, kinds, included, failed).world.secret, kind) == Saved(w.secret, kind)
    decreases |kinds|
  {
    if kinds != [] {
      if kinds[0] !in included {
        LaterKindsKeepRecords(w, kinds[1..], included, failed, kind);
      } else {
        var done := SleepKind(w, kinds[0], included[kinds[0]]);
        SecretAfter(w, kinds[0], included[kinds[0]]);
        if done.ok {
          var failed' := if done.failed == [] then failed else failed[kinds[0] := done.failed];
          LaterKindsKeepRecords(done.world, kinds[1..], included, failed', kind);
        }
      }
    }
  }

  lemma FinishedKind(w: World, kind: Kind, items: seq<Resource>)
    requires Filed(w.secret) && Snapshot(w, kind, items) && items != [] && SleepKind(w, kind, items).ok
    ensures RecordsLand(w, kind, items)
    ensures Keys(Saved(SleepKind(w, kind, items).world.secret, kind)) == Keys(items)
  {
    ScanOfKind(w, kind, items);
    SecretAfter(w, kind, items);
    assert items[0].key in Keys(items);
  }

  lemma {:induction false} FinishedKinds(w: World, kinds: seq<Kind>, included: Included, failed: Failures)
    requires Filed(w.secret) && NoRepeats(kinds) && SleepKinds(w, kinds, included, failed).ok
    requires forall kind :: kind in included ==>
               OfKind(included[kind], kind) && Distinct(included[kind]) && included[kind] != []
    requires forall kind :: kind in kinds && kind in included ==> Snapshot(w, kind, included[kind])
    ensures PassKeeps(w, kinds, included)
    ensures forall kind :: kind in kinds && kind in included ==>
              Keys(Saved(SleepKinds(w, kinds, included, failed).world.secret, kind)) == Keys(included[kind])
    decreases |kinds|
  {
    if kinds != [] {
      var kind, rest := kinds[0], kinds[1..];
      assert kinds == [kind] + rest;
      if kind !in included {
        FinishedKinds(w, rest, included, failed);
      } else {
        var items := included[kind];
        var done := SleepKind(w, kind, items);
        FinishedKind(w, kind, items);
        SecretAfter(w, kind, items);
        forall other | other in rest && other in included
          ensures Snapshot(done.world, other, included[other])
        {
          SnapshotSurvives(w, kind, items, other, included[other]);
        }
        var failed' := if done.failed == [] then failed else failed[kind := done.failed];
        FinishedKinds(done.world, rest, included, failed');
        LaterKindsKeepRecords(done.world, rest, included, failed', kind);
      }
    }
  }

  lemma EveryKindHandled(kind: Kind)
    ensures kind in SLEEP_ORDER
  {}

  /** A pass that ends without an error, whatever failed on the way, has lost nothing, and the saved
      keys of every included kind equal the included keys. */
  lemma FinishedPass(w: World, included: Included)
    requires Filed(w.secret) && Listing(w, included) && SleepPass(w, included).ok
    ensures SameOriginals(w, SleepPass(w, included).world)
    ensures forall kind :: kind in included ==>
              Keys(Saved(SleepPass(w, included).world.secret, kind)) == Keys(included[kind])
  {
    FinishedKinds(w, SLEEP_ORDER, included, map[]);
    SleepPassConserves(w, included);
    forall kind | kind in included {
      EveryKindHandled(kind);
    }
  }

  lemma SleepPassConserves(w: World, included: Included)
    requires Filed(w.secret) && SnapshotOf(w, included)
    ensures SameOriginals(w, SleepPass(w, included).world) <==> PassKeeps(w, SLEEP_ORDER, included)
    ensures Filed(SleepPass(w, included).world.secret)
    ensures SleepPass(w, included).world.cluster.Keys == w.cluster.Keys
    ensures SleepPass(w, included).world.fate == w.fate
  {
    SleepKindsConserve(w, SLEEP_ORDER, included, map[]);
  }

  lemma {:induction false} AllRecordsHas(ledger: Ledger, order: seq<Kind>, r: Resource)
    ensures r in AllRecords(ledger, order) <==> exists kind :: kind in order && r in Saved(ledger, kind)
  {
    if order != [] {
      assert order == [order[0]] + order[1..];
      AllRecordsHas(ledger, order[1..], r);
    }
  }

  lemma {:induction false} AllRecordsDistinct(ledger: Ledger, order: seq<Kind>)
    requires Filed(ledger) && NoRepeats(order)
    ensures Distinct(AllRecords(ledger, order))
  {
    if order != [] {
      var here, later := Saved(ledger, order[0]), AllRecords(ledger, order[1..]);
      AllRecordsDistinct(ledger, order[1..]);
      forall r | r in later
        ensures r.key.kind in order[1..]
      {
        AllRecordsHas(ledger, order[1..], r);
      }
      DistinctAppends(here, later);
    }
  }

  lemma CountsTwice(order: seq<Kind>, i: nat, j: nat)
    requires i < j < |order| && order[i] == order[j]
    ensures multiset(order)[order[j]] >= 2
  {
    assert order == order[..j] + [order[j]] + order[j + 1..];
    assert order[i] == order[..j][i] && order[i] in multiset(order[..j]);
  }

  lemma OrderReadsAll(ledger: Ledger, order: seq<Kind>)
    requires Filed(ledger) && IsKindOrder(order)
    ensures Distinct(AllRecords(ledger, order))
    ensures forall r :: r in AllRecords(ledger, order) <==> r in Saved(ledger, r.key.kind)
    ensures forall key :: key in Keys(AllRecords(ledger, order)) <==> Recorded(ledger, key)
  {
    forall i, j | 0 <= i < j < |order|
      ensures order[i] != order[j]
    {
      if order[i] == order[j] {
        CountsTwice(order, i, j);
      }
    }
    AllRecordsDistinct(ledger, order);
    forall r
      ensures r in AllRecords(ledger, order) <==> r in Saved(ledger, r.key.kind)
    {
      AllRecordsHas(ledger, order, r);
      assert multiset(order)[r.key.kind] == 1;
      assert r.key.kind in order;
    }
    forall key
      ensures key in Keys(AllRecords(ledger, order)) <==> Recorded(ledger, key)
    {
      if Recorded(ledger, key) {
        var r :| r in Saved(ledger, key.kind) && r.key == key;
        assert r in AllRecords(ledger, order);
      }
    }
  }

  /** Waking, wherever it stops and whether or not the purge lands, keeps every original value. */
  lemma WakePassConserves(w: World, order: seq<Kind>)
    requires Filed(w.secret) && IsKindOrder(order)
    ensures SameOriginals(w, WakePass(w, order).world)
    ensures Filed(WakePass(w, order).world.secret)
    ensures WakePass(w, order).world.cluster.Keys == w.cluster.Keys
    ensures WakePass(w, order).world.fate == w.fate
  {
    var rs := AllRecords(w.secret, order);
    var woken, w' := WakeAll(w, rs), WakePass(w, order).world;
    OrderReadsAll(w.secret, order);
    WakesTouchTheirs(w, rs);
    if woken.ok {
      WakesWrite(w, rs);
    }
    forall key
      ensures Original(w', key) == Original(w, key)
    {
      if Recorded(w.secret, key) {
        var r := Resource(key, ValueOf(Saved(w.secret, key.kind), key));
        assert r in rs;
      }
    }
  }
}
