/** The same sleep pass under other answers of the API server: when can a failure stay hidden? */
module Fates {
  import opened Resources
  import opened Passes
  import opened Conservation
  import opened Outcomes

  ghost function WithFate(w: World, fate: nat -> Verdict): World { w.(fate := fate) }

  ghost predicate AgreeUntil(f: nat -> Verdict, g: nat -> Verdict, n: nat)
  {
    forall k: nat :: k < n ==> f(k) == g(k)
  }

  // ---- a pass depends on the answers it gets, and on no others ----

  lemma UpdateSame(w: World, r: Resource, f: nat -> Verdict)
    ensures var done := UpdateClient(w, r);
            && w.calls <= done.world.calls && done.world.fate == w.fate
            && (AgreeUntil(w.fate, f, done.world.calls) ==>
                  UpdateClient(WithFate(w, f), r) == Reply(WithFate(done.world, f), done.ok))
  {}

  lemma {:induction false} WakesSame(w: World, rs: seq<Resource>, f: nat -> Verdict)
    ensures var done := WakeAll(w, rs);
            && w.calls <= done.world.calls && done.world.fate == w.fate
            && (AgreeUntil(w.fate, f, done.world.calls) ==>
                  WakeAll(WithFate(w, f), rs) == Reply(WithFate(done.world, f), done.ok))
    decreases |rs|
  {
    if rs != [] {
      UpdateSame(w, rs[0], f);
      WakesSame(Wake(w, rs[0]).world, rs[1..], f);
    }
  }

  ghost function ScanWithFate(st: Scan, fate: nat -> Verdict): Scan { st.(world := WithFate(st.world, fate)) }

  lemma OneSame(st: Scan, item: Resource, f: nat -> Verdict)
    ensures var done := ScanOne(st, item);
            && st.world.calls <= done.world.calls && done.world.fate == st.world.fate
            && (AgreeUntil(st.world.fate, f, done.world.calls) ==>
                  ScanOne(ScanWithFate(st, f), item) == ScanWithFate(done, f))
  {
    UpdateSame(st.world, item.(value := Dormant(item.key.kind)), f);
  }

  lemma {:induction false} ScanSame(st: Scan, items: seq<Resource>, f: nat -> Verdict)
    ensures var done := ScanAll(st, items);
            && st.world.calls <= done.world.calls && done.world.fate == st.world.fate
            && (AgreeUntil(st.world.fate, f, done.world.calls) ==>
                  ScanAll(ScanWithFate(st, f), items) == ScanWithFate(done, f))
    decreases |items|
  {
    if items != [] {
      OneSame(st, items[0], f);
      ScanSame(ScanOne(st, items[0]), items[1..], f);
    }
  }

  lemma WriteSame(w: World, kind: Kind, list: seq<Resource>, f: nat -> Verdict)
    ensures var done := WriteChanges(w, kind, list);
            && w.calls <= done.world.calls && done.world.fate == w.fate
            && (AgreeUntil(w.fate, f, done.world.calls) ==>
                  WriteChanges(WithFate(w, f), kind, list) == Reply(WithFate(done.world, f), done.ok))
  {}

  lemma KindSame(w: World, kind: Kind, items: seq<Resource>, f: nat -> Verdict)
    ensures var done := SleepKind(w, kind, items);
            && w.calls <= done.world.calls && done.world.fate == w.fate
            && (AgreeUntil(w.fate, f, done.world.calls) ==>
                  SleepKind(WithFate(w, f), kind, items) == done.(world := WithFate(done.world, f)))
  {
    var start := StartOf(w, kind);
    ScanSame(start, items, f);
    var st := ScanKind(w, kind, items);
    WakesSame(st.world, st.saved, f);
    WriteSame(WakeAll(st.world, st.saved).world, kind, st.added + st.kept, f);
    assert ScanWithFate(start, f) == StartOf(WithFate(w, f), kind);
  }

  lemma {:induction false} StartAdvances(w: World, kinds: seq<Kind>, included: Included, kind: Kind)
    ensures w.calls <= KindStart(w, kinds, included, kind).calls
    decreases |kinds|
  {
    if kinds != [] && kinds[0] != kind {
      if kinds[0] in included {
        KindSame(w, kinds[0], included[kinds[0]], w.fate);
        StartAdvances(SleepKind(w, kinds[0], included[kinds[0]]).world, kinds[1..], included, kind);
      } else {
        StartAdvances(w, kinds[1..], included, kind);
      }
    }
  }

  lemma {:induction false} TurnsAdvance(st: Scan, items: seq<Resource>, i: nat, j: nat)
    requires i <= j <= |items|
    ensures ScanAll(st, items[..i]).world.calls <= ScanAll(st, items[..j]).world.calls
    decreases j
  {
    if i < j {
      TurnsAdvance(st, items, i, j - 1);
      ScanSteps(st, items, j - 1);
      OneSame(ScanAll(st, items[..j - 1]), items[j - 1], st.world.fate);
    }
  }

  // ---- passes whose remaining calls are granted ----

  /** Every record that the kind drops is of an object that exists. */
  ghost predicate DroppedOf(w: World, kind: Kind, items: seq<Resource>)
  {
    forall r :: r in Saved(w.secret, kind) && r.key !in Keys(items) ==> r.key in w.cluster
  }

  ghost predicate DroppedExist(w: World, kinds: seq<Kind>, included: Included)
  {
    forall kind :: kind in kinds && kind in included ==> DroppedOf(w, kind, included[kind])
  }

  lemma DroppedNext(w: World, kinds: seq<Kind>, included: Included)
    requires Ready(w, kinds, included) && kinds != [] && kinds[0] in included
    ensures DroppedExist(SleepKind(w, kinds[0], included[kinds[0]]).world, kinds[1..], included)
            <==> DroppedExist(w, kinds[1..], included)
  {
    ReadyNext(w, kinds, included);
    SecretAfter(w, kinds[0], included[kinds[0]]);
    ClusterAfter(w, kinds[0], included[kinds[0]]);
  }

  lemma LeftExist(w: World, kind: Kind, items: seq<Resource>)
    requires Filed(w.secret) && Snapshot(w, kind, items) && DroppedOf(w, kind, items)
    ensures var st := ScanKind(w, kind, items); forall r :: r in st.saved ==> r.key in st.world.cluster
  {
    var start := StartOf(w, kind);
    ScanSplits(start, items, kind);
    ScanTouchesNew(start, items);
  }

  /** Once the item loop is over and the remaining calls are granted, the block succeeds. */
  lemma KindSucceeds(w: World, kind: Kind, items: seq<Resource>)
    requires Filed(w.secret) && Snapshot(w, kind, items) && DroppedOf(w, kind, items)
    requires GrantedFrom(ScanKind(w, kind, items).world)
    ensures SleepKind(w, kind, items).ok && GrantedFrom(SleepKind(w, kind, items).world)
  {
    var st := ScanKind(w, kind, items);
    LeftExist(w, kind, items);
    GrantedWakes(st.world, st.saved);
  }

  lemma QuietKind(w: World, kind: Kind, items: seq<Resource>)
    requires Filed(w.secret) && Snapshot(w, kind, items) && DroppedOf(w, kind, items)
    requires GrantedFrom(w)
    ensures SleepKind(w, kind, items).ok && SleepKind(w, kind, items).failed == []
    ensures GrantedFrom(SleepKind(w, kind, items).world)
  {
    ScanSame(StartOf(w, kind), items, w.fate);
    KindSucceeds(w, kind, items);
    KindReports(w, kind, items);
    forall i: nat | i < |items|
      ensures Confirmed(Turn(StartOf(w, kind), items, i))
    {
      ScanSame(StartOf(w, kind), items[..i], w.fate);
    }
  }

  lemma {:induction false} QuietKinds(w: World, kinds: seq<Kind>, included: Included, failed: Failures)
    requires Ready(w, kinds, included) && DroppedExist(w, kinds, included) && GrantedFrom(w)
    ensures SleepKinds(w, kinds, included, failed).ok && SleepKinds(w, kinds, included, failed).failed == failed
    decreases |kinds|
  {
    if kinds != [] {
      assert kinds == [kinds[0]] + kinds[1..];
      ReadyNext(w, kinds, included);
      if kinds[0] !in included {
        QuietKinds(w, kinds[1..], included, failed);
      } else {
        QuietKind(w, kinds[0], included[kinds[0]]);
        DroppedNext(w, kinds, included);
        QuietKinds(SleepKind(w, kinds[0], included[kinds[0]]).world, kinds[1..], included, failed);
      }
    }
  }

  /** A first kind that succeeds without a report, and calls that are granted from then on. */
  lemma QuietAfterFirst(w: World, kinds: seq<Kind>, included: Included, failed: Failures)
    requires Ready(w, kinds, included) && DroppedExist(w, kinds, included) && kinds != [] && kinds[0] in included
    requires SleepKind(w, kinds[0], included[kinds[0]]).ok && SleepKind(w, kinds[0], included[kinds[0]]).failed == []
    requires GrantedFrom(SleepKind(w, kinds[0], included[kinds[0]]).world)
    ensures SleepKinds(w, kinds, included, failed).ok && SleepKinds(w, kinds, included, failed).failed == failed
  {
    assert kinds == [kinds[0]] + kinds[1..];
    ReadyNext(w, kinds, included);
    DroppedNext(w, kinds, included);
    QuietKinds(SleepKind(w, kinds[0], included[kinds[0]]).world, kinds[1..], included, failed);
  }

  // ---- one refused update that nobody hears of ----

  /** An awake item without a record, and a later one without a record. */
  ghost predicate Masked(w: World, items: seq<Resource>, i: nat)
    requires i < |items|
  {
    !IsDormant(items[i].value) && !Recorded(w.secret, items[i].key) && !IsLastNew(w, items, i)
  }

  ghost predicate RefusesOnly(w: World, bad: nat)
  {
    forall n :: w.calls <= n ==> w.fate(n) == if n == bad then Refused else Granted
  }

  lemma MaskedScan(w: World, kind: Kind, items: seq<Resource>, i: nat, bad: nat)
    requires Filed(w.secret) && Snapshot(w, kind, items) && i < |items| && Masked(w, items, i)
    requires RefusesOnly(w, bad) && bad == Turn(StartOf(w, kind), items, i).calls + 1
    ensures !Lands(Turn(StartOf(w, kind), items, i))
    ensures ScanAll(StartOf(w, kind), items[..i + 1]).world.calls == bad + 1
  {
    var start := StartOf(w, kind);
    ScanSame(start, items[..i], w.fate);
    AtTurn(w, kind, items, i);
    ScanSteps(start, items, i);
  }

  lemma MaskedKind(w: World, kind: Kind, items: seq<Resource>, i: nat, bad: nat)
    requires Filed(w.secret) && Snapshot(w, kind, items) && DroppedOf(w, kind, items)
    requires i < |items| && Masked(w, items, i)
    requires RefusesOnly(w, bad) && bad == Turn(StartOf(w, kind), items, i).calls + 1
    ensures SleepKind(w, kind, items).ok && SleepKind(w, kind, items).failed == []
    ensures GrantedFrom(SleepKind(w, kind, items).world)
  {
    var start := StartOf(w, kind);
    MaskedScan(w, kind, items, i, bad);
    TurnsAdvance(start, items, i + 1, |items|);
    assert items[..|items|] == items;
    ScanSame(start, items, w.fate);
    KindSucceeds(w, kind, items);
    KindReports(w, kind, items);
    forall j: nat | i < j < |items|
      ensures Confirmed(Turn(start, items, j))
    {
      TurnsAdvance(start, items, i + 1, j);
      ScanSame(start, items[..j], w.fate);
    }
  }

  ghost function AllGrant(): nat -> Verdict { n => Granted }

  ghost function RefuseOnly(bad: nat): nat -> Verdict { n => if n == bad then Refused else Granted }

  /** The number of the update call of the item's scale-down, when all calls are granted. */
  ghost function UpdateCall(w: World, kinds: seq<Kind>, included: Included, kind: Kind, i: nat): nat
    requires kind in included && i < |included[kind]|
  {
    Turn(StartOf(KindStart(WithFate(w, AllGrant()), kinds, included, kind), kind), included[kind], i).calls + 1
  }

  lemma TurnIsSame(w: World, kind: Kind, items: seq<Resource>, i: nat, bad: nat)
    requires i < |items| && w.fate == RefuseOnly(bad)
    requires bad == Turn(StartOf(WithFate(w, AllGrant()), kind), items, i).calls + 1
    ensures bad == Turn(StartOf(w, kind), items, i).calls + 1
  {
    var start := StartOf(WithFate(w, AllGrant()), kind);
    assert ScanWithFate(start, w.fate) == StartOf(w, kind);
    ScanSame(start, items[..i], w.fate);
  }

  /** The item has its turn in the first kind: what is refused is its own update, and nothing else. */
  lemma MaskedFirst(w: World, kinds: seq<Kind>, included: Included, i: nat)
    requires Ready(w, kinds, included) && DroppedExist(w, kinds, included) && kinds != []
    requires kinds[0] in included && i < |included[kinds[0]]| && Masked(w, included[kinds[0]], i)
    requires w.fate == RefuseOnly(UpdateCall(w, kinds, included, kinds[0], i))
    ensures SleepKinds(w, kinds, included, map[]).ok && SleepKinds(w, kinds, included, map[]).failed == map[]
    ensures !Lands(Turn(StartOf(w, kinds[0]), included[kinds[0]], i))
  {
    var kind, items, bad := kinds[0], included[kinds[0]], UpdateCall(w, kinds, included, kinds[0], i);
    TurnIsSame(w, kind, items, i, bad);
    MaskedScan(w, kind, items, i, bad);
    MaskedKind(w, kind, items, i, bad);
    QuietAfterFirst(w, kinds, included, map[]);
  }

  /** The item has its turn in a later kind: the first kind goes as if all calls were granted. */
  lemma BeforeMasked(w: World, kinds: seq<Kind>, included: Included, kind: Kind, i: nat)
    requires Ready(w, kinds, included) && DroppedExist(w, kinds, included) && kinds != [] && kinds[0] in included
    requires kind != kinds[0] && kind in included && i < |included[kind]|
    requires w.fate == RefuseOnly(UpdateCall(w, kinds, included, kind, i))
    ensures var done := SleepKind(w, kinds[0], included[kinds[0]]);
            && done.ok && done.failed == [] && done.world.fate == w.fate
            && UpdateCall(done.world, kinds[1..], included, kind, i) == UpdateCall(w, kinds, included, kind, i)
  {
    var first, items, v := kinds[0], included[kinds[0]], WithFate(w, AllGrant());
    var done := SleepKind(v, first, items);
    var start := KindStart(done.world, kinds[1..], included, kind);
    assert kinds == [first] + kinds[1..];
    KindSame(v, first, items, w.fate);
    StartAdvances(done.world, kinds[1..], included, kind);
    ScanSame(StartOf(start, kind), included[kind][..i], start.fate);
    QuietKind(v, first, items);
    assert WithFate(v, w.fate) == w;
    assert WithFate(SleepKind(w, first, items).world, AllGrant()) == done.world;
  }

  lemma {:induction false} MaskedKinds(w: World, kinds: seq<Kind>, included: Included, kind: Kind, i: nat)
    requires Ready(w, kinds, included) && DroppedExist(w, kinds, included)
    requires kind in kinds && kind in included && i < |included[kind]| && Masked(w, included[kind], i)
    requires w.fate == RefuseOnly(UpdateCall(w, kinds, included, kind, i))
    ensures SleepKinds(w, kinds, included, map[]).ok && SleepKinds(w, kinds, included, map[]).failed == map[]
    ensures !Lands(Turn(StartOf(KindStart(w, kinds, included, kind), kind), included[kind], i))
    decreases |kinds|
  {
    var first, rest := kinds[0], kinds[1..];
    assert kinds == [first] + rest;
    ReadyNext(w, kinds, included);
    if first == kind {
      MaskedFirst(w, kinds, included, i);
    } else if first !in included {
      MaskedKinds(w, rest, included, kind, i);
    } else {
      var done := SleepKind(w, first, included[first]);
      BeforeMasked(w, kinds, included, kind, i);
      DroppedNext(w, kinds, included);
      SecretAfter(w, first, included[first]);
      SameRecords(w, done.world, kind, included[kind]);
      MaskedKinds(done.world, rest, included, kind, i);
    }
  }

  /** A dropped record of an object that does not exist ends the pass with an error. */
  lemma {:induction false} MissingEndsPass(w: World, kinds: seq<Kind>, included: Included, failed: Failures)
    requires Ready(w, kinds, included) && SleepKinds(w, kinds, included, failed).ok
    ensures DroppedExist(w, kinds, included)
    decreases |kinds|
  {
    if kinds != [] {
      assert kinds == [kinds[0]] + kinds[1..];
      ReadyNext(w, kinds, included);
      if kinds[0] !in included {
        MissingEndsPass(w, kinds[1..], included, failed);
      } else {
        var items := included[kinds[0]];
        var done, st := SleepKind(w, kinds[0], items), ScanKind(w, kinds[0], items);
        ScanOfKind(w, kinds[0], items);
        ClusterAfter(w, kinds[0], items);
        WakesWrite(st.world, st.saved);
        DroppedNext(w, kinds, included);
        MissingEndsPass(done.world, kinds[1..], included,
                        if done.failed == [] then failed else failed[kinds[0] := done.failed]);
      }
    }
  }

  // ---- the exact condition ----

  /** A pass that ends without an error and reports nothing has put every included object to sleep. */
  ghost predicate Honest(w: World, included: Included)
  {
    SleepPass(w, included).ok && SleepPass(w, included).failed == map[] ==>
      Applied(SleepPass(w, included).world, included, true)
  }

  /** An awake object that has a record, or a later new one behind it, can be left awake unnoticed. */
  lemma UnexposedIsDishonest(w: World, included: Included, kind: Kind, i: nat) returns (fate: nat -> Verdict)
    requires Filed(w.secret) && Listing(w, included) && DroppedExist(w, SLEEP_ORDER, included)
    requires kind in included && i < |included[kind]|
    requires !IsDormant(included[kind][i].value) && !IsLastNew(w, included[kind], i)
    ensures !Honest(WithFate(w, fate), included)
  {
    var items := included[kind];
    EveryKindHandled(kind);
    if Recorded(w.secret, items[i].key) {
      fate := AllGrant();
      ListingIsReady(WithFate(w, fate), included);
      QuietKinds(WithFate(w, fate), SLEEP_ORDER, included, map[]);
    } else {
      fate := RefuseOnly(UpdateCall(w, SLEEP_ORDER, included, kind, i));
      ListingIsReady(WithFate(w, fate), included);
      assert Masked(WithFate(w, fate), items, i);
      MaskedKinds(WithFate(w, fate), SLEEP_ORDER, included, kind, i);
    }
    assert items[i] in items;
    IncludedSleeps(WithFate(w, fate), included, kind, i);
  }

  /** Exactly when a pass can be trusted whatever calls fail: every awake included object is the last
      new one of its kind, or a dropped record of a missing object makes every pass end with an error. */
  lemma HonestExactlyWhenExposed(w: World, included: Included)
    requires Filed(w.secret) && Listing(w, included)
    ensures (forall fate :: Honest(WithFate(w, fate), included))
            <==> AllExposed(w, included) || !DroppedExist(w, SLEEP_ORDER, included)
  {
    if AllExposed(w, included) || !DroppedExist(w, SLEEP_ORDER, included) {
      forall fate
        ensures Honest(WithFate(w, fate), included)
      {
        var v := WithFate(w, fate);
        ListingIsReady(v, included);
        if SleepPass(v, included).ok && SleepPass(v, included).failed == map[] {
          MissingEndsPass(v, SLEEP_ORDER, included, map[]);
          NothingHidden(v, included);
        }
      }
    } else {
      var kind :| kind in included && !Exposed(w, included[kind]);
      var i :| 0 <= i < |included[kind]| && !IsDormant(included[kind][i].value) && !IsLastNew(w, included[kind], i);
      var fate := UnexposedIsDishonest(w, included, kind, i);
    }
  }
}
