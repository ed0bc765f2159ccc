/** Doing a pass again: waking in another order or after an interruption, and sleeping twice. */
module Repeats {
  import opened Wrappers
  import opened Resources
  import opened Passes
  import opened Conservation
  import opened Runs
  import opened FaultFree

  /** A wake that ran to its end, whatever failed around it: every recorded object has its record's
      value and every other object is as it was. */
  lemma FullWake(w: World, order: seq<Kind>)
    requires Filed(w.secret) && IsKindOrder(order) && WakePass(w, order).ok
    ensures WakePass(w, order).world.secret == map[]
    ensures WakePass(w, order).world.cluster.Keys == w.cluster.Keys
    ensures forall key :: key in w.cluster ==>
              Some(WakePass(w, order).world.cluster[key]) == Original(w, key)
  {
    WakePassConserves(w, order);
    var w' := WakePass(w, order).world;
    forall key | key in w.cluster
      ensures Some(w'.cluster[key]) == Original(w, key)
    {
      assert Original(w', key) == Original(w, key);
    }
  }

  /** Recovery: after any run that loses nothing, one wake that succeeds gives every object the value
      last given to it by others while it had no record, and empties the Secret. */
  lemma RunThenWake(w: World, steps: seq<Step>, order: seq<Kind>)
    requires Filed(w.secret) && AllAllowed(w, steps) && IsKindOrder(order)
    requires WakePass(Run(w, steps), order).ok
    ensures WakePass(Run(w, steps), order).world.secret == map[]
    ensures WakePass(Run(w, steps), order).world.cluster.Keys == Run(w, steps).cluster.Keys
    ensures forall key :: key in Run(w, steps).cluster ==>
              Some(WakePass(Run(w, steps), order).world.cluster[key]) == Intended(w, steps, key, Original(w, key))
  {
    OriginalsAreIntended(w, steps);
    FullWake(Run(w, steps), order);
  }

  lemma OriginalsAreIntended(w: World, steps: seq<Step>)
    requires Filed(w.secret) && AllAllowed(w, steps)
    ensures Filed(Run(w, steps).secret)
    ensures forall key :: Original(Run(w, steps), key) == Intended(w, steps, key, Original(w, key))
  {
    forall key: Key
      ensures Filed(Run(w, steps).secret)
      ensures Original(Run(w, steps), key) == Intended(w, steps, key, Original(w, key))
    {
      OriginalIsIntended(w, steps, key);
    }
    OriginalIsIntended(w, steps, Key(Deployment, "", ""));
  }

  /** The order in which the kinds are read does not matter. */
  lemma WakeOrderIrrelevant(w: World, a: seq<Kind>, b: seq<Kind>)
    requires Filed(w.secret) && IsKindOrder(a) && IsKindOrder(b)
    requires WakePass(w, a).ok && WakePass(w, b).ok
    ensures WakePass(w, a).world.cluster == WakePass(w, b).world.cluster
    ensures WakePass(w, a).world.secret == WakePass(w, b).world.secret
  {
    FullWake(w, a);
    FullWake(w, b);
  }

  /** A wake pass that stopped anywhere, followed by one that succeeds, equals one that succeeds. */
  lemma WakeRestarts(w: World, a: seq<Kind>, b: seq<Kind>, c: seq<Kind>)
    requires Filed(w.secret) && IsKindOrder(a) && IsKindOrder(b) && IsKindOrder(c)
    requires WakePass(w, c).ok && WakePass(WakePass(w, a).world, b).ok
    ensures WakePass(WakePass(w, a).world, b).world.cluster == WakePass(w, c).world.cluster
    ensures WakePass(WakePass(w, a).world, b).world.secret == WakePass(w, c).world.secret
  {
    var stopped := WakePass(w, a).world;
    WakePassConserves(w, a);
    FullWake(stopped, b);
    FullWake(w, c);
    forall key | key in w.cluster
      ensures WakePass(stopped, b).world.cluster[key] == WakePass(w, c).world.cluster[key]
    {
      assert Original(stopped, key) == Original(w, key);
    }
  }

  // ---- sleeping again ----

  /** The records of the items, in item order. */
  ghost function InItemOrder(saved: seq<Resource>, items: seq<Resource>): (ordered: seq<Resource>)
    requires Keys(items) <= Keys(saved)
    ensures |ordered| == |items|
  {
    if items == [] then []
    else
      assert items == [items[0]] + items[1..] && items[0] in items;
      [Resource(items[0].key, ValueOf(saved, items[0].key))] + InItemOrder(saved, items[1..])
  }

  lemma {:induction false} OrderedHas(saved: seq<Resource>, items: seq<Resource>, i: nat)
    requires Keys(items) <= Keys(saved) && i < |items|
    ensures InItemOrder(saved, items)[i].key == items[i].key && InItemOrder(saved, items)[i] in saved
  {
    assert items == [items[0]] + items[1..] && items[0] in items;
    if i != 0 {
      OrderedHas(saved, items[1..], i - 1);
    }
  }

  /** The list still holds exactly the saved records of the items to come. */
  ghost predicate Pending(left: seq<Resource>, saved: seq<Resource>, items: seq<Resource>)
  {
    && Distinct(left) && (forall r :: r in left ==> r in saved)
    && forall r :: r in saved && r.key in Keys(items) ==> r in left
  }

  lemma NextPending(left: seq<Resource>, saved: seq<Resource>, item: Resource, rest: seq<Resource>)
    requires OfKind(saved, item.key.kind) && Distinct(saved) && Distinct([item] + rest)
    requires item.key in Keys(saved) && Pending(left, saved, [item] + rest)
    ensures var index := IndexOf(left, item.key);
            && 0 <= index && left[index] == Resource(item.key, ValueOf(saved, item.key))
            && Pending(RemoveAt(left, index), saved, rest)
  {
    var r, items := Resource(item.key, ValueOf(saved, item.key)), [item] + rest;
    assert item in items && r in left;
    IndexFindsKey(left, item.key);
    var index := IndexOf(left, item.key);
    OneValue(saved, r, left[index]);
    RemovesOne(left, index);
    forall other | other in rest
      ensures other.key != item.key
    {
      var i :| 0 <= i < |rest| && rest[i] == other;
      assert items[0].key != items[i + 1].key;
    }
    KeysAppend([item], rest);
  }

  lemma OrderedUnrolls(saved: seq<Resource>, item: Resource, rest: seq<Resource>)
    requires Keys([item] + rest) <= Keys(saved)
    ensures item.key in Keys(saved) && Keys(rest) <= Keys(saved)
    ensures InItemOrder(saved, [item] + rest)
         == [Resource(item.key, ValueOf(saved, item.key))] + InItemOrder(saved, rest)
  {}

  /** Every item to come has its one record among those left. */
  ghost predicate AllRecorded(left: seq<Resource>, saved: seq<Resource>, items: seq<Resource>)
  {
    && Distinct(saved) && Distinct(items) && Keys(items) <= Keys(saved) && Pending(left, saved, items)
    && forall r, item :: r in saved && item in items ==> r.key.kind == item.key.kind
  }

  lemma NextRecorded(left: seq<Resource>, saved: seq<Resource>, item: Resource, rest: seq<Resource>)
    requires AllRecorded(left, saved, [item] + rest)
    ensures var index := IndexOf(left, item.key);
            && 0 <= index && item.key in Keys(saved) && left[index] == Resource(item.key, ValueOf(saved, item.key))
            && AllRecorded(RemoveAt(left, index), saved, rest)
  {
    var items := [item] + rest;
    assert item in items && forall r :: r in rest ==> r in items;
    assert forall i :: 0 <= i < |rest| ==> rest[i] == items[i + 1];
    NextPending(left, saved, item, rest);
    OrderedUnrolls(saved, item, rest);
  }

  lemma Regroup(a: seq<Resource>, r: Resource, b: seq<Resource>)
    ensures a + ([r] + b) == (a + [r]) + b
  {}

  lemma ReorderOne(st: Scan, saved: seq<Resource>, item: Resource, rest: seq<Resource>)
    requires AllRecorded(st.saved, saved, [item] + rest)
    ensures item.key in Keys(saved)
    ensures var next := ScanOne(st, item);
            && next.world == st.world && next.added == st.added && next.failed == st.failed
            && next.kept == st.kept + [Resource(item.key, ValueOf(saved, item.key))]
            && AllRecorded(next.saved, saved, rest)
            && ScanAll(st, [item] + rest) == ScanAll(next, rest)
  {
    NextRecorded(st.saved, saved, item, rest);
    assert ([item] + rest)[1..] == rest;
  }

  /** When every item has a record, the loop only moves records into item order. */
  lemma {:induction false} ScanReorders(st: Scan, items: seq<Resource>, saved: seq<Resource>)
    requires AllRecorded(st.saved, saved, items)
    ensures ScanAll(st, items).world == st.world && ScanAll(st, items).added == st.added
    ensures ScanAll(st, items).failed == st.failed
    ensures ScanAll(st, items).kept == st.kept + InItemOrder(saved, items)
    decreases |items|
  {
    if items == [] {
      assert st.kept + [] == st.kept;
    } else {
      var item, rest := items[0], items[1..];
      assert items == [item] + rest;
      ReorderOne(st, saved, item, rest);
      OrderedUnrolls(saved, item, rest);
      ScanReorders(ScanOne(st, item), rest, saved);
      Regroup(st.kept, Resource(item.key, ValueOf(saved, item.key)), InItemOrder(saved, rest));
    }
  }

  /** The included objects of the kinds are exactly the recorded ones. */
  ghost predicate Settled(ledger: Ledger, kinds: seq<Kind>, included: Included)
  {
    && NoRepeats(kinds)
    && forall kind :: kind in kinds && kind in included ==>
         && included[kind] != [] && OfKind(included[kind], kind) && Distinct(included[kind])
         && Keys(included[kind]) == Keys(Saved(ledger, kind))
  }

  ghost function Reordered(ledger: Ledger, kinds: seq<Kind>, included: Included): Ledger
    requires Settled(ledger, kinds, included)
    decreases |kinds|
  {
    if kinds == [] then ledger
    else
      assert kinds == [kinds[0]] + kinds[1..];
      if kinds[0] !in included then Reordered(ledger, kinds[1..], included)
      else
        var items := included[kinds[0]];
        Reordered(ledger[kinds[0] := InItemOrder(Saved(ledger, kinds[0]), items)], kinds[1..], included)
  }

  lemma SomeKey(rs: seq<Resource>)
    ensures rs != [] ==> Keys(rs) != {}
  {
    if rs != [] {
      assert rs[0] in rs && rs[0].key in Keys(rs);
    }
  }

  lemma SettledScan(w: World, kind: Kind, items: seq<Resource>)
    requires Filed(w.secret) && OfKind(items, kind) && Distinct(items)
    requires Keys(items) == Keys(Saved(w.secret, kind))
    ensures ScanKind(w, kind, items) == Scan(w, [], [], InItemOrder(Saved(w.secret, kind), items), [])
  {
    var saved := Saved(w.secret, kind);
    var ordered := InItemOrder(saved, items);
    ScanReorders(Scan(w, saved, [], [], []), items, saved);
    assert [] + ordered == ordered;
    ScanOfKind(w, kind, items);
    var left := ScanKind(w, kind, items).saved;
    assert Keys(left) <= Keys(saved) && Keys(left) !! Keys(items);
    SomeKey(left);
  }

  lemma SettledKind(w: World, kind: Kind, items: seq<Resource>)
    requires AllGranted(w) && Filed(w.secret) && OfKind(items, kind) && Distinct(items) && items != []
    requires Keys(items) == Keys(Saved(w.secret, kind))
    ensures var done := SleepKind(w, kind, items);
            && done.ok && done.failed == [] && done.world.cluster == w.cluster && done.world.fate == w.fate
            && done.world.secret == w.secret[kind := InItemOrder(Saved(w.secret, kind), items)]
            && Filed(done.world.secret)
  {
    SettledScan(w, kind, items);
    SecretAfter(w, kind, items);
    assert [] + InItemOrder(Saved(w.secret, kind), items) == InItemOrder(Saved(w.secret, kind), items);
  }

  lemma {:induction false} SettledKinds(w: World, kinds: seq<Kind>, included: Included)
    requires AllGranted(w) && Filed(w.secret) && Settled(w.secret, kinds, included)
    ensures var done := SleepKinds(w, kinds, included, map[]);
            && done.ok && done.failed == map[] && done.world.cluster == w.cluster && done.world.fate == w.fate
            && done.world.secret == Reordered(w.secret, kinds, included)
    decreases |kinds|
  {
    if kinds != [] {
      assert kinds == [kinds[0]] + kinds[1..];
      if kinds[0] !in included {
        SettledKinds(w, kinds[1..], included);
      } else {
        SettledKind(w, kinds[0], included[kinds[0]]);
        SettledKinds(SleepKind(w, kinds[0], included[kinds[0]]).world, kinds[1..], included);
      }
    }
  }

  predicate SameSequence(a: seq<Resource>, b: seq<Resource>)
  {
    |a| == |b| && forall i :: 0 <= i < |a| ==> a[i].key == b[i].key
  }

  /** The same objects in the same order, whatever values they show. */
  ghost predicate SameObjects(a: Included, b: Included)
  {
    && a.Keys == b.Keys
    && forall kind :: kind in a ==> SameSequence(a[kind], b[kind])
  }

  /** What reordering does to one kind: the same records, in the order of the items. */
  lemma {:induction false} ReorderedKind(ledger: Ledger, kinds: seq<Kind>, included: Included, kind: Kind)
    requires Settled(ledger, kinds, included)
    ensures var after := Reordered(ledger, kinds, included);
            && Saved(after, kind) == (if kind in kinds && kind in included
                                      then InItemOrder(Saved(ledger, kind), included[kind]) else Saved(ledger, kind))
            && (kind in after <==> kind in ledger || (kind in kinds && kind in included))
    decreases |kinds|
  {
    if kinds != [] {
      assert kinds == [kinds[0]] + kinds[1..];
      if kinds[0] !in included {
        ReorderedKind(ledger, kinds[1..], included, kind);
      } else {
        var items := included[kinds[0]];
        ReorderedKind(ledger[kinds[0] := InItemOrder(Saved(ledger, kinds[0]), items)], kinds[1..], included, kind);
      }
    }
  }

  lemma OrderedIsFixed(saved: seq<Resource>, items: seq<Resource>)
    requires Distinct(saved) && SameSequence(saved, items)
    ensures Keys(items) == Keys(saved)
    ensures InItemOrder(saved, items) == saved
  {
    assert Keys(items) == Keys(saved) by {
      assert forall i :: 0 <= i < |items| ==> saved[i] in saved && items[i] in items;
    }
    forall i | 0 <= i < |items|
      ensures InItemOrder(saved, items)[i] == saved[i]
    {
      OrderedHas(saved, items, i);
      OneValue(saved, InItemOrder(saved, items)[i], saved[i]);
    }
  }

  /** One kind of sleeping again over the objects of a finished pass. */
  lemma KindAgain(w: World, w': World, again: Included, kind: Kind)
    requires Filed(w.secret) && Filed(w'.secret) && Settled(w.secret, SLEEP_ORDER, again)
    requires w'.secret == Reordered(w.secret, SLEEP_ORDER, again)
    ensures kind in w'.secret <==> kind in w.secret || kind in again
    ensures kind !in again ==> Saved(w'.secret, kind) == Saved(w.secret, kind)
    ensures kind in again ==>
              && SameSequence(Saved(w'.secret, kind), again[kind])
              && (forall r :: r in Saved(w'.secret, kind) <==> r in Saved(w.secret, kind))
              && (SameSequence(Saved(w.secret, kind), again[kind]) ==> Saved(w'.secret, kind) == Saved(w.secret, kind))
  {
    EveryKindHandled(kind);
    ReorderedKind(w.secret, SLEEP_ORDER, again, kind);
    if kind in again {
      var saved, items := Saved(w.secret, kind), again[kind];
      forall i | 0 <= i < |items| {
        OrderedHas(saved, items, i);
      }
      SameKeys(Saved(w'.secret, kind), items);
      SameSavedSet(w, w', kind);
      if SameSequence(saved, items) {
        OrderedIsFixed(saved, items);
      }
    }
  }

  lemma SameKeys(a: seq<Resource>, b: seq<Resource>)
    requires SameSequence(a, b)
    ensures Keys(a) == Keys(b)
  {}

  /** Sleeping again over the objects of a finished pass. */
  lemma SleepAgain(w: World, included: Included, again: Included)
    requires AllGranted(w) && Tidy(w) && Listing(w, again) && SameObjects(included, again)
    requires forall kind :: kind in included ==> Keys(Saved(w.secret, kind)) == Keys(included[kind])
    ensures var w' := SleepPass(w, again).world;
            && w'.cluster == w.cluster && Filed(w'.secret)
            && Settled(w.secret, SLEEP_ORDER, again) && w'.secret == Reordered(w.secret, SLEEP_ORDER, again)
  {
    SettledAfter(w, included, again);
    SettledKinds(w, SLEEP_ORDER, again);
    GrantedSleepPass(w, again);
  }

  /** A second sleep pass over the objects of the first changes no object and keeps the same
      records; a third leaves even their order as it is. */
  lemma SleepIsIdempotent(w: World, first: Included, second: Included, third: Included)
    requires AllGranted(w) && Tidy(w) && Listing(w, first)
    requires Listing(SleepPass(w, first).world, second) && SameObjects(first, second)
    requires Listing(SleepPass(SleepPass(w, first).world, second).world, third) && SameObjects(second, third)
    ensures var once := SleepPass(w, first).world;
            var twice := SleepPass(once, second).world;
            var thrice := SleepPass(twice, third).world;
            && twice.cluster == once.cluster && thrice.cluster == once.cluster
            && (forall kind, r :: r in Saved(twice.secret, kind) <==> r in Saved(once.secret, kind))
            && thrice.secret == twice.secret
  {
    var once := SleepPass(w, first).world;
    GrantedSleepPass(w, first);
    SleepAgain(once, first, second);
    var twice := SleepPass(once, second).world;
    GrantedSleepPass(once, second);
    SleepAgain(twice, second, third);
    var thrice := SleepPass(twice, third).world;
    forall kind
      ensures forall r :: r in Saved(twice.secret, kind) <==> r in Saved(once.secret, kind)
      ensures kind in thrice.secret <==> kind in twice.secret
      ensures Saved(thrice.secret, kind) == Saved(twice.secret, kind)
    {
      KindAgain(once, twice, second, kind);
      KindAgain(twice, thrice, third, kind);
    }
    SameLedger(thrice.secret, twice.secret);
  }

  lemma SameLedger(a: Ledger, b: Ledger)
    requires forall kind :: (kind in a <==> kind in b) && Saved(a, kind) == Saved(b, kind)
    ensures a == b
  {}

  lemma SettledAfter(w: World, included: Included, again: Included)
    requires SameObjects(included, again) && Listing(w, again)
    requires forall kind :: kind in included ==> Keys(Saved(w.secret, kind)) == Keys(included[kind])
    ensures Settled(w.secret, SLEEP_ORDER, again)
  {}

  lemma SameSavedSet(once: World, twice: World, kind: Kind)
    requires Filed(once.secret) && Filed(twice.secret)
    requires Keys(Saved(once.secret, kind)) == Keys(Saved(twice.secret, kind))
    requires forall r :: r in Saved(twice.secret, kind) ==> r in Saved(once.secret, kind)
    ensures forall r :: r in Saved(twice.secret, kind) <==> r in Saved(once.secret, kind)
  {
    forall r | r in Saved(once.secret, kind)
      ensures r in Saved(twice.secret, kind)
    {
      assert r.key in Keys(Saved(twice.secret, kind));
      var other :| other in Saved(twice.secret, kind) && other.key == r.key;
      OneValue(Saved(once.secret, kind), other, r);
    }
  }
}
