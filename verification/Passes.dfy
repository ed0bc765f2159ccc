/** What a sleep pass and a wake pass do to the cluster and the Secret, as functions of the
    world they start in. Every answer the API server gives is drawn from the world's fate, so a
    statement about all worlds is a statement about every pattern of failing calls. */
module Passes {
  import opened Resources

  /** The answer to one API call. A lost update has happened although the caller sees an error. */
  datatype Verdict = Granted | Refused | Lost

  /** The API server: live objects, the stored Secret, and the answers to come. */
  datatype World = World(cluster: map<Key, Value>, secret: Ledger, fate: nat -> Verdict, calls: nat)

  datatype Reply = Reply(world: World, ok: bool)

  ghost function Fate(w: World): Verdict { w.fate(w.calls) }

  ghost function Called(w: World): World { w.(calls := w.calls + 1) }

  /** Get: fails for an object that does not exist. */
  ghost function GetObject(w: World, key: Key): Reply
  {
    Reply(Called(w), Fate(w).Granted? && key in w.cluster)
  }

  ghost function UpdateObject(w: World, r: Resource): Reply
  {
    var cluster := if Fate(w).Refused? then w.cluster else w.cluster[r.key := r.value];
    Reply(Called(w).(cluster := cluster), Fate(w).Granted?)
  }

  ghost function UpdateSecret(w: World, data: Ledger): Reply
  {
    var secret := if Fate(w).Refused? then w.secret else data;
    Reply(Called(w).(secret := secret), Fate(w).Granted?)
  }

  /** Fetch the object and write the resource's value to it. */
  ghost function UpdateClient(w: World, r: Resource): Reply
  {
    var got := GetObject(w, r.key);
    if got.ok then UpdateObject(got.world, r) else got
  }

  /** Waking writes the recorded value back. */
  ghost function Wake(w: World, r: Resource): Reply { UpdateClient(w, r) }

  /** An object that already sleeps is left alone; ok is false when the update failed. */
  ghost function PutToSleep(w: World, r: Resource): Reply
  {
    if IsDormant(r.value) then Reply(w, true) else UpdateClient(w, r.(value := Dormant(r.key.kind)))
  }

  ghost function WakeAll(w: World, rs: seq<Resource>): Reply
    decreases |rs|
  {
    if rs == [] then Reply(w, true)
    else
      var first := Wake(w, rs[0]);
      if first.ok then WakeAll(first.world, rs[1..]) else first
  }

  /** The state of the loop over the included items of one kind. */
  datatype Scan = Scan(
    world: World,
    saved: seq<Resource>,  // old records not matched so far
    added: seq<Resource>,  // new records
    kept: seq<Resource>,   // matched old records
    failed: seq<string>)   // the names the last new item reported

  ghost function ScanOne(st: Scan, item: Resource): Scan
  {
    var index := IndexOf(st.saved, item.key);
    if index < 0 then
      var slept := PutToSleep(st.world, item);
      st.(world := slept.world, added := st.added + [item], failed := if slept.ok then [] else [item.key.name])
    else
      st.(kept := st.kept + [st.saved[index]], saved := RemoveAt(st.saved, index))
  }

  ghost function ScanAll(st: Scan, items: seq<Resource>): Scan
    decreases |items|
  {
    if items == [] then st else ScanAll(ScanOne(st, items[0]), items[1..])
  }

  ghost function ScanKind(w: World, kind: Kind, items: seq<Resource>): Scan
  {
    ScanAll(Scan(w, Saved(w.secret, kind), [], [], []), items)
  }

  /** ok is false when the pass returned an error; failed is what it reports otherwise. */
  datatype KindResult = KindResult(world: World, ok: bool, failed: seq<string>)

  ghost function WriteChanges(w: World, kind: Kind, list: seq<Resource>): Reply
  {
    if list == [] then Reply(w, true) else UpdateSecret(w, w.secret[kind := list])
  }

  /** One kind of a sleep pass: scale the new items down, wake the dropped ones, rewrite the records. */
  ghost function SleepKind(w: World, kind: Kind, items: seq<Resource>): KindResult
  {
    var st := ScanKind(w, kind, items);
    var woken := WakeAll(st.world, st.saved);
    if !woken.ok then KindResult(woken.world, false, [])
    else
      var written := WriteChanges(woken.world, kind, st.added + st.kept);
      KindResult(written.world, written.ok, if written.ok then st.failed else [])
  }

  /** The included objects: a kind without any is absent. */
  type Included = map<Kind, seq<Resource>>

  type Failures = map<Kind, seq<string>>

  datatype PassResult = PassResult(world: World, ok: bool, failed: Failures)

  ghost function SleepKinds(w: World, kinds: seq<Kind>, included: Included, failed: Failures): PassResult
    decreases |kinds|
  {
    if kinds == [] then PassResult(w, true, failed)
    else if kinds[0] !in included then SleepKinds(w, kinds[1..], included, failed)
    else
      var done := SleepKind(w, kinds[0], included[kinds[0]]);
      if !done.ok then PassResult(done.world, false, map[])
      else SleepKinds(done.world, kinds[1..], included,
                      if done.failed == [] then failed else failed[kinds[0] := done.failed])
  }

  const SLEEP_ORDER: seq<Kind> := [Deployment, StatefulSet, CronJob, ReplicaSet]

  ghost function SleepPass(w: World, included: Included): PassResult
  {
    SleepKinds(w, SLEEP_ORDER, included, map[])
  }

  /** A reading order of the supported kinds; the source ranges over a map, so any order may occur. */
  predicate IsKindOrder(order: seq<Kind>)
  {
    forall kind :: multiset(order)[kind] == 1
  }

  function AllRecords(ledger: Ledger, order: seq<Kind>): seq<Resource>
  {
    if order == [] then [] else Saved(ledger, order[0]) + AllRecords(ledger, order[1..])
  }

  /** The wake branch of Reconcile: replay every record, then purge; nothing to do without records. */
  ghost function WakePass(w: World, order: seq<Kind>): Reply
  {
    if w.secret == map[] then Reply(w, true)
    else
      var woken := WakeAll(w, AllRecords(w.secret, order));
      if woken.ok then UpdateSecret(woken.world, map[]) else woken
  }

  // ---- what the passes leave alone ----

  /** Only the values of objects under the given keys may differ. */
  ghost predicate OnlyTouches(w: World, w': World, keys: set<Key>)
  {
    && w'.secret == w.secret && w'.fate == w.fate && w'.cluster.Keys == w.cluster.Keys
    && forall key :: key in w.cluster && key !in keys ==> w'.cluster[key] == w.cluster[key]
  }

  lemma UpdateTouchesOne(w: World, r: Resource)
    ensures OnlyTouches(w, UpdateClient(w, r).world, {r.key})
    ensures r.key in w.cluster ==> UpdateClient(w, r).world.cluster[r.key] in {w.cluster[r.key], r.value}
    ensures UpdateClient(w, r).ok ==> r.key in w.cluster && UpdateClient(w, r).world.cluster[r.key] == r.value
  {}

  lemma {:induction false} WakesTouchTheirs(w: World, rs: seq<Resource>)
    ensures OnlyTouches(w, WakeAll(w, rs).world, Keys(rs))
    decreases |rs|
  {
    if rs != [] {
      assert rs == [rs[0]] + rs[1..];
      KeysAppend([rs[0]], rs[1..]);
      UpdateTouchesOne(w, rs[0]);
      WakesTouchTheirs(Wake(w, rs[0]).world, rs[1..]);
    }
  }

  /** A wake of distinct records that succeeds has written every one of them. */
  lemma {:induction false} WakesWrite(w: World, rs: seq<Resource>)
    requires Distinct(rs) && WakeAll(w, rs).ok
    ensures forall r :: r in rs ==> r.key in w.cluster && r.key in WakeAll(w, rs).world.cluster
    ensures forall r :: r in rs ==> WakeAll(w, rs).world.cluster[r.key] == r.value
    decreases |rs|
  {
    if rs != [] {
      var rest := rs[1..];
      assert rs == [rs[0]] + rest;
      UpdateTouchesOne(w, rs[0]);
      var first := Wake(w, rs[0]).world;
      WakesTouchTheirs(first, rest);
      WakesWrite(first, rest);
      assert rs[0].key !in Keys(rest);
    }
  }

  /** Every call from here on is granted. */
  ghost predicate GrantedFrom(w: World) { forall n :: w.calls <= n ==> w.fate(n).Granted? }

  /** Without failures a wake of existing objects succeeds. */
  lemma {:induction false} GrantedWakes(w: World, rs: seq<Resource>)
    requires GrantedFrom(w) && forall r :: r in rs ==> r.key in w.cluster
    ensures WakeAll(w, rs).ok && GrantedFrom(WakeAll(w, rs).world)
    decreases |rs|
  {
    if rs != [] {
      assert rs[0] in rs;
      GrantedWakes(Wake(w, rs[0]).world, rs[1..]);
    }
  }

  /** A wake that fails is one that succeeds up to the n-th record and ends with the failure there. */
  lemma {:induction false} FirstFailure(w: World, rs: seq<Resource>) returns (n: nat)
    requires !WakeAll(w, rs).ok
    ensures n < |rs| && WakeAll(w, rs[..n]).ok
    ensures var before := WakeAll(w, rs[..n]).world;
            before.calls == w.calls + 2 * n && before.fate == w.fate
            && !Wake(before, rs[n]).ok && WakeAll(w, rs) == Wake(before, rs[n])
    decreases |rs|
  {
    var first, rest := Wake(w, rs[0]), rs[1..];
    if first.ok {
      var m := FirstFailure(first.world, rest);
      n := m + 1;
      assert rs[..n][0] == rs[0] && rs[..n][1..] == rest[..m];
    } else {
      n := 0;
    }
  }

  /** It stops there: the records before are written, the objects after are as they were, and the
      n-th object is missing or one of its own two calls was not granted. */
  lemma WakeStops(w: World, rs: seq<Resource>) returns (n: nat)
    requires Distinct(rs) && !WakeAll(w, rs).ok
    ensures n < |rs| && OnlyTouches(w, WakeAll(w, rs).world, Keys(rs[..n]) + {rs[n].key})
    ensures forall r :: r in rs[..n] ==> r.key in w.cluster && WakeAll(w, rs).world.cluster[r.key] == r.value
    ensures rs[n].key in w.cluster ==> !w.fate(w.calls + 2 * n).Granted? || !w.fate(w.calls + 2 * n + 1).Granted?
  {
    n := FirstFailure(w, rs);
    WakesWrite(w, rs[..n]);
    WakesTouchTheirs(w, rs[..n]);
    UpdateTouchesOne(WakeAll(w, rs[..n]).world, rs[n]);
  }

  // ---- the item loop splits the old records ----

  /** The item loop changes new objects only, and only by putting them to sleep. */
  lemma {:induction false} ScanTouchesNew(st: Scan, items: seq<Resource>)
    ensures st.added <= ScanAll(st, items).added
    ensures OnlyTouches(st.world, ScanAll(st, items).world, Keys(ScanAll(st, items).added))
    ensures forall key :: key in st.world.cluster ==>
              ScanAll(st, items).world.cluster[key] in {st.world.cluster[key], Dormant(key.kind)}
    decreases |items|
  {
    if items != [] {
      var next := ScanOne(st, items[0]);
      ScanTouchesNew(next, items[1..]);
      if IndexOf(st.saved, items[0].key) < 0 {
        assert items[0] in next.added;
        assert items[0] in ScanAll(st, items).added;
        if !IsDormant(items[0].value) {
          UpdateTouchesOne(st.world, items[0].(value := Dormant(items[0].key.kind)));
        }
      }
    }
  }

  /** No old record is lost and none is in both parts, whatever the two lists hold. */
  lemma {:induction false} ScanLosesNothing(st: Scan, items: seq<Resource>)
    ensures var end := ScanAll(st, items);
            multiset(end.kept) + multiset(end.saved) == multiset(st.kept) + multiset(st.saved)
    decreases |items|
  {
    if items != [] {
      var index := IndexOf(st.saved, items[0].key);
      if 0 <= index {
        RemovesOne(st.saved, index);
      }
      ScanLosesNothing(ScanOne(st, items[0]), items[1..]);
    }
  }

  /** The turn of one item: its record moves to the kept ones, or it is new. */
  lemma OneSplits(st: Scan, item: Resource)
    requires OfKind(st.saved, item.key.kind) && Distinct(st.saved)
    ensures var next := ScanOne(st, item);
            && (forall r :: r in next.saved <==> r in st.saved && r.key != item.key)
            && (forall r :: r in next.kept <==> r in st.kept || (r in st.saved && r.key == item.key))
            && (forall r :: r in next.added <==> r in st.added || (r == item && item.key !in Keys(st.saved)))
            && Distinct(next.saved)
  {
    IndexFindsKey(st.saved, item.key);
    var index := IndexOf(st.saved, item.key);
    if 0 <= index {
      RemovesOne(st.saved, index);
      forall r | r in st.saved && r.key == item.key
        ensures r == st.saved[index]
      {
        OneValue(st.saved, r, st.saved[index]);
      }
    }
  }

  /** Old records whose object is included are kept, the others are left for waking, and an
      included object without a record is new. */
  lemma {:induction false} ScanSplits(st: Scan, items: seq<Resource>, kind: Kind)
    requires OfKind(st.saved, kind) && OfKind(items, kind) && Distinct(st.saved) && Distinct(items)
    ensures var end := ScanAll(st, items);
            && (forall r :: r in end.saved <==> r in st.saved && r.key !in Keys(items))
            && (forall r :: r in end.kept <==> r in st.kept || (r in st.saved && r.key in Keys(items)))
            && (forall r :: r in end.added <==> r in st.added || (r in items && r.key !in Keys(st.saved)))
            && Distinct(end.saved)
    decreases |items|
  {
    if items != [] {
      var item, rest := items[0], items[1..];
      assert items == [item] + rest;
      assert item in items;
      KeysAppend([item], rest);
      assert item.key !in Keys(rest);
      OneSplits(st, item);
      ScanSplits(ScanOne(st, item), rest, kind);
    }
  }

  /** The new record list has one record per included object. */
  lemma {:induction false} ScanStaysDistinct(st: Scan, items: seq<Resource>, kind: Kind)
    requires OfKind(st.saved, kind) && OfKind(items, kind) && Distinct(items)
    requires Distinct(st.added) && Distinct(st.kept) && Keys(st.added) !! Keys(st.kept)
    requires Keys(items) !! Keys(st.added) + Keys(st.kept)
    ensures var end := ScanAll(st, items);
            && Distinct(end.added) && Distinct(end.kept) && Keys(end.added) !! Keys(end.kept)
            && Keys(end.added) + Keys(end.kept) == Keys(st.added) + Keys(st.kept) + Keys(items)
    decreases |items|
  {
    if items != [] {
      var item, rest := items[0], items[1..];
      assert items == [item] + rest;
      assert item in items;
      KeysAppend([item], rest);
      assert item.key !in Keys(rest);
      IndexFindsKey(st.saved, item.key);
      var index := IndexOf(st.saved, item.key);
      var next := ScanOne(st, item);
      if 0 <= index {
        DistinctAppends(st.kept, [st.saved[index]]);
        KeysAppend(st.kept, [st.saved[index]]);
        assert forall r :: r in next.saved ==> r in st.saved;
      } else {
        DistinctAppends(st.added, [item]);
        KeysAppend(st.added, [item]);
      }
      ScanStaysDistinct(next, rest, kind);
    }
  }
}
