/** One reconcile: decide, fetch, sleep or wake, and say when to come back. */
module Reconciler {
  import opened Wrappers
  import opened Calendar
  import opened Resources
  import opened Passes
  import opened Conservation
  import opened Runs
  import opened FaultFree
  import opened Outcomes
  import opened Fates
  import opened Repeats
  import opened ApiServer
  import opened Controller
  import opened Fetch
  import opened Schedule
  import opened SleepSchedules

  datatype App = App(spec: Spec, includedObjects: seq<Entry>)

  /** What the caller of a reconcile is told: come back after a while, do not come back, or an
      error or an immediate requeue, which make it come back soon. Crash is a nil dereference. */
  datatype Result = RequeueAfter(wait: int) | Stop | Retry | Crash

  datatype Acted = Acted(world: World, result: Result)

  /** The effect of a reconcile that gets past its checks. */
  ghost function Act(cfg: Config, now: Instant, w: World, included: Included, order: seq<Kind>): Acted
  {
    if Decides(cfg, now) then
      var done := SleepPass(w, included);
      Acted(done.world,
            if done.failed != map[] then Stop else if !done.ok then Retry else RequeueAfter(Wait(cfg, now)))
    else
      var done := WakePass(w, order);
      Acted(done.world, if done.ok then RequeueAfter(Wait(cfg, now)) else Retry)
  }

  /** Whatever calls fail: a reconcile that does not ask for a retry has lost no original value. To
      sleep, it has recorded exactly the included objects of each included kind, and they all sleep
      exactly when each slept before or was new and its own scale-down has happened. To wake, it has
      restored every object and emptied the Secret. */
  lemma NoRetryLosesNothing(cfg: Config, now: Instant, w: World, included: Included, order: seq<Kind>)
    requires Filed(w.secret) && Listing(w, included) && IsKindOrder(order)
    requires !Act(cfg, now, w, included, order).result.Retry?
    ensures var w' := Act(cfg, now, w, included, order).world;
            && SameOriginals(w, w')
            && (Decides(cfg, now) ==>
                  && (forall kind :: kind in included ==> Keys(Saved(w'.secret, kind)) == Keys(included[kind]))
                  && (Applied(w', included, true) <==> AllSlept(w, included)))
            && (!Decides(cfg, now) ==>
                  w'.secret == map[] && forall key :: key in w.cluster ==>
                    key in w'.cluster && Some(w'.cluster[key]) == Original(w, key))
  {
    if Decides(cfg, now) {
      FailedPassReportsNothing(w, SLEEP_ORDER, included, map[]);
      FinishedPass(w, included);
      AppliedWhenAllSlept(w, included);
    } else {
      FullWake(w, order);
      WakePassConserves(w, order);
    }
  }

  /** With nothing recorded a reconcile that wakes makes no call, and comes back. */
  lemma NothingToWake(cfg: Config, now: Instant, w: World, included: Included, order: seq<Kind>)
    requires !Decides(cfg, now) && w.secret == map[]
    ensures Act(cfg, now, w, included, order) == Acted(w, RequeueAfter(Wait(cfg, now)))
  {}

  /** Exactly when a reconcile asks neither to come back nor to be retried: it puts to sleep, no
      error ends the pass, and in some included kind the last new object is awake and its scale-down
      is not seen to happen. */
  lemma StopsExactlyWhen(cfg: Config, now: Instant, w: World, included: Included, order: seq<Kind>)
    requires Filed(w.secret) && Listing(w, included)
    ensures Act(cfg, now, w, included, order).result.Stop? <==>
            && Decides(cfg, now) && SleepPass(w, included).ok
            && exists kind :: kind in included
                 && LastNewFails(KindStart(w, SLEEP_ORDER, included, kind), kind, included[kind])
  {
    FailedPassReportsNothing(w, SLEEP_ORDER, included, map[]);
    ListingIsReady(w, included);
    if SleepPass(w, included).ok {
      forall kind
        ensures kind in SleepPass(w, included).failed <==>
                kind in included && LastNewFails(KindStart(w, SLEEP_ORDER, included, kind), kind, included[kind])
      {
        EveryKindHandled(kind);
        PassReports(w, SLEEP_ORDER, included, map[], kind);
      }
      if SleepPass(w, included).failed != map[] {
        var kind :| kind in SleepPass(w, included).failed;
      }
    }
  }

  /** When every awake included object is the last new one of its kind, a reconcile that asks to
      come back has done what it decided. */
  lemma ComingBackMeansApplied(cfg: Config, now: Instant, w: World, included: Included, order: seq<Kind>)
    requires Filed(w.secret) && Listing(w, included) && IsKindOrder(order) && AllExposed(w, included)
    requires Act(cfg, now, w, included, order).result.RequeueAfter?
    ensures Applied(Act(cfg, now, w, included, order).world, included, Decides(cfg, now))
  {
    if Decides(cfg, now) {
      NothingHidden(w, included);
    } else {
      FullWake(w, order);
    }
  }

  /** A reconcile that asks to come back has put every included object to sleep. */
  ghost predicate ComesBackHonestly(cfg: Config, now: Instant, w: World, included: Included, order: seq<Kind>)
  {
    Act(cfg, now, w, included, order).result.RequeueAfter? ==>
      Applied(Act(cfg, now, w, included, order).world, included, true)
  }

  /** Exactly when coming back from a sleep pass can be trusted whatever calls fail: every awake
      included object is the last new one of its kind, or the pass cannot end without an error because
      the object of a dropped record is gone. */
  lemma TrustedExactlyWhenExposed(cfg: Config, now: Instant, w: World, included: Included, order: seq<Kind>)
    requires Filed(w.secret) && Listing(w, included) && Decides(cfg, now)
    ensures (forall fate :: ComesBackHonestly(cfg, now, WithFate(w, fate), included, order))
            <==> AllExposed(w, included) || !DroppedExist(w, SLEEP_ORDER, included)
  {
    HonestExactlyWhenExposed(w, included);
    forall fate
      ensures ComesBackHonestly(cfg, now, WithFate(w, fate), included, order) <==> Honest(WithFate(w, fate), included)
    {}
  }

  lemma {:induction false} FailedPassReportsNothing(w: World, kinds: seq<Kind>, included: Included, failed: Failures)
    ensures var done := SleepKinds(w, kinds, included, failed); !done.ok ==> done.failed == map[]
    decreases |kinds|
  {
    if kinds != [] {
      if kinds[0] !in included {
        FailedPassReportsNothing(w, kinds[1..], included, failed);
      } else {
        var done := SleepKind(w, kinds[0], included[kinds[0]]);
        FailedPassReportsNothing(done.world, kinds[1..], included,
                                 if done.failed == [] then failed else failed[kinds[0] := done.failed]);
      }
    }
  }

  /** One refused update ends the chain: the object stays awake, is recorded all the same, and the
      reconcile asks neither to come back nor to be retried. */
  lemma RefusedScaleDownStops(cfg: Config, now: Instant, w: World, r: Resource, order: seq<Kind>)
    requires Decides(cfg, now) && AwakeDeployment(w, r)
    requires w.fate(w.calls).Granted? && w.fate(w.calls + 1).Refused? && w.fate(w.calls + 2).Granted?
    ensures var acted := Act(cfg, now, w, map[Deployment := [r]], order);
            && acted.result == Stop && acted.world.cluster == w.cluster
            && acted.world.secret == map[Deployment := [r]]
  {
    LoneScan(w, r);
    var st := ScanKind(w, Deployment, [r]);
    assert st.failed == [r.key.name] && st.added + st.kept == [r];
    OnlyDeployments(w, [r]);
  }

  /** Two new objects hide a failure: the first scale-down is refused, the second happens, and the
      reconcile reports success. The first object stays awake, and no later sleep pass tries it again. */
  lemma SecondHidesFirst(cfg: Config, now: Instant, w: World, a: Resource, b: Resource, order: seq<Kind>)
    requires Decides(cfg, now) && AwakeDeployment(w, a) && AwakeDeployment(w, b)
    requires (a.key.name, a.key.namespace) != (b.key.name, b.key.namespace)
    requires w.fate(w.calls).Granted? && w.fate(w.calls + 1).Refused?
    requires w.fate(w.calls + 2).Granted? && w.fate(w.calls + 3).Granted? && w.fate(w.calls + 4).Granted?
    ensures var acted := Act(cfg, now, w, map[Deployment := [a, b]], order);
            && acted.result == RequeueAfter(Wait(cfg, now))
            && acted.world.cluster == w.cluster[b.key := Replicas(0)]
            && acted.world.secret == map[Deployment := [a, b]]
            && forall steps :: WellListed(steps) && KeepsIncluded(steps, a.key) ==>
                 a.key in Run(acted.world, steps).cluster && Run(acted.world, steps).cluster[a.key] == a.value
  {
    TwoScans(w, a, b);
    var st := ScanKind(w, Deployment, [a, b]);
    assert st.added + st.kept == [a, b];
    OnlyDeployments(w, [a, b]);
    var w' := Act(cfg, now, w, map[Deployment := [a, b]], order).world;
    assert a in Saved(w'.secret, Deployment) && a.key != b.key;
    forall steps | WellListed(steps) && KeepsIncluded(steps, a.key)
      ensures a.key in Run(w', steps).cluster && Run(w', steps).cluster[a.key] == a.value
    {
      RecordedNeverTouched(w', steps, a.key);
    }
  }

  lemma TwoScans(w: World, a: Resource, b: Resource)
    requires w.secret == map[]
    ensures ScanKind(w, Deployment, [a, b]) == ScanOne(ScanOne(Scan(w, [], [], [], []), a), b)
  {
    var st := Scan(w, [], [], [], []);
    assert [a, b][1..] == [b] && [b][1..] == [] && Saved(w.secret, Deployment) == [];
    assert ScanAll(ScanOne(st, a), [b]) == ScanAll(ScanOne(ScanOne(st, a), b), []);
  }

  /** The world moves as Act says, over these included objects. */
  ghost predicate ActsFrom(cfg: Config, now: Instant, w: World, included: Included, w': World, result: Result)
  {
    Listing(w, included) && exists order :: IsKindOrder(order) && Act(cfg, now, w, included, order) == Acted(w', result)
  }

  /** The same, apart from questions asked before. */
  ghost predicate ActsOn(cfg: Config, now: Instant, w: World, included: Included, w': World, result: Result)
  {
    exists mid :: OnlyAsks(w, mid) && ActsFrom(cfg, now, mid, included, w', result)
  }

  /** The included objects are the fold of some listings of the cluster over the entries. */
  ghost predicate Selected(cluster: map<Key, Value>, matches: Matcher, entries: seq<Entry>, included: Included)
  {
    exists listed :: Folded(cluster, matches, entries, listed, included)
  }

  ghost predicate Supported(entries: seq<Entry>)
  {
    forall i :: 0 <= i < |entries| ==> ValidateIncludedObject(entries[i]).Some?
  }

  ghost predicate Consistent(entries: seq<Entry>)
  {
    forall i :: 0 <= i < |entries| ==> !Contradicts(entries[i])
  }

  /** What is selected, object by object. */
  lemma SelectedExactly(cluster: map<Key, Value>, matches: Matcher, entries: seq<Entry>, included: Included, kind: Kind)
    requires Selected(cluster, matches, entries, included)
    ensures kind in included <==> exists i: nat :: LastToPick(cluster, matches, entries, i, kind)
    ensures forall i: nat, r: Resource :: LastToPick(cluster, matches, entries, i, kind) ==>
              (r in included[kind] <==> r.key.kind == kind && Picks(cluster, matches, entries[i], r))
  {
    var listed :| Folded(cluster, matches, entries, listed, included);
    FetchedExactly(cluster, matches, entries, listed, included, kind);
  }

  /** The questions of a reconcile before it acts: the KronosApp and its Secret, the lists, the status,
      and the lists once more to put to sleep. */
  function Questions(entries: seq<Entry>, asleep: bool): nat
  {
    3 + Lists(entries) + if asleep then Lists(entries) else 0
  }

  /** The reconcile has had all its questions answered, and acts, by what its schedule fields mean, on
      what the entries select. */
  ghost predicate ActsOnSelected(
    app: App, matches: Matcher, now: Instant, w: World, w': World, result: Result)
    requires Admitted(app.spec) && Meaning(app.spec).Some?
  {
    var cfg, entries := Meaning(app.spec).value, app.includedObjects;
    exists mid, included ::
      && Answered(w, mid, Questions(entries, Decides(cfg, now))) && Selected(w.cluster, matches, entries, included)
      && ActsFrom(cfg, now, mid, included, w', result)
  }

  /** Validating and fetching. */
  method FetchAll(client: Client, matches: Matcher, entries: seq<Entry>)
    returns (outcome: Outcome)
    modifies client`calls
    ensures OnlyAsks(old(client.State()), client.State())
    ensures outcome.Fetched? ==>
              && Supported(entries) && Consistent(entries)
              && Listing(client.State(), outcome.included)
              && Selected(client.cluster, matches, entries, outcome.included)
              && Answered(old(client.State()), client.State(), Lists(entries))
    ensures outcome.Crashed? ==> Supported(entries) && !Consistent(entries)
    ensures outcome.Failed? ==> !Supported(entries) || Unanswered(old(client.State()), Lists(entries))
  {
    var inclusive := ValidateIncludedObjects(entries);
    if inclusive.None? {
      return Failed;
    }
    ghost var listed;
    outcome, listed := FetchIncludedObjects(client, matches, entries, inclusive.value);
  }

  /** Fetching, and writing the status of the KronosApp. */
  method FetchAndReport(client: Client, matches: Matcher, entries: seq<Entry>)
    returns (outcome: Outcome)
    modifies client`calls
    ensures OnlyAsks(old(client.State()), client.State())
    ensures outcome.Fetched? ==>
              && Supported(entries) && Consistent(entries)
              && Listing(client.State(), outcome.included)
              && Selected(client.cluster, matches, entries, outcome.included)
              && Answered(old(client.State()), client.State(), Lists(entries) + 1)
    ensures outcome.Crashed? ==> Supported(entries) && !Consistent(entries)
    ensures outcome.Failed? ==> !Supported(entries) || Unanswered(old(client.State()), Lists(entries) + 1)
  {
    ghost var start := client.State();
    outcome := FetchAll(client, matches, entries);
    ghost var listed := client.State();
    if outcome.Fetched? {
      var updated := client.CallKronosApp();
      if updated {
        AnsweredThen(start, listed, client.State(), Lists(entries), 1);
      } else {
        UnansweredLater(start, listed, Lists(entries), 1, Lists(entries) + 1);
        outcome := Failed;
      }
    } else if outcome.Failed? && Supported(entries) {
      UnansweredLater(start, start, 0, Lists(entries), Lists(entries) + 1);
    }
  }

  /** The same, and to put to sleep fetching once more. */
  method FetchToAct(client: Client, matches: Matcher, entries: seq<Entry>, asleep: bool)
    returns (outcome: Outcome)
    modifies client`calls
    ensures OnlyAsks(old(client.State()), client.State())
    ensures outcome.Fetched? ==>
              && Supported(entries) && Consistent(entries)
              && Listing(client.State(), outcome.included)
              && Selected(client.cluster, matches, entries, outcome.included)
              && Answered(old(client.State()), client.State(),
                          Lists(entries) + 1 + if asleep then Lists(entries) else 0)
    ensures outcome.Crashed? ==> Supported(entries) && !Consistent(entries)
    ensures outcome.Failed? ==>
              || !Supported(entries)
              || Unanswered(old(client.State()), Lists(entries) + 1 + if asleep then Lists(entries) else 0)
  {
    ghost var start, first := client.State(), Lists(entries) + 1;
    ghost var total := first + if asleep then Lists(entries) else 0;
    outcome := FetchAndReport(client, matches, entries);
    ghost var reported := client.State();
    if outcome.Failed? && Supported(entries) {
      UnansweredLater(start, start, 0, first, total);
    }
    if outcome.Fetched? && asleep {
      outcome := FetchAll(client, matches, entries);
      if outcome.Fetched? {
        AnsweredThen(start, reported, client.State(), first, Lists(entries));
      } else if outcome.Failed? {
        UnansweredLater(start, reported, first, Lists(entries), total);
      }
    }
  }

  /** Fetching the KronosApp and its Secret; one that cannot be read is created and registered,
      and the results of that are ignored. */
  method FetchSecret(client: Client) returns (data: Option<Ledger>)
    requires client.Valid()
    modifies client`calls, client`present
    ensures OnlyAsks(old(client.State()), client.State()) && client.Valid()
    ensures data.Some? ==>
              && client.present && data.value == client.stored
              && Answered(old(client.State()), client.State(), 2)
    ensures data.None? ==> !old(client.present) || Unanswered(old(client.State()), 2)
    ensures AllGranted(old(client.State())) ==> client.present && (data.Some? <==> old(client.present))
  {
    var found := client.CallKronosApp();
    if !found {
      return None;
    }
    data := client.GetSecret();
    if data.None? {
      var created := client.CreateSecret();
      var registered := client.CallKronosApp();
    }
  }

  /** The records, and what the schedule says now. */
  method ReadAndDecide(client: Client, spec: Spec, now: Instant)
    returns (data: Option<Ledger>, asleep: bool, requeueTime: int)
    requires Admitted(spec) && client.Valid()
    modifies client`calls, client`present
    ensures OnlyAsks(old(client.State()), client.State()) && client.Valid()
    ensures data.Some? ==>
              && client.present && data.value == client.stored && Meaning(spec).Some?
              && (asleep <==> Decides(Meaning(spec).value, now)) && requeueTime == Wait(Meaning(spec).value, now)
              && Answered(old(client.State()), client.State(), 2)
    ensures data.None? ==> Meaning(spec).None? || !old(client.present) || Unanswered(old(client.State()), 2)
    ensures AllGranted(old(client.State())) && !old(client.present) ==> data.None? && client.present
  {
    asleep, requeueTime := false, 0;
    data := FetchSecret(client);
    if data.Some? {
      var valid;
      valid, asleep, requeueTime := Decide(spec, now);
      if !valid {
        data := None;
      }
    }
  }

  /** All that a reconcile does before it acts: nothing but questions. */
  method Prepare(client: Client, matches: Matcher, app: App, now: Instant)
    returns (outcome: Outcome, data: Ledger, asleep: bool, requeueTime: int)
    requires Admitted(app.spec) && client.Valid()
    modifies client`calls, client`present
    ensures OnlyAsks(old(client.State()), client.State()) && client.Valid()
    ensures outcome.Fetched? ==>
              && Meaning(app.spec).Some? && Supported(app.includedObjects) && Consistent(app.includedObjects)
              && (asleep <==> Decides(Meaning(app.spec).value, now))
              && requeueTime == Wait(Meaning(app.spec).value, now)
              && Answered(old(client.State()), client.State(), Questions(app.includedObjects, asleep))
    ensures outcome.Fetched? ==>
              && client.present && data == client.stored && Listing(client.State(), outcome.included)
              && Selected(client.cluster, matches, app.includedObjects, outcome.included)
    ensures outcome.Crashed? ==>
              Meaning(app.spec).Some? && Supported(app.includedObjects) && !Consistent(app.includedObjects)
    ensures outcome.Failed? && Meaning(app.spec).Some? && Supported(app.includedObjects) && old(client.present) ==>
              Unanswered(old(client.State()),
                         Questions(app.includedObjects, Decides(Meaning(app.spec).value, now)))
    ensures AllGranted(old(client.State())) && !old(client.present) ==> outcome.Failed? && client.present
  {
    ghost var start, entries := client.State(), app.includedObjects;
    outcome, data := Failed, map[];
    var read;
    read, asleep, requeueTime := ReadAndDecide(client, app.spec, now);
    if read.None? {
      if old(client.present) && Meaning(app.spec).Some? {
        UnansweredLater(start, start, 0, 2, Questions(entries, Decides(Meaning(app.spec).value, now)));
      }
      return;
    }
    ghost var decided, total := client.State(), Questions(entries, asleep);
    data := read.value;
    outcome := FetchToAct(client, matches, app.includedObjects, asleep);
    if outcome.Fetched? {
      AnsweredThen(start, decided, client.State(), 2, total - 2);
    } else if outcome.Failed? && Supported(entries) {
      UnansweredLater(start, decided, 2, total - 2, total);
    }
  }

  /** A reconcile acts, after its questions are answered, on a valid spec and supported entries that do
      not contradict themselves; or it changes nothing, and then it asks for a retry or, for a
      contradicting entry, crashes. */
  method Reconcile(client: Client, matches: Matcher, app: App, now: Instant) returns (result: Result)
    requires Admitted(app.spec) && client.Valid()
    modifies client
    ensures client.Valid()
    ensures || (OnlyAsks(old(client.State()), client.State()) && (result.Retry? || result.Crash?))
            || (&& Meaning(app.spec).Some? && Supported(app.includedObjects) && Consistent(app.includedObjects)
                && ActsOnSelected(app, matches, now, old(client.State()), client.State(), result))
    ensures Meaning(app.spec).None? || !Supported(app.includedObjects) ==>
              OnlyAsks(old(client.State()), client.State()) && result == Retry
    ensures Supported(app.includedObjects) && !Consistent(app.includedObjects) ==>
              OnlyAsks(old(client.State()), client.State()) && (result.Retry? || result.Crash?)
    ensures result.Crash? ==> !Consistent(app.includedObjects)
    ensures old(client.present) && Meaning(app.spec).Some? && Supported(app.includedObjects)
            && !Unanswered(old(client.State()),
                           Questions(app.includedObjects, Decides(Meaning(app.spec).value, now))) ==>
              if Consistent(app.includedObjects) then
                ActsOnSelected(app, matches, now, old(client.State()), client.State(), result)
              else result == Crash
    ensures AllGranted(old(client.State())) && !old(client.present) ==> result == Retry && client.present
  {
    ghost var start := client.State();
    var outcome, data, asleep, requeueTime := Prepare(client, matches, app, now);
    if !outcome.Fetched? {
      return if outcome.Crashed? then Crash else Retry;
    }
    ghost var mid := client.State();
    var secret := new Secret(data);
    result := SleepOrWake(client, secret, outcome.included, asleep, requeueTime, Meaning(app.spec).value, now);
    assert ActsOnSelected(app, matches, now, start, client.State(), result);
  }

  method SleepOrWake(client: Client, secret: Secret, included: Included, asleep: bool, requeueTime: int,
                     ghost cfg: Config, ghost now: Instant)
    returns (result: Result)
    requires client.present && secret.data == client.stored && Listing(client.State(), included)
    requires (asleep <==> Decides(cfg, now)) && requeueTime == Wait(cfg, now)
    modifies client`calls, client`cluster, client`stored, secret
    ensures ActsFrom(cfg, now, old(client.State()), included, client.State(), result)
    ensures !result.Crash?
  {
    if asleep {
      result := SleepBranch(client, secret, included, requeueTime, cfg, now);
    } else {
      result := WakeBranch(client, secret, included, requeueTime, cfg, now);
    }
  }

  method SleepBranch(client: Client, secret: Secret, included: Included, requeueTime: int,
                     ghost cfg: Config, ghost now: Instant)
    returns (result: Result)
    requires client.present && secret.data == client.stored && Listing(client.State(), included)
    requires Decides(cfg, now) && requeueTime == Wait(cfg, now)
    modifies client`calls, client`cluster, client`stored, secret
    ensures ActsFrom(cfg, now, old(client.State()), included, client.State(), result)
  {
    ghost var start := client.State();
    var ok, failedObjects := PutIncludedObjectsToSleep(client, secret, included);
    if |failedObjects| != 0 {
      result := Stop;
    } else if !ok {
      result := Retry;
    } else {
      result := RequeueAfter(requeueTime);
    }
    ghost var order := SLEEP_ORDER;
    assert Act(cfg, now, start, included, order) == Acted(client.State(), result);
    assert IsKindOrder(order) by {
      forall kind: Kind
        ensures multiset(order)[kind] == 1
      {
        match kind case Deployment => case StatefulSet => case CronJob => case ReplicaSet =>
      }
    }
  }

  method WakeBranch(client: Client, secret: Secret, ghost included: Included, requeueTime: int,
                    ghost cfg: Config, ghost now: Instant)
    returns (result: Result)
    requires client.present && secret.data == client.stored && Listing(client.State(), included)
    requires !Decides(cfg, now) && requeueTime == Wait(cfg, now)
    modifies client`calls, client`cluster, client`stored, secret
    ensures ActsFrom(cfg, now, old(client.State()), included, client.State(), result)
  {
    ghost var start := client.State();
    var ok;
    ghost var order;
    if secret.data == map[] {
      ghost var records;
      records, order := GetDataFromSecret(secret);
      assert Act(cfg, now, start, included, order) == Acted(client.State(), RequeueAfter(requeueTime));
      return RequeueAfter(requeueTime);
    }
    ok, order := WakeUpResources(client, secret);
    if ok {
      ok := PurgeSecretData(client, secret);
    }
    result := if ok then RequeueAfter(requeueTime) else Retry;
    assert Act(cfg, now, start, included, order) == Acted(client.State(), result);
  }
}
