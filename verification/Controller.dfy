/** The loops of the controller over included objects and saved records. */
module Controller {
  import opened Wrappers
  import opened Resources
  import opened Passes
  import opened ApiServer

  // ---- one object ----

  method UpdateClient(client: Client, r: Resource) returns (ok: bool)
    modifies client`calls, client`cluster
    ensures Reply(client.State(), ok) == Passes.UpdateClient(old(client.State()), r)
  {
    var found := client.Get(r.key);
    if found.None? {
      return false;
    }
    ok := client.Update(r);
  }

  /** Scales the object down; the value to store is the one it had. A suspend flag is compared by
      address in the source, so a CronJob is always updated. */
  method Sleep(client: Client, r: Resource) returns (toStore: Option<Value>)
    modifies client`calls, client`cluster
    ensures r.value != Replicas(0) ==>
              Reply(client.State(), toStore.Some?)
              == Passes.UpdateClient(old(client.State()), r.(value := Dormant(r.key.kind)))
    ensures r.value == Replicas(0) ==> client.State() == old(client.State()) && toStore.Some?
    ensures toStore.Some? ==> toStore.value == r.value
  {
    if r.value != Replicas(0) {
      var ok := UpdateClient(client, r.(value := Dormant(r.key.kind)));
      if !ok {
        return None;
      }
    }
    return Some(r.value);
  }

  method PutToSleep(client: Client, r: Resource) returns (failedObjects: seq<string>)
    modifies client`calls, client`cluster
    ensures client.State() == Passes.PutToSleep(old(client.State()), r).world
    ensures failedObjects == if Passes.PutToSleep(old(client.State()), r).ok then [] else [r.key.name]
  {
    failedObjects := [];
    if !IsDormant(r.value) {
      var toStore := Sleep(client, r);
      if toStore.None? {
        failedObjects := [r.key.name];
      }
    }
  }

  method Wake(client: Client, r: Resource) returns (ok: bool)
    modifies client`calls, client`cluster
    ensures Reply(client.State(), ok) == Passes.Wake(old(client.State()), r)
  {
    ok := UpdateClient(client, r);
  }

  method WakeEach(client: Client, resources: seq<Resource>) returns (ok: bool)
    modifies client`calls, client`cluster
    ensures Reply(client.State(), ok) == WakeAll(old(client.State()), resources)
  {
    ghost var start := client.State();
    for n := 0 to |resources|
      invariant WakeAll(start, resources) == WakeAll(client.State(), resources[n..])
    {
      ok := Wake(client, resources[n]);
      assert resources[n..][1..] == resources[n + 1..];
      if !ok {
        return false;
      }
    }
    return true;
  }

  // ---- the saved records ----

  /** The first saved record under the name and namespace, if any. */
  method CheckOccurenceInSavedData(savedData: seq<Resource>, key: Key) returns (index: int, found: bool)
    ensures index == IndexOf(savedData, key)
    ensures found <==> (exists i :: 0 <= i < |savedData| && savedData[i].key.name == key.name
                                    && savedData[i].key.namespace == key.namespace)
    ensures found <==> 0 <= index
  {
    for n := 0 to |savedData|
      invariant forall i :: 0 <= i < n ==>
                  !(savedData[i].key.name == key.name && savedData[i].key.namespace == key.namespace)
      invariant IndexOf(savedData, key)
             == if IndexOf(savedData[n..], key) < 0 then -1 else n + IndexOf(savedData[n..], key)
    {
      if savedData[n].key.name == key.name && savedData[n].key.namespace == key.namespace {
        return n, true;
      }
      assert savedData[n..][1..] == savedData[n + 1..];
    }
    return -1, false;
  }

  /** The Secret object a reconcile has fetched: its own copy of the stored data. */
  class Secret {
    var data: Ledger

    constructor (data: Ledger)
      ensures this.data == data
    {
      this.data := data;
    }
  }

  method SaveObjectsData(client: Client, secret: Secret, kind: Kind, resourceList: seq<Resource>)
    returns (ok: bool)
    requires client.present
    modifies client`calls, client`stored, secret
    ensures secret.data == old(secret.data)[kind := resourceList]
    ensures Reply(client.State(), ok) == UpdateSecret(old(client.State()), secret.data)
  {
    secret.data := secret.data[kind := resourceList];
    ok := client.UpdateSecretData(secret.data);
  }

  method PurgeSecretData(client: Client, secret: Secret) returns (ok: bool)
    requires client.present
    modifies client`calls, client`stored, secret
    ensures secret.data == map[]
    ensures Reply(client.State(), ok) == UpdateSecret(old(client.State()), map[])
  {
    secret.data := map[];
    ok := client.UpdateSecretData(map[]);
  }

  // ---- a sleep pass ----

  method WriteChanges(client: Client, secret: Secret, list: seq<Resource>, kind: Kind,
                      failedObjects: seq<string>, failures: Failures)
    returns (ok: bool, failures': Failures)
    requires client.present && secret.data == client.stored
    modifies client`calls, client`stored, secret
    ensures Reply(client.State(), ok) == Passes.WriteChanges(old(client.State()), kind, list)
    ensures ok ==> secret.data == client.stored
    ensures failures' == if ok && failedObjects != [] then failures[kind := failedObjects] else failures
  {
    failures' := failures;
    if |list| != 0 {
      ok := SaveObjectsData(client, secret, kind, list);
      if !ok {
        return;
      }
    }
    if |failedObjects| > 0 {
      failures' := failures'[kind := failedObjects];
    }
    return true, failures';
  }

  /** The block the source repeats for each kind. */
  method SleepIncluded(client: Client, secret: Secret, kind: Kind, items: seq<Resource>, failures: Failures)
    returns (ok: bool, failures': Failures)
    requires client.present && secret.data == client.stored
    modifies client`calls, client`cluster, client`stored, secret
    ensures var done := SleepKind(old(client.State()), kind, items);
            && client.State() == done.world && ok == done.ok
            && (ok ==> secret.data == client.stored)
            && (ok ==> failures' == if done.failed == [] then failures else failures[kind := done.failed])
  {
    ghost var start := client.State();
    var savedResources := if kind in secret.data then secret.data[kind] else [];
    var newResources: seq<Resource>, sleptResourcesToSave: seq<Resource> := [], [];
    var failedObjects: seq<string> := [];
    for n := 0 to |items|
      invariant client.stored == start.secret && secret.data == start.secret
      invariant ScanKind(start, kind, items)
             == ScanAll(Scan(client.State(), savedResources, newResources, sleptResourcesToSave, failedObjects),
                       items[n..])
    {
      var item := items[n];
      var index, objectExists := CheckOccurenceInSavedData(savedResources, item.key);
      assert items[n..][1..] == items[n + 1..];
      if !objectExists {
        newResources := newResources + [item];
        failedObjects := PutToSleep(client, item);
      } else {
        sleptResourcesToSave := sleptResourcesToSave + [savedResources[index]];
        savedResources := RemoveAt(savedResources, index);
      }
    }
    assert items[|items|..] == [];
    WakesTouchTheirs(client.State(), savedResources);
    ok := WakeEach(client, savedResources);
    failures' := failures;
    if ok {
      ok, failures' := WriteChanges(client, secret, newResources + sleptResourcesToSave, kind, failedObjects, failures);
    }
  }

  method PutIncludedObjectsToSleep(client: Client, secret: Secret, included: Included)
    returns (ok: bool, failures: Failures)
    requires client.present && secret.data == client.stored
    modifies client`calls, client`cluster, client`stored, secret
    ensures PassResult(client.State(), ok, failures) == SleepPass(old(client.State()), included)
  {
    ghost var start := client.State();
    failures := map[];
    var kinds := SLEEP_ORDER;
    assert kinds[0..] == kinds;
    for n := 0 to |kinds|
      invariant secret.data == client.stored
      invariant SleepPass(start, included) == SleepKinds(client.State(), kinds[n..], included, failures)
    {
      var kind := kinds[n];
      assert kinds[n..][0] == kind && kinds[n..][1..] == kinds[n + 1..];
      if kind in included {
        ok, failures := SleepIncluded(client, secret, kind, included[kind], failures);
        if !ok {
          return false, map[];
        }
      }
    }
    return true, failures;
  }

  // ---- a wake pass ----

  /** All records, kind by kind in the order in which a map happens to be read. */
  method GetDataFromSecret(secret: Secret) returns (resourceList: seq<Resource>, ghost order: seq<Kind>)
    ensures IsKindOrder(order) && resourceList == AllRecords(secret.data, order)
    ensures exists some :: IsKindOrder(some) && resourceList == AllRecords(secret.data, some)
  {
    resourceList, order := [], [];
    var remaining := {Deployment, StatefulSet, ReplicaSet, CronJob};
    forall kind: Kind
      ensures kind in remaining
    {
      match kind case Deployment => case StatefulSet => case CronJob => case ReplicaSet =>
    }
    while remaining != {}
      invariant forall kind :: multiset(order)[kind] == if kind in remaining then 0 else 1
      invariant resourceList == AllRecords(secret.data, order)
      decreases remaining
    {
      var kind :| kind in remaining;
      AllRecordsAppend(secret.data, order, kind);
      resourceList := resourceList + Saved(secret.data, kind);
      order := order + [kind];
      remaining := remaining - {kind};
    }
  }

  lemma {:induction false} AllRecordsAppend(ledger: Ledger, order: seq<Kind>, kind: Kind)
    ensures AllRecords(ledger, order + [kind]) == AllRecords(ledger, order) + Saved(ledger, kind)
  {
    if order == [] {
      assert [kind][1..] == [];
    } else {
      var rest := order[1..];
      AllRecordsAppend(ledger, rest, kind);
      assert (order + [kind])[0] == order[0] && (order + [kind])[1..] == rest + [kind];
      assert AllRecords(ledger, order + [kind]) == Saved(ledger, order[0]) + AllRecords(ledger, rest + [kind]);
    }
  }

  method WakeUpResources(client: Client, secret: Secret) returns (ok: bool, ghost order: seq<Kind>)
    modifies client`calls, client`cluster
    ensures IsKindOrder(order)
    ensures Reply(client.State(), ok) == WakeAll(old(client.State()), AllRecords(secret.data, order))
  {
    var resourceList;
    resourceList, order := GetDataFromSecret(secret);
    ok := WakeEach(client, resourceList);
  }
}
