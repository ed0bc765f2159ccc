/** The Kubernetes client: the only way to the API server. Any call may fail, and a failed
    update may have happened. */
module ApiServer {
  import opened Wrappers
  import opened Resources
  import opened Passes

  /** What listing the objects of a kind in a namespace may return; an empty namespace means all. */
  ghost predicate IsList(cluster: map<Key, Value>, kind: Kind, namespace: string, items: seq<Resource>)
  {
    && Distinct(items)
    && forall r :: r in items <==>
         r.key in cluster && cluster[r.key] == r.value && r.key.kind == kind
         && (namespace == "" || r.key.namespace == namespace)
  }

  class Client {
    var cluster: map<Key, Value>
    var present: bool  // the Secret exists
    var stored: Ledger
    var calls: nat
    const fate: nat -> Verdict

    /** A new server has no Secret yet, which is the same as one without records. */
    constructor (cluster: map<Key, Value>, fate: nat -> Verdict)
      ensures Valid() && !present && State() == World(cluster, map[], fate, 0)
    {
      this.cluster, this.present, this.stored, this.fate, this.calls := cluster, false, map[], fate, 0;
    }

    predicate Valid()
      reads this
    {
      present || stored == map[]
    }

    ghost function State(): World
      reads this
    {
      World(cluster, stored, fate, calls)
    }

    method Answer() returns (verdict: Verdict)
      modifies this`calls
      ensures verdict == Fate(old(State())) && State() == Called(old(State()))
    {
      verdict := fate(calls);
      calls := calls + 1;
    }

    method Get(key: Key) returns (found: Option<Value>)
      modifies this`calls
      ensures Reply(State(), found.Some?) == GetObject(old(State()), key)
      ensures found.Some? ==> key in cluster && found.value == cluster[key]
    {
      var verdict := Answer();
      if !verdict.Granted? || key !in cluster {
        return None;
      }
      return Some(cluster[key]);
    }

    method Update(r: Resource) returns (ok: bool)
      modifies this`calls, this`cluster
      ensures Reply(State(), ok) == UpdateObject(old(State()), r)
    {
      var verdict := Answer();
      if !verdict.Refused? {
        cluster := cluster[r.key := r.value];
      }
      return verdict.Granted?;
    }

    method GetSecret() returns (data: Option<Ledger>)
      modifies this`calls
      ensures State() == Called(old(State()))
      ensures data == if Fate(old(State())).Granted? && present then Some(stored) else None
    {
      var verdict := Answer();
      return if verdict.Granted? && present then Some(stored) else None;
    }

    method UpdateSecretData(data: Ledger) returns (ok: bool)
      requires present
      modifies this`calls, this`stored
      ensures Reply(State(), ok) == UpdateSecret(old(State()), data)
    {
      var verdict := Answer();
      if !verdict.Refused? {
        stored := data;
      }
      return verdict.Granted?;
    }

    /** Creates an empty Secret; one that exists already is an error that changes nothing. */
    method CreateSecret() returns (ok: bool)
      modifies this`calls, this`present
      ensures State() == Called(old(State()))
      ensures present <==> old(present) || !Fate(old(State())).Refused?
      ensures ok <==> !old(present) && Fate(old(State())).Granted?
    {
      var verdict := Answer();
      ok := !present && verdict.Granted?;
      present := present || !verdict.Refused?;
    }

    /** Fetching or updating the KronosApp, which lives outside the world modelled here. */
    method CallKronosApp() returns (ok: bool)
      modifies this`calls
      ensures State() == Called(old(State())) && (ok <==> Fate(old(State())).Granted?)
    {
      var verdict := Answer();
      return verdict.Granted?;
    }

    /** The objects come in any order. */
    method List(kind: Kind, namespace: string) returns (items: Option<seq<Resource>>)
      modifies this`calls
      ensures State() == Called(old(State()))
      ensures items.Some? <==> Fate(old(State())).Granted?
      ensures items.Some? ==> IsList(cluster, kind, namespace, items.value)
    {
      var verdict := Answer();
      if !verdict.Granted? {
        return None;
      }
      var listed: seq<Resource> := [];
      var remaining := cluster.Keys;
      while remaining != {}
        invariant State() == Called(old(State()))
        invariant remaining <= cluster.Keys && Distinct(listed)
        invariant forall r :: r in listed <==>
                    r.key in cluster && r.key !in remaining && cluster[r.key] == r.value && r.key.kind == kind
                    && (namespace == "" || r.key.namespace == namespace)
        decreases remaining
      {
        var key :| key in remaining;
        remaining := remaining - {key};
        if key.kind == kind && (namespace == "" || key.namespace == namespace) {
          assert forall r :: r in listed ==> r.key != key;
          DistinctAppends(listed, [Resource(key, cluster[key])]);
          listed := listed + [Resource(key, cluster[key])];
        }
      }
      return Some(listed);
    }
  }
}
