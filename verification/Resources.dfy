/** Scalable objects, the records kept about them, and the record lists of the Secret. */
module Resources {
  datatype Kind = Deployment | StatefulSet | CronJob | ReplicaSet

  datatype Key = Key(kind: Kind, namespace: string, name: string)

  newtype int32 = n: int | -0x8000_0000 <= n < 0x8000_0000

  /** A replica count, or the suspend flag of a CronJob. */
  datatype Value = Replicas(count: int32) | Suspend(flag: bool)

  /** An object as listed or as recorded: what it is and the value it had. */
  datatype Resource = Resource(key: Key, value: Value)

  /** The Secret's data: a record list per kind. No list at all is nil data. */
  type Ledger = map<Kind, seq<Resource>>

  predicate IsDormant(value: Value) { value == Replicas(0) || value == Suspend(true) }

  /** The value that puts an object of this kind to sleep. */
  function Dormant(kind: Kind): (value: Value)
    ensures IsDormant(value)
  {
    if kind.CronJob? then Suspend(true) else Replicas(0)
  }

  function Keys(rs: seq<Resource>): set<Key> { set r | r in rs :: r.key }

  predicate Distinct(rs: seq<Resource>)
  {
    forall i, j :: 0 <= i < j < |rs| ==> rs[i].key != rs[j].key
  }

  predicate OfKind(rs: seq<Resource>, kind: Kind)
  {
    forall r :: r in rs ==> r.key.kind == kind
  }

  /** Every list holds records of its own kind, one per object. */
  predicate Filed(ledger: Ledger)
  {
    forall kind :: kind in ledger ==> OfKind(ledger[kind], kind) && Distinct(ledger[kind])
  }

  function Saved(ledger: Ledger, kind: Kind): seq<Resource>
  {
    if kind in ledger then ledger[kind] else []
  }

  predicate Recorded(ledger: Ledger, key: Key) { key in Keys(Saved(ledger, key.kind)) }

  /** The value recorded first for the key. */
  function ValueOf(rs: seq<Resource>, key: Key): (value: Value)
    requires key in Keys(rs)
    ensures Resource(key, value) in rs
  {
    if rs[0].key == key then
      assert rs[0] == Resource(key, rs[0].value);
      rs[0].value
    else
      assert rs == [rs[0]] + rs[1..];
      ValueOf(rs[1..], key)
  }

  lemma OneValue(rs: seq<Resource>, a: Resource, b: Resource)
    requires Distinct(rs) && a in rs && b in rs && a.key == b.key
    ensures a == b
  {}

  lemma DistinctAppends(a: seq<Resource>, b: seq<Resource>)
    requires Distinct(a) && Distinct(b) && Keys(a) !! Keys(b)
    ensures Distinct(a + b)
  {
    var all := a + b;
    forall i, j | 0 <= i < j < |all|
      ensures all[i].key != all[j].key
    {
      assert i < |a| ==> all[i] in a;
      assert |a| <= j ==> all[j] in b;
      assert i < |a| <= j ==> all[i].key in Keys(a) && all[j].key in Keys(b);
    }
  }

  lemma KeysAppend(a: seq<Resource>, b: seq<Resource>)
    ensures Keys(a + b) == Keys(a) + Keys(b)
  {}

  function RemoveAt(rs: seq<Resource>, index: int): seq<Resource>
  {
    if index < 0 || |rs| <= index then rs else rs[..index] + rs[index + 1..]
  }

  /** The first record under this name and namespace, or -1. */
  function IndexOf(rs: seq<Resource>, key: Key): (index: int)
    ensures -1 <= index < |rs|
    ensures 0 <= index ==> rs[index].key.name == key.name && rs[index].key.namespace == key.namespace
  {
    if rs == [] then -1
    else if rs[0].key.name == key.name && rs[0].key.namespace == key.namespace then 0
    else var later := IndexOf(rs[1..], key); if later < 0 then -1 else later + 1
  }

  /** In a list of one kind, comparing name and namespace finds exactly the key's record. */
  lemma {:induction false} IndexFindsKey(rs: seq<Resource>, key: Key)
    requires OfKind(rs, key.kind)
    ensures 0 <= IndexOf(rs, key) <==> key in Keys(rs)
    ensures 0 <= IndexOf(rs, key) ==> rs[IndexOf(rs, key)].key == key
  {
    if rs != [] {
      assert rs == [rs[0]] + rs[1..];
      assert rs[0] in rs;
      IndexFindsKey(rs[1..], key);
      KeysAppend([rs[0]], rs[1..]);
    }
  }

  /** Removing one record keeps the others, and nothing else. */
  lemma RemovesOne(rs: seq<Resource>, index: nat)
    requires index < |rs|
    ensures multiset(rs) == multiset(RemoveAt(rs, index)) + multiset{rs[index]}
    ensures Distinct(rs) ==> Distinct(RemoveAt(rs, index))
    ensures Distinct(rs) ==> forall r :: r in RemoveAt(rs, index) <==> r in rs && r.key != rs[index].key
    ensures Distinct(rs) ==> Keys(RemoveAt(rs, index)) == Keys(rs) - {rs[index].key}
  {
    assert rs == rs[..index] + [rs[index]] + rs[index + 1..];
    if Distinct(rs) {
      forall r
        ensures r in RemoveAt(rs, index) <==> r in rs && r.key != rs[index].key
      {
        OthersRemain(rs, index, r);
      }
    }
  }

  lemma OthersRemain(rs: seq<Resource>, index: nat, r: Resource)
    requires index < |rs| && Distinct(rs)
    ensures r in RemoveAt(rs, index) <==> r in rs && r.key != rs[index].key
  {}
}
