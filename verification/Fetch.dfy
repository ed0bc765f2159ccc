/** Which objects a KronosApp includes: validating its entries and folding what they select. */
module Fetch {
  import opened Wrappers
  import opened Resources
  import opened Passes
  import opened Conservation
  import opened ApiServer

  /** One entry of includedObjects. */
  datatype Entry = Entry(apiVersion: string, kind: string, namespace: string, includeRef: string, excludeRef: string)

  /** Does the regular expression match the name? */
  type Matcher = (string, string) -> bool

  function KindName(kind: Kind): string
  {
    match kind
    case Deployment => "Deployment"
    case StatefulSet => "StatefulSet"
    case CronJob => "CronJob"
    case ReplicaSet => "ReplicaSet"
  }

  function ApiVersionOf(kind: Kind): string
  {
    if kind.CronJob? then "batch/v1" else "apps/v1"
  }

  /** The kinds supported under an apiVersion, empty for an unknown one. */
  function GetKind(apiVersion: string): seq<string>
  {
    if apiVersion == "apps/v1" then ["Deployment", "StatefulSet", "ReplicaSet"]
    else if apiVersion == "batch/v1" then ["CronJob"]
    else []
  }

  predicate KindExists(kind: string) { kind in GetKind("apps/v1") || kind in GetKind("batch/v1") }

  /** The two wildcard flags, or nothing for an unsupported entry. */
  function ValidateIncludedObject(e: Entry): Option<(bool, bool)>
  {
    var anyApiVersion, anyKind := e.apiVersion == "*", e.kind == "*";
    if !anyApiVersion && GetKind(e.apiVersion) == [] then None
    else if !anyKind && anyApiVersion && !KindExists(e.kind) then None
    else if !anyKind && !anyApiVersion && e.kind !in GetKind(e.apiVersion) then None
    else Some((anyApiVersion, anyKind))
  }

  method ValidateIncludedObjects(entries: seq<Entry>) returns (inclusive: Option<seq<(bool, bool)>>)
    ensures inclusive.Some? <==> forall i :: 0 <= i < |entries| ==> ValidateIncludedObject(entries[i]).Some?
    ensures inclusive.Some? ==> |inclusive.value| == |entries|
    ensures inclusive.Some? ==>
              forall i :: 0 <= i < |entries| ==> Some(inclusive.value[i]) == ValidateIncludedObject(entries[i])
  {
    var flags := [];
    for n := 0 to |entries|
      invariant |flags| == n
      invariant forall i :: 0 <= i < n ==> Some(flags[i]) == ValidateIncludedObject(entries[i])
    {
      match ValidateIncludedObject(entries[n]) {
        case None => return None;
        case Some(pair) => flags := flags + [pair];
      }
    }
    return Some(flags);
  }

  /** The kinds the fetch switch visits, in its order. */
  function FetchedKinds(apiVersion: string, kind: string): seq<Kind>
  {
    if apiVersion == "*" then [Deployment, StatefulSet, CronJob, ReplicaSet]
    else if apiVersion == "apps/v1" then
      if kind == "Deployment" then [Deployment]
      else if kind == "StatefulSet" then [StatefulSet]
      else if kind == "ReplicaSet" then [ReplicaSet]
      else if kind == "*" then [Deployment, StatefulSet, ReplicaSet]
      else []
    else if apiVersion == "batch/v1" then [CronJob]
    else []
  }

  /** The kinds the words of an entry stand for. */
  predicate Names(e: Entry, kind: Kind)
  {
    (e.apiVersion == "*" || ApiVersionOf(kind) == e.apiVersion) && (e.kind == "*" || KindName(kind) == e.kind)
  }

  /** A supported entry names some kind; an unsupported one names none. */
  lemma SupportedIffNaming(e: Entry)
    ensures ValidateIncludedObject(e).Some? <==> exists kind :: Names(e, kind)
    ensures ValidateIncludedObject(e).Some? <==>
            || (e.apiVersion in {"*", "apps/v1"} && e.kind in {"*", "Deployment", "StatefulSet", "ReplicaSet"})
            || (e.apiVersion in {"*", "batch/v1"} && e.kind in {"*", "CronJob"})
    ensures ValidateIncludedObject(e).Some? ==>
              ValidateIncludedObject(e).value == (e.apiVersion == "*", e.kind == "*")
  {
    if ValidateIncludedObject(e).Some? {
      var kind :=
        if e.kind == "StatefulSet" then StatefulSet
        else if e.kind == "ReplicaSet" then ReplicaSet
        else if e.kind == "CronJob" || e.apiVersion == "batch/v1" then CronJob
        else Deployment;
      assert Names(e, kind);
    }
  }

  /** A supported entry fetches the kinds it names, except that a wildcard apiVersion with a
      concrete kind fetches all four. */
  lemma FetchesWhatItNames(e: Entry)
    requires ValidateIncludedObject(e).Some?
    ensures (forall kind :: kind in FetchedKinds(e.apiVersion, e.kind) <==> Names(e, kind))
            <==> !(e.apiVersion == "*" && e.kind != "*")
    ensures forall kind :: Names(e, kind) ==> kind in FetchedKinds(e.apiVersion, e.kind)
    ensures forall kind :: kind in FetchedKinds(e.apiVersion, e.kind) <==>
              || e.apiVersion == "*"
              || (kind == CronJob && e.apiVersion == "batch/v1")
              || (kind == Deployment && e.apiVersion == "apps/v1" && e.kind in {"*", "Deployment"})
              || (kind == StatefulSet && e.apiVersion == "apps/v1" && e.kind in {"*", "StatefulSet"})
              || (kind == ReplicaSet && e.apiVersion == "apps/v1" && e.kind in {"*", "ReplicaSet"})
    ensures FetchedKinds(e.apiVersion, e.kind) != [] && NoRepeats(FetchedKinds(e.apiVersion, e.kind))
  {
    forall kind
      ensures Names(e, kind) ==> kind in FetchedKinds(e.apiVersion, e.kind)
      ensures !(e.apiVersion == "*" && e.kind != "*") && kind in FetchedKinds(e.apiVersion, e.kind) ==> Names(e, kind)
    {
      match kind case Deployment => case StatefulSet => case CronJob => case ReplicaSet =>
    }
    if e.apiVersion == "*" && e.kind != "*" {
      var other := if e.kind == "Deployment" then CronJob else Deployment;
      assert other in FetchedKinds(e.apiVersion, e.kind) && !Names(e, other);
    }
  }

  // ---- the name filter ----

  predicate Selects(matches: Matcher, e: Entry, r: Resource)
  {
    matches(e.includeRef, r.key.name) && !matches(e.excludeRef, r.key.name)
  }

  function Filter(matches: Matcher, e: Entry, all: seq<Resource>): seq<Resource>
  {
    if all == [] then []
    else (if Selects(matches, e, all[0]) then [all[0]] else []) + Filter(matches, e, all[1..])
  }

  /** Two equal references that are not both empty give no list at all. */
  predicate Contradicts(e: Entry) { e.includeRef == e.excludeRef && e.includeRef != "" }

  /** The objects an entry selects from a list. */
  function Chosen(matches: Matcher, e: Entry, all: seq<Resource>): seq<Resource>
  {
    if e.includeRef == "" && e.excludeRef == "" then all else Filter(matches, e, all)
  }

  lemma {:induction false} FilterConcat(matches: Matcher, e: Entry, a: seq<Resource>, b: seq<Resource>)
    ensures Filter(matches, e, a + b) == Filter(matches, e, a) + Filter(matches, e, b)
  {
    if a == [] {
      assert a + b == b;
    } else {
      FilterConcat(matches, e, a[1..], b);
      assert (a + b)[1..] == a[1..] + b;
    }
  }

  /** The filter keeps exactly the selected objects, each once and, position by position, in list order. */
  lemma {:induction false} FilterKeeps(matches: Matcher, e: Entry, all: seq<Resource>)
    ensures forall r :: r in Filter(matches, e, all) <==>
              r in all && matches(e.includeRef, r.key.name) && !matches(e.excludeRef, r.key.name)
    ensures Distinct(all) ==> Distinct(Filter(matches, e, all))
    ensures Keys(Filter(matches, e, all)) <= Keys(all)
  {
    if all != [] {
      var rest := all[1..];
      assert all == [all[0]] + rest;
      FilterKeeps(matches, e, rest);
      if Distinct(all) {
        assert forall i :: 0 <= i < |rest| ==> rest[i] == all[i + 1];
        assert all[0].key !in Keys(rest);
        if Selects(matches, e, all[0]) {
          DistinctAppends([all[0]], Filter(matches, e, rest));
        }
      }
      KeysAppend([all[0]], rest);
    }
  }

  /** An empty reference matches every name, so an entry with an include pattern and no exclude
      pattern selects nothing. */
  lemma {:induction false} IncludeAloneSelectsNothing(matches: Matcher, e: Entry, all: seq<Resource>)
    requires forall name :: matches("", name)
    requires e.includeRef != "" && e.excludeRef == ""
    ensures Chosen(matches, e, all) == []
  {
    if all != [] {
      assert !Selects(matches, e, all[0]);
      IncludeAloneSelectsNothing(matches, e, all[1..]);
    }
  }

  method GetByPattern(matches: Matcher, e: Entry, all: seq<Resource>) returns (filtered: Option<seq<Resource>>)
    ensures filtered == if Contradicts(e) then None else Some(Chosen(matches, e, all))
    ensures filtered.None? <==> e.includeRef == e.excludeRef && e.includeRef != ""
    ensures e.includeRef == "" && e.excludeRef == "" ==> filtered == Some(all)
    ensures filtered.Some? && e.includeRef != e.excludeRef ==>
              forall r :: r in filtered.value <==>
                r in all && matches(e.includeRef, r.key.name) && !matches(e.excludeRef, r.key.name)
  {
    if e.includeRef == "" && e.excludeRef == "" {
      return Some(all);
    }
    if e.includeRef == e.excludeRef {
      return None;
    }
    var kept: seq<Resource> := [];
    for n := 0 to |all|
      invariant kept == Filter(matches, e, all[..n])
    {
      FilterConcat(matches, e, all[..n], [all[n]]);
      assert all[..n + 1] == all[..n] + [all[n]];
      assert Filter(matches, e, [all[n]]) == if Selects(matches, e, all[n]) then [all[n]] else [];
      if matches(e.includeRef, all[n].key.name) && !matches(e.excludeRef, all[n].key.name) {
        kept := kept + [all[n]];
      }
    }
    assert all[..|all|] == all;
    FilterKeeps(matches, e, all);
    return Some(kept);
  }

  // ---- the fetch ----

  /** A fetch may succeed, return an error, or dereference the nil list of a contradicting entry. */
  datatype Outcome = Fetched(included: Included) | Failed | Crashed

  /** What listing each fetched kind of an entry returned. */
  type Listed = map<Kind, seq<Resource>>

  ghost predicate ListsOf(cluster: map<Key, Value>, e: Entry, listed: Listed)
  {
    && (forall kind :: kind in listed <==> kind in FetchedKinds(e.apiVersion, e.kind))
    && forall kind :: kind in listed ==> IsList(cluster, kind, e.namespace, listed[kind])
  }

  /** The non-empty selections of one entry. */
  ghost function Found(matches: Matcher, e: Entry, listed: Listed): Included
  {
    map kind | kind in listed && Chosen(matches, e, listed[kind]) != [] :: Chosen(matches, e, listed[kind])
  }

  /** Later lists replace earlier ones. */
  ghost function Merge(founds: seq<Included>): Included
  {
    if founds == [] then map[] else Merge(founds[..|founds| - 1]) + founds[|founds| - 1]
  }

  lemma MergeOne(founds: seq<Included>, last: Included)
    ensures Merge(founds + [last]) == Merge(founds) + last
  {}

  /** The last selection that holds the kind. */
  ghost predicate IsLast(founds: seq<Included>, i: nat, kind: Kind)
  {
    i < |founds| && kind in founds[i] && forall j :: i < j < |founds| ==> kind !in founds[j]
  }

  lemma {:induction false} LastOneWins(founds: seq<Included>, kind: Kind)
    ensures kind in Merge(founds) <==> exists i: nat :: IsLast(founds, i, kind)
    ensures forall i: nat :: IsLast(founds, i, kind) ==> Merge(founds)[kind] == founds[i][kind]
  {
    if founds != [] {
      var last := |founds| - 1;
      var before := founds[..last];
      LastOneWins(before, kind);
      if kind in founds[last] {
        assert IsLast(founds, last, kind);
      } else {
        forall i: nat
          ensures IsLast(founds, i, kind) <==> IsLast(before, i, kind)
        {}
      }
    }
  }

  ghost function Founds(matches: Matcher, entries: seq<Entry>, listed: seq<Listed>): (founds: seq<Included>)
    requires |entries| == |listed|
    ensures |founds| == |entries|
    ensures forall i :: 0 <= i < |entries| ==> founds[i] == Found(matches, entries[i], listed[i])
  {
    seq(|entries|, i requires 0 <= i < |entries| => Found(matches, entries[i], listed[i]))
  }

  /** The object lists after all entries. */
  ghost function Fold(matches: Matcher, entries: seq<Entry>, listed: seq<Listed>): Included
    requires |entries| == |listed|
  {
    Merge(Founds(matches, entries, listed))
  }

  /** Entry i selects something of the kind and no later entry does. */
  ghost predicate LastToSelect(matches: Matcher, entries: seq<Entry>, listed: seq<Listed>, i: nat, kind: Kind)
    requires |entries| == |listed|
  {
    && i < |entries| && kind in Found(matches, entries[i], listed[i])
    && forall j :: i < j < |entries| ==> kind !in Found(matches, entries[j], listed[j])
  }

  /** The final list of a kind is what the last entry with a non-empty selection of it selects. */
  lemma LastSelectionWins(matches: Matcher, entries: seq<Entry>, listed: seq<Listed>, kind: Kind)
    requires |entries| == |listed|
    ensures kind in Fold(matches, entries, listed)
            <==> exists i: nat :: LastToSelect(matches, entries, listed, i, kind)
    ensures forall i: nat :: LastToSelect(matches, entries, listed, i, kind) ==>
              Fold(matches, entries, listed)[kind] == Chosen(matches, entries[i], listed[i][kind])
  {
    var founds := Founds(matches, entries, listed);
    LastOneWins(founds, kind);
    forall i: nat
      ensures LastToSelect(matches, entries, listed, i, kind) <==> IsLast(founds, i, kind)
    {}
  }

  /** Whatever is fetched lists existing objects with their present values, each once, and no kind is empty. */
  lemma FetchIsListing(w: World, matches: Matcher, entries: seq<Entry>, listed: seq<Listed>)
    requires |entries| == |listed|
    requires forall i :: 0 <= i < |entries| ==> ListsOf(w.cluster, entries[i], listed[i])
    ensures Listing(w, Fold(matches, entries, listed))
  {
    forall kind | kind in Fold(matches, entries, listed)
      ensures Snapshot(w, kind, Fold(matches, entries, listed)[kind]) && Fold(matches, entries, listed)[kind] != []
    {
      LastSelectionWins(matches, entries, listed, kind);
      var i: nat :| LastToSelect(matches, entries, listed, i, kind);
      FilterKeeps(matches, entries[i], listed[i][kind]);
    }
  }

  /** Nothing but the count of calls changes. */
  ghost predicate OnlyAsks(w: World, w': World)
  {
    w'.cluster == w.cluster && w'.secret == w.secret && w'.fate == w.fate
  }

  /** Exactly so many questions were asked, and all of them answered. */
  ghost predicate Answered(w: World, w': World, count: nat)
  {
    && OnlyAsks(w, w') && w'.calls == w.calls + count
    && forall n :: w.calls <= n < w.calls + count ==> w.fate(n).Granted?
  }

  /** One of the next so many questions is not answered. */
  ghost predicate Unanswered(w: World, count: nat)
  {
    exists n :: w.calls <= n < w.calls + count && !w.fate(n).Granted?
  }

  lemma AnsweredThen(a: World, b: World, c: World, m: nat, n: nat)
    requires Answered(a, b, m) && Answered(b, c, n)
    ensures Answered(a, c, m + n)
  {}

  lemma UnansweredLater(a: World, b: World, m: nat, n: nat, total: nat)
    requires Answered(a, b, m) && Unanswered(b, n) && m + n <= total
    ensures Unanswered(a, total)
  {}

  /** How many lists the entries ask for. */
  function Lists(entries: seq<Entry>): nat
  {
    if entries == [] then 0
    else
      var last := entries[|entries| - 1];
      Lists(entries[..|entries| - 1]) + |FetchedKinds(last.apiVersion, last.kind)|
  }

  /** The kinds of an entry listed so far. */
  ghost predicate HasListed(cluster: map<Key, Value>, e: Entry, kinds: seq<Kind>, listed: Listed)
  {
    && (forall kind :: kind in listed <==> kind in kinds)
    && forall kind :: kind in listed ==> IsList(cluster, kind, e.namespace, listed[kind])
  }

  lemma ListedGrows(
    cluster: map<Key, Value>, e: Entry, kinds: seq<Kind>, kind: Kind, all: seq<Resource>, listed: Listed)
    requires HasListed(cluster, e, kinds, listed) && IsList(cluster, kind, e.namespace, all)
    ensures HasListed(cluster, e, kinds + [kind], listed[kind := all])
  {}

  /** What one kind's list adds to the object lists. */
  ghost function Addition(matches: Matcher, e: Entry, kind: Kind, all: seq<Resource>): Included
  {
    if Chosen(matches, e, all) != [] then map[kind := Chosen(matches, e, all)] else map[]
  }

  lemma FoundGrows(matches: Matcher, e: Entry, listed: Listed, kind: Kind, all: seq<Resource>, objectList: Included)
    requires kind !in listed
    ensures objectList + Found(matches, e, listed[kind := all])
         == (objectList + Found(matches, e, listed)) + Addition(matches, e, kind, all)
  {
    var found, before := Found(matches, e, listed[kind := all]), Found(matches, e, listed);
    assert found.Keys == before.Keys + Addition(matches, e, kind, all).Keys;
    assert forall k :: k in before ==> k != kind && found[k] == before[k];
  }

  /** The block the source repeats for each kind it fetches. */
  method FetchKind(client: Client, matches: Matcher, e: Entry, kind: Kind, objectList: Included)
    returns (outcome: Outcome, ghost all: seq<Resource>)
    modifies client`calls
    ensures OnlyAsks(old(client.State()), client.State())
    ensures outcome.Fetched? ==> !Contradicts(e) && IsList(client.cluster, kind, e.namespace, all)
    ensures outcome.Fetched? ==> outcome.included == objectList + Addition(matches, e, kind, all)
    ensures outcome.Fetched? ==> Answered(old(client.State()), client.State(), 1)
    ensures outcome.Crashed? ==> Contradicts(e)
    ensures outcome.Failed? ==> Unanswered(old(client.State()), 1)
  {
    var list := client.List(kind, e.namespace);
    if list.None? {
      return Failed, [];
    }
    all := list.value;
    var filtered := GetByPattern(matches, e, list.value);
    if filtered.None? {
      return Crashed, all;
    }
    if |filtered.value| > 0 {
      return Fetched(objectList[kind := filtered.value]), all;
    }
    return Fetched(objectList), all;
  }

  /** One entry: the kinds of the switch in order, each replacing the list it already had. */
  method FetchAndFilter(client: Client, matches: Matcher, e: Entry, objectList: Included)
    returns (outcome: Outcome, ghost listed: Listed)
    requires ValidateIncludedObject(e).Some?
    modifies client`calls
    ensures OnlyAsks(old(client.State()), client.State())
    ensures outcome.Fetched? ==> !Contradicts(e) && ListsOf(client.cluster, e, listed)
    ensures outcome.Fetched? ==> outcome.included == objectList + Found(matches, e, listed)
    ensures outcome.Fetched? ==>
              Answered(old(client.State()), client.State(), |FetchedKinds(e.apiVersion, e.kind)|)
    ensures outcome.Crashed? ==> Contradicts(e)
    ensures outcome.Failed? ==> Unanswered(old(client.State()), |FetchedKinds(e.apiVersion, e.kind)|)
  {
    FetchesWhatItNames(e);
    var kinds := FetchedKinds(e.apiVersion, e.kind);
    ghost var start := client.State();
    outcome := Fetched(objectList);
    listed := map[];
    for n := 0 to |kinds|
      invariant Answered(start, client.State(), n)
      invariant n != 0 ==> !Contradicts(e)
      invariant HasListed(client.cluster, e, kinds[..n], listed)
      invariant outcome == Fetched(objectList + Found(matches, e, listed))
    {
      ghost var all;
      outcome, all := FetchKind(client, matches, e, kinds[n], outcome.included);
      if !outcome.Fetched? {
        return;
      }
      assert kinds[..n + 1] == kinds[..n] + [kinds[n]];
      ListedGrows(client.cluster, e, kinds[..n], kinds[n], all, listed);
      FoundGrows(matches, e, listed, kinds[n], all, objectList);
      listed := listed[kinds[n] := all];
    }
    assert kinds[..|kinds|] == kinds;
  }

  /** The first entries have been listed, and these are their selections merged. */
  ghost predicate Folded(
    cluster: map<Key, Value>, matches: Matcher, entries: seq<Entry>, listed: seq<Listed>, included: Included)
  {
    && |entries| == |listed|
    && (forall i :: 0 <= i < |entries| ==> ListsOf(cluster, entries[i], listed[i]))
    && included == Fold(matches, entries, listed)
  }

  /** The entry takes the object: it fetches its kind, in its namespace, and its patterns admit the name. */
  predicate Picks(cluster: map<Key, Value>, matches: Matcher, e: Entry, r: Resource)
  {
    && r.key in cluster && cluster[r.key] == r.value
    && r.key.kind in FetchedKinds(e.apiVersion, e.kind) && (e.namespace == "" || r.key.namespace == e.namespace)
    && ((e.includeRef == "" && e.excludeRef == "")
        || (matches(e.includeRef, r.key.name) && !matches(e.excludeRef, r.key.name)))
  }

  lemma FoundIsPicked(cluster: map<Key, Value>, matches: Matcher, e: Entry, listed: Listed, kind: Kind)
    requires ListsOf(cluster, e, listed)
    ensures kind in Found(matches, e, listed) <==>
            exists r: Resource :: r.key.kind == kind && Picks(cluster, matches, e, r)
    ensures kind in Found(matches, e, listed) ==>
              forall r: Resource :: r in Found(matches, e, listed)[kind] <==>
                r.key.kind == kind && Picks(cluster, matches, e, r)
  {
    if kind in listed {
      FilterKeeps(matches, e, listed[kind]);
      var chosen := Chosen(matches, e, listed[kind]);
      assert forall r: Resource :: r in chosen <==> r.key.kind == kind && Picks(cluster, matches, e, r);
      if chosen != [] {
        assert chosen[0] in chosen;
      }
    }
  }

  /** The entry takes some object of the kind, and no later entry does. */
  ghost predicate LastToPick(
    cluster: map<Key, Value>, matches: Matcher, entries: seq<Entry>, i: nat, kind: Kind)
  {
    && i < |entries| && (exists r: Resource :: r.key.kind == kind && Picks(cluster, matches, entries[i], r))
    && forall j, r: Resource :: i < j < |entries| && r.key.kind == kind ==> !Picks(cluster, matches, entries[j], r)
  }

  lemma LastPickIsSelect(
    cluster: map<Key, Value>, matches: Matcher, entries: seq<Entry>, listed: seq<Listed>, i: nat, kind: Kind)
    requires |listed| == |entries| && forall k :: 0 <= k < |entries| ==> ListsOf(cluster, entries[k], listed[k])
    ensures LastToPick(cluster, matches, entries, i, kind) <==> LastToSelect(matches, entries, listed, i, kind)
  {
    forall k | 0 <= k < |entries| {
      FoundIsPicked(cluster, matches, entries[k], listed[k], kind);
    }
  }

  /** What an entry takes, in the words of the entry. */
  lemma PicksInWords(cluster: map<Key, Value>, matches: Matcher, e: Entry, r: Resource)
    ensures Picks(cluster, matches, e, r) <==>
            && r.key in cluster && cluster[r.key] == r.value
            && (e.apiVersion == "*" || e.apiVersion == (if r.key.kind == CronJob then "batch/v1" else "apps/v1"))
            && (r.key.kind != CronJob && e.apiVersion != "*" ==> e.kind == "*" || e.kind == KindName(r.key.kind))
            && (e.namespace == "" || r.key.namespace == e.namespace)
            && ((e.includeRef == "" && e.excludeRef == "")
                || (matches(e.includeRef, r.key.name) && !matches(e.excludeRef, r.key.name)))
  {
    match r.key.kind case Deployment => case StatefulSet => case CronJob => case ReplicaSet =>
  }

  /** What is fetched, object by object: a kind is there exactly when some entry takes an object of it,
      and its list holds exactly the objects that the last such entry takes. */
  lemma FetchedExactly(
    cluster: map<Key, Value>, matches: Matcher, entries: seq<Entry>, listed: seq<Listed>, included: Included,
    kind: Kind)
    requires Folded(cluster, matches, entries, listed, included)
    ensures kind in included <==> exists i: nat :: LastToPick(cluster, matches, entries, i, kind)
    ensures forall i: nat, r: Resource :: LastToPick(cluster, matches, entries, i, kind) ==>
              (r in included[kind] <==> r.key.kind == kind && Picks(cluster, matches, entries[i], r))
  {
    LastSelectionWins(matches, entries, listed, kind);
    forall i: nat
      ensures LastToPick(cluster, matches, entries, i, kind) <==> LastToSelect(matches, entries, listed, i, kind)
    {
      LastPickIsSelect(cluster, matches, entries, listed, i, kind);
    }
    forall i: nat, r: Resource | LastToPick(cluster, matches, entries, i, kind)
      ensures r in included[kind] <==> r.key.kind == kind && Picks(cluster, matches, entries[i], r)
    {
      FoundIsPicked(cluster, matches, entries[i], listed[i], kind);
    }
  }

  lemma FoldOne(
    cluster: map<Key, Value>, matches: Matcher, entries: seq<Entry>, listed: seq<Listed>, included: Included,
    e: Entry, lists: Listed)
    requires Folded(cluster, matches, entries, listed, included) && ListsOf(cluster, e, lists)
    ensures Folded(cluster, matches, entries + [e], listed + [lists], included + Found(matches, e, lists))
  {
    var founds := Founds(matches, entries, listed);
    MergeOne(founds, Found(matches, e, lists));
    assert Founds(matches, entries + [e], listed + [lists]) == founds + [Found(matches, e, lists)];
  }

  lemma {:induction false} ListsGrow(entries: seq<Entry>, n: nat)
    requires n <= |entries|
    ensures Lists(entries[..n]) <= Lists(entries)
    decreases |entries| - n
  {
    if n < |entries| {
      ListsStep(entries, n);
      ListsGrow(entries, n + 1);
    } else {
      assert entries[..n] == entries;
    }
  }

  lemma ListsStep(entries: seq<Entry>, n: nat)
    requires n < |entries|
    ensures Lists(entries[..n + 1])
         == Lists(entries[..n]) + |FetchedKinds(entries[n].apiVersion, entries[n].kind)|
  {
    assert entries[..n + 1][..n] == entries[..n];
  }

  /** One entry with its wildcard flags; two wildcards are the same as the entry's own words. */
  method FetchEntry(client: Client, matches: Matcher, e: Entry, inclusive: (bool, bool), objectList: Included)
    returns (outcome: Outcome, ghost listed: Listed)
    requires ValidateIncludedObject(e) == Some(inclusive)
    modifies client`calls
    ensures OnlyAsks(old(client.State()), client.State())
    ensures outcome.Fetched? ==> !Contradicts(e) && ListsOf(client.cluster, e, listed)
    ensures outcome.Fetched? ==> outcome.included == objectList + Found(matches, e, listed)
    ensures outcome.Fetched? ==>
              Answered(old(client.State()), client.State(), |FetchedKinds(e.apiVersion, e.kind)|)
    ensures outcome.Crashed? ==> Contradicts(e)
    ensures outcome.Failed? ==> Unanswered(old(client.State()), |FetchedKinds(e.apiVersion, e.kind)|)
  {
    if inclusive.0 && inclusive.1 {
      outcome, listed := FetchAndFilter(client, matches, e.(apiVersion := "*", kind := "*"), objectList);
    } else {
      outcome, listed := FetchAndFilter(client, matches, e, objectList);
    }
  }

  /** The first entries are fetched. */
  ghost predicate FetchedSoFar(
    start: World, w: World, matches: Matcher, entries: seq<Entry>, n: nat, listed: seq<Listed>, included: Included)
    requires n <= |entries|
  {
    && Answered(start, w, Lists(entries[..n]))
    && (forall i :: 0 <= i < n ==> !Contradicts(entries[i]))
    && Folded(w.cluster, matches, entries[..n], listed, included)
  }

  lemma OneMoreFetched(
    start: World, mid: World, w: World, matches: Matcher, entries: seq<Entry>, n: nat, listed: seq<Listed>,
    included: Included, lists: Listed)
    requires n < |entries| && FetchedSoFar(start, mid, matches, entries, n, listed, included)
    requires Answered(mid, w, |FetchedKinds(entries[n].apiVersion, entries[n].kind)|)
    requires !Contradicts(entries[n]) && ListsOf(w.cluster, entries[n], lists)
    ensures FetchedSoFar(start, w, matches, entries, n + 1, listed + [lists],
                         included + Found(matches, entries[n], lists))
  {
    var e := entries[n];
    ListsStep(entries, n);
    AnsweredThen(start, mid, w, Lists(entries[..n]), |FetchedKinds(e.apiVersion, e.kind)|);
    FoldOne(w.cluster, matches, entries[..n], listed, included, e, lists);
    assert entries[..n + 1] == entries[..n] + [e];
  }

  /** Later entries replace the lists of earlier ones; an entry that contradicts itself is never survived. */
  method FetchIncludedObjects(client: Client, matches: Matcher, entries: seq<Entry>, inclusive: seq<(bool, bool)>)
    returns (outcome: Outcome, ghost listed: seq<Listed>)
    requires |inclusive| == |entries|
    requires forall i :: 0 <= i < |entries| ==> Some(inclusive[i]) == ValidateIncludedObject(entries[i])
    modifies client`calls
    ensures OnlyAsks(old(client.State()), client.State())
    ensures outcome.Fetched? ==>
              && Folded(client.cluster, matches, entries, listed, outcome.included)
              && Listing(client.State(), outcome.included)
    ensures outcome.Fetched? ==> forall i :: 0 <= i < |entries| ==> !Contradicts(entries[i])
    ensures outcome.Fetched? ==> Answered(old(client.State()), client.State(), Lists(entries))
    ensures outcome.Crashed? ==> exists i :: 0 <= i < |entries| && Contradicts(entries[i])
    ensures outcome.Failed? ==> Unanswered(old(client.State()), Lists(entries))
  {
    outcome, listed := Fetched(map[]), [];
    ghost var start := client.State();
    assert entries[..0] == [];
    for n := 0 to |entries|
      invariant outcome.Fetched? && FetchedSoFar(start, client.State(), matches, entries, n, listed, outcome.included)
    {
      ghost var mid, before := client.State(), outcome.included;
      ghost var lists;
      outcome, lists := FetchEntry(client, matches, entries[n], inclusive[n], outcome.included);
      if !outcome.Fetched? {
        if outcome.Failed? {
          ListsStep(entries, n);
          ListsGrow(entries, n + 1);
          UnansweredLater(start, mid, Lists(entries[..n]), |FetchedKinds(entries[n].apiVersion, entries[n].kind)|,
                          Lists(entries));
        }
        return;
      }
      OneMoreFetched(start, mid, client.State(), matches, entries, n, listed, before, lists);
      listed := listed + [lists];
    }
    assert entries[..|entries|] == entries;
    FetchIsListing(client.State(), matches, entries, listed);
  }
}
