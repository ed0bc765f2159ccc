/** Runs of sleep passes, wake passes and edits by others. */
module Runs {
  import opened Wrappers
  import opened Resources
  import opened Passes
  import opened Conservation

  datatype Step =
    | SleepStep(included: Included)
    | WakeStep(order: seq<Kind>)
    | EditStep(key: Key, value: Value)  // someone else sets a value or creates an object

  ghost function Apply(w: World, step: Step): World
  {
    match step
    case SleepStep(included) => SleepPass(w, included).world
    case WakeStep(order) => WakePass(w, order).world
    case EditStep(key, value) => w.(cluster := w.cluster[key := value])
  }

  ghost function Run(w: World, steps: seq<Step>): World
    decreases |steps|
  {
    if steps == [] then w else Run(Apply(w, steps[0]), steps[1..])
  }

  /** A sleep pass works on what the cluster holds and never loses a record of something it
      scaled down; wake passes and edits are unrestricted. */
  ghost predicate Allowed(w: World, step: Step)
  {
    match step
    case SleepStep(included) => SnapshotOf(w, included) && PassKeeps(w, SLEEP_ORDER, included)
    case WakeStep(order) => IsKindOrder(order)
    case EditStep(_, _) => true
  }

  ghost predicate AllAllowed(w: World, steps: seq<Step>)
    decreases |steps|
  {
    steps != [] ==> Allowed(w, steps[0]) && AllAllowed(Apply(w, steps[0]), steps[1..])
  }

  /** The value the object is meant to have: the last edit made while it was not recorded. */
  ghost function Intended(w: World, steps: seq<Step>, key: Key, value: Option<Value>): Option<Value>
    decreases |steps|
  {
    if steps == [] then value
    else
      var edited := steps[0].EditStep? && steps[0].key == key && !Recorded(w.secret, key);
      Intended(Apply(w, steps[0]), steps[1..], key, if edited then Some(steps[0].value) else value)
  }

  /** Conservation over every run: the value an object is meant to have is always its record, or
      its live value when there is no record. */
  lemma {:induction false} OriginalIsIntended(w: World, steps: seq<Step>, key: Key)
    requires Filed(w.secret) && AllAllowed(w, steps)
    ensures Original(Run(w, steps), key) == Intended(w, steps, key, Original(w, key))
    ensures Filed(Run(w, steps).secret)
    decreases |steps|
  {
    if steps != [] {
      var w' := Apply(w, steps[0]);
      match steps[0] {
        case SleepStep(included) => SleepPassConserves(w, included);
        case WakeStep(order) => WakePassConserves(w, order);
        case EditStep(_, _) =>
      }
      OriginalIsIntended(w', steps[1..], key);
    }
  }

  // ---- an object no pass includes ----

  lemma {:induction false} KindsLeaveStranger(
    w: World, kinds: seq<Kind>, included: Included, failed: Failures, key: Key)
    requires Filed(w.secret) && NoRepeats(kinds) && key in w.cluster
    requires forall kind :: kind in kinds && kind in included ==>
               OfKind(included[kind], kind) && Distinct(included[kind])
    requires key.kind in kinds && key.kind in included ==>
               key !in Keys(included[key.kind]) && !Recorded(w.secret, key)
    ensures var w' := SleepKinds(w, kinds, included, failed).world;
            && key in w'.cluster && w'.cluster[key] == w.cluster[key] && Filed(w'.secret) && w'.fate == w.fate
            && (Recorded(w'.secret, key) <==> Recorded(w.secret, key))
            && (key.kind !in kinds ==> Saved(w'.secret, key.kind) == Saved(w.secret, key.kind))
    decreases |kinds|
  {
    if kinds != [] {
      var kind, rest := kinds[0], kinds[1..];
      if kind !in included {
        KindsLeaveStranger(w, rest, included, failed, key);
      } else {
        var items := included[kind];
        var done := SleepKind(w, kind, items);
        SecretAfter(w, kind, items);
        if key.kind != kind {
          assert key !in Keys(items) && key !in Keys(Saved(w.secret, kind));
        }
        StrangerKept(w, kind, items, key);
        StrangerStaysUnrecorded(w, kind, items, key);
        if done.ok {
          KindsLeaveStranger(done.world, rest, included,
                             if done.failed == [] then failed else failed[kind := done.failed], key);
        }
      }
    }
  }

  lemma StrangerStaysUnrecorded(w: World, kind: Kind, items: seq<Resource>, key: Key)
    requires Filed(w.secret) && OfKind(items, kind) && Distinct(items)
    requires key !in Keys(items) && key !in Keys(Saved(w.secret, kind))
    ensures Recorded(SleepKind(w, kind, items).world.secret, key) <==> Recorded(w.secret, key)
  {
    SecretAfter(w, kind, items);
    ScanOfKind(w, kind, items);
  }

  ghost predicate NeverNamed(steps: seq<Step>, key: Key)
  {
    forall step :: step in steps ==>
      match step
      case SleepStep(included) => forall kind :: kind in included ==> key !in Keys(included[kind])
      case WakeStep(order) => IsKindOrder(order)
      case EditStep(edited, _) => edited != key
  }

  ghost predicate WellListed(steps: seq<Step>)
  {
    forall step :: step in steps && step.SleepStep? ==>
      forall kind :: kind in step.included ==> OfKind(step.included[kind], kind) && Distinct(step.included[kind])
  }

  /** Whatever fails, an object that is neither recorded nor ever included is never touched. */
  lemma {:induction false} NeverIncludedUntouched(w: World, steps: seq<Step>, key: Key)
    requires Filed(w.secret) && WellListed(steps) && NeverNamed(steps, key)
    requires key in w.cluster && !Recorded(w.secret, key)
    ensures key in Run(w, steps).cluster && Run(w, steps).cluster[key] == w.cluster[key]
    decreases |steps|
  {
    if steps != [] {
      var w', rest := Apply(w, steps[0]), steps[1..];
      assert steps[0] in steps && forall step :: step in rest ==> step in steps;
      match steps[0] {
        case SleepStep(included) =>
          KindsLeaveStranger(w, SLEEP_ORDER, included, map[], key);
        case WakeStep(order) =>
          WakePassConserves(w, order);
          OrderReadsAll(w.secret, order);
          WakesTouchTheirs(w, AllRecords(w.secret, order));
        case EditStep(_, _) =>
      }
      NeverIncludedUntouched(w', rest, key);
    }
  }

  // ---- an object that stays recorded ----

  lemma KindKeepsRecord(w: World, kind: Kind, items: seq<Resource>, key: Key)
    requires Filed(w.secret) && OfKind(items, kind) && Distinct(items) && Recorded(w.secret, key)
    ensures var w' := SleepKind(w, kind, items).world;
            && Filed(w'.secret) && (key.kind != kind ==> Saved(w'.secret, key.kind) == Saved(w.secret, key.kind))
            && (Recorded(w'.secret, key) ==>
                  ValueOf(Saved(w'.secret, key.kind), key) == ValueOf(Saved(w.secret, key.kind), key))
  {
    SecretAfter(w, kind, items);
    if key.kind == kind {
      RecordedKept(w, kind, items, Resource(key, ValueOf(Saved(w.secret, kind), key)));
    }
  }

  lemma {:induction false} KindsKeepRecord(
    w: World, kinds: seq<Kind>, included: Included, failed: Failures, key: Key)
    requires Filed(w.secret) && NoRepeats(kinds) && Recorded(w.secret, key)
    requires forall kind :: kind in included ==> OfKind(included[kind], kind) && Distinct(included[kind])
    ensures var w' := SleepKinds(w, kinds, included, failed).world;
            Recorded(w'.secret, key) ==>
              ValueOf(Saved(w'.secret, key.kind), key) == ValueOf(Saved(w.secret, key.kind), key)
    decreases |kinds|
  {
    if kinds != [] {
      var kind, rest := kinds[0], kinds[1..];
      assert kinds == [kind] + rest;
      if kind !in included {
        KindsKeepRecord(w, rest, included, failed, key);
      } else {
        var done := SleepKind(w, kind, included[kind]);
        KindKeepsRecord(w, kind, included[kind], key);
        if done.ok {
          var failed' := if done.failed == [] then failed else failed[kind := done.failed];
          if kind == key.kind {
            LaterKindsKeepRecords(done.world, rest, included, failed', kind);
          } else {
            KindsKeepRecord(done.world, rest, included, failed', key);
          }
        }
      }
    }
  }

  ghost predicate StaysRecorded(w: World, steps: seq<Step>, key: Key)
    decreases |steps|
  {
    Recorded(w.secret, key) && (steps != [] ==> StaysRecorded(Apply(w, steps[0]), steps[1..], key))
  }

  /** Whatever fails and whatever others edit, a record that stays keeps the value it was made with,
      although the controller has since written the dormant value to the object. */
  lemma {:induction false} RecordsNeverOverwritten(w: World, steps: seq<Step>, key: Key)
    requires Filed(w.secret) && WellListed(steps) && StaysRecorded(w, steps, key)
    ensures Recorded(Run(w, steps).secret, key)
    ensures ValueOf(Saved(Run(w, steps).secret, key.kind), key) == ValueOf(Saved(w.secret, key.kind), key)
    decreases |steps|
  {
    if steps != [] {
      assert steps[0] in steps && forall step :: step in steps[1..] ==> step in steps;
      match steps[0] {
        case SleepStep(included) =>
          PassStaysFiled(w, SLEEP_ORDER, included, map[]);
          KindsKeepRecord(w, SLEEP_ORDER, included, map[], key);
        case WakeStep(order) =>
          WakesTouchTheirs(w, AllRecords(w.secret, order));
        case EditStep(_, _) =>
      }
      RecordsNeverOverwritten(Apply(w, steps[0]), steps[1..], key);
    }
  }

  lemma {:induction false} PassStaysFiled(w: World, kinds: seq<Kind>, included: Included, failed: Failures)
    requires Filed(w.secret)
    requires forall kind :: kind in included ==> OfKind(included[kind], kind) && Distinct(included[kind])
    ensures Filed(SleepKinds(w, kinds, included, failed).world.secret)
    decreases |kinds|
  {
    if kinds != [] {
      if kinds[0] !in included {
        PassStaysFiled(w, kinds[1..], included, failed);
      } else {
        var done := SleepKind(w, kinds[0], included[kinds[0]]);
        SecretAfter(w, kinds[0], included[kinds[0]]);
        PassStaysFiled(done.world, kinds[1..], included,
                       if done.failed == [] then failed else failed[kinds[0] := done.failed]);
      }
    }
  }
}
