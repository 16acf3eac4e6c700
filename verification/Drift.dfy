/** The drift check: the same plan compared with what the cluster shows, without resolving its
    references and without its secrets. It agrees with the applier in both directions: right after
    an apply it finds nothing, and whatever it finds the next apply would send. */
module Drift {
  import opened Wrappers
  import opened Json
  import opened PlanApplier
  import opened Convergence
  import opened PlanRuns
  import opened PlanTheorems

  datatype Difference =
    | Missing(kind: string, ref: string)
    | Differs(kind: string, property: string, ofRef: Option<string>)

  // --- the check -----------------------------------------------------------------------------

  predicate HasDrifted(live: Props, wanted: Props, key: string)
    requires key in wanted
  {
    key != "@type" && !IsWriteOnly(key, wanted[key]) && !SameValue(Get(live, key), wanted[key])
  }

  function Drifted(kind: string, live: Props, wanted: Props, ref: Option<string>): set<Difference> {
    set k | k in wanted && HasDrifted(live, wanted, k) :: Differs(kind, k, ref)
  }

  function EntryDrift(kind: string, keys: seq<string>, existing: Collection, entry: Entry): set<Difference> {
    var i := FirstMatch(existing, keys, entry.props);
    if i == |existing| then {Missing(kind, entry.ref)}
    else Drifted(kind, existing[i].props, entry.props, Some(entry.ref))
  }

  function EntriesDrift(kind: string, keys: seq<string>, existing: Collection, entries: seq<Entry>): set<Difference> {
    if entries == [] then {}
    else EntryDrift(kind, keys, existing, entries[0]) + EntriesDrift(kind, keys, existing, entries[1..])
  }

  function OperationDrift(op: Operation, server: Server): set<Difference> {
    match op
    case Upsert(kind, create, matchOn, entries) =>
      if create then {} else EntriesDrift(kind, MatchKeys(matchOn), Read(CollectionOf(server, kind)), entries)
    case UpdateOne(kind, id, props) =>
      if id != "" then {} else Drifted(kind, StripProps(SingletonOf(server, kind)), props, None)
    case _ => {}
  }

  function DriftOf(plan: Plan, server: Server): set<Difference> {
    if plan == [] then {} else OperationDrift(plan[0], server) + DriftOf(plan[1..], server)
  }

  method DriftedProperties(kind: string, live: Props, wanted: Props, ref: Option<string>)
    returns (found: set<Difference>)
    ensures found == Drifted(kind, live, wanted, ref)
  {
    found := {};
    var keys := wanted.Keys;
    while keys != {}
      invariant keys <= wanted.Keys
      invariant found == set k | k in wanted.Keys - keys && HasDrifted(live, wanted, k) :: Differs(kind, k, ref)
      decreases |keys|
    {
      var key :| key in keys;
      keys := keys - {key};
      if HasDrifted(live, wanted, key) {
        found := found + {Differs(kind, key, ref)};
      }
    }
  }

  /** `drift_report`: never mutates. */
  method DriftReport(client: StalwartClient, plan: Plan) returns (differences: set<Difference>)
    ensures differences == DriftOf(plan, client.server)
  {
    differences := {};
    for n := 0 to |plan|
      invariant DriftOf(plan, client.server) == differences + DriftOf(plan[n..], client.server)
    {
      var op := plan[n];
      assert plan[n..][0] == op && plan[n..][1..] == plan[n + 1..];
      var found := {};
      match op {
        case Upsert(kind, create, matchOn, entries) =>
          if !create {
            found := EntriesReport(client, kind, MatchKeys(matchOn), entries);
          }
        case UpdateOne(kind, id, props) =>
          if id == "" {
            found := DriftedProperties(kind, StripProps(SingletonOf(client.server, kind)), props, None);
          }
        case _ =>
      }
      differences := differences + found;
    }
    assert plan[|plan|..] == [];
  }

  method EntriesReport(client: StalwartClient, kind: string, keys: seq<string>, entries: seq<Entry>)
    returns (found: set<Difference>)
    ensures found == EntriesDrift(kind, keys, Read(CollectionOf(client.server, kind)), entries)
  {
    found := {};
    var existing := client.GetAll(kind);
    for n := 0 to |entries|
      invariant EntriesDrift(kind, keys, existing, entries) == found + EntriesDrift(kind, keys, existing, entries[n..])
    {
      var entry := entries[n];
      assert entries[n..][0] == entry && entries[n..][1..] == entries[n + 1..];
      var i := FirstMatch(existing, keys, entry.props);
      if i == |existing| {
        found := found + {Missing(kind, entry.ref)};
      } else {
        var changed := DriftedProperties(kind, existing[i].props, entry.props, Some(entry.ref));
        found := found + changed;
      }
    }
    assert entries[|entries|..] == [];
  }

  // --- labels --------------------------------------------------------------------------------

  predicate Labelled(steps: seq<Step>, seen: set<string>) {
    LabelsUnique(steps) && forall i | 0 <= i < |steps| && steps[i].Put? :: steps[i].ref !in seen
  }

  /** `assert_unique_labels`: None exactly when no two values of the plan have one label. */
  method AssertUniqueLabels(plan: Plan) returns (duplicate: Option<string>)
    ensures duplicate.None? <==> LabelsUnique(Steps(plan))
  {
    hide Labelled, LabelsUnique, Steps, OperationSteps, LabelsLeft;
    var seen: set<string> := {};
    NoneSeen(Steps(plan));
    assert plan[0..] == plan;
    for n := 0 to |plan|
      invariant LabelsUnique(Steps(plan)) <==> Labelled(Steps(plan[n..]), seen)
    {
      NextOperation(plan, n, seen);
      if plan[n].Upsert? {
        var kind, keys, entries := plan[n].kind, MatchKeys(plan[n].matchOn), plan[n].entries;
        for m := 0 to |entries|
          invariant LabelsUnique(Steps(plan)) <==> Labelled(LabelsLeft(plan, n, m), seen)
        {
          NextEntry(plan, n, m, seen);
          if entries[m].ref in seen {
            return Some(entries[m].ref);
          }
          seen := seen + {entries[m].ref};
        }
        LastEntry(plan, n);
      }
    }
    duplicate := None;
    NothingLabelled(plan, seen);
  }

  /** The labels from the m-th value of the n-th operation on. */
  function LabelsLeft(plan: Plan, n: nat, m: nat): seq<Step>
    requires n < |plan| && plan[n].Upsert? && m <= |plan[n].entries|
  {
    EntrySteps(plan[n].kind, MatchKeys(plan[n].matchOn), plan[n].entries[m..]) + Steps(plan[n + 1..])
  }

  lemma NextOperation(plan: Plan, n: nat, seen: set<string>)
    requires n < |plan|
    ensures plan[n].Upsert? ==> LabelsLeft(plan, n, 0) == Steps(plan[n..])
    ensures !plan[n].Upsert? ==> (Labelled(Steps(plan[n..]), seen) <==> Labelled(Steps(plan[n + 1..]), seen))
  {
    hide Labelled;
    var tail := Steps(plan[n + 1..]);
    assert plan[n..][0] == plan[n] && plan[n..][1..] == plan[n + 1..];
    if plan[n].Upsert? {
      assert plan[n].entries[0..] == plan[n].entries;
    } else if plan[n].UpdateOne? {
      LabelledCons(Write(plan[n].kind, plan[n].props), tail, seen);
    } else {
      assert OperationSteps(plan[n]) + tail == tail;
    }
  }

  lemma NextEntry(plan: Plan, n: nat, m: nat, seen: set<string>)
    requires n < |plan| && plan[n].Upsert? && m < |plan[n].entries|
    ensures var ref := plan[n].entries[m].ref;
            Labelled(LabelsLeft(plan, n, m), seen) <==>
            ref !in seen && Labelled(LabelsLeft(plan, n, m + 1), seen + {ref})
  {
    hide Labelled, Steps;
    var kind, keys, entries := plan[n].kind, MatchKeys(plan[n].matchOn), plan[n].entries;
    var step := Put(kind, keys, entries[m].ref, entries[m].props);
    assert entries[m..][0] == entries[m] && entries[m..][1..] == entries[m + 1..];
    assert LabelsLeft(plan, n, m) == [step] + LabelsLeft(plan, n, m + 1);
    LabelledCons(step, LabelsLeft(plan, n, m + 1), seen);
  }

  lemma LastEntry(plan: Plan, n: nat)
    requires n < |plan| && plan[n].Upsert?
    ensures LabelsLeft(plan, n, |plan[n].entries|) == Steps(plan[n + 1..])
  {
  }

  lemma NoneSeen(steps: seq<Step>)
    ensures Labelled(steps, {}) <==> LabelsUnique(steps)
  {
  }

  lemma NothingLabelled(plan: Plan, seen: set<string>)
    ensures Labelled(Steps(plan[|plan|..]), seen)
  {
  }

  lemma LabelledCons(step: Step, rest: seq<Step>, seen: set<string>)
    ensures Labelled([step] + rest, seen) <==>
            if step.Put? then step.ref !in seen && Labelled(rest, seen + {step.ref}) else Labelled(rest, seen)
  {
    var steps := [step] + rest;
    assert forall i | 0 <= i < |rest| :: rest[i] == steps[i + 1];
    if Labelled(steps, seen) && step.Put? {
      assert steps[0].Put? && steps[0].ref == step.ref;
      forall i | 0 <= i < |rest| && rest[i].Put? ensures rest[i].ref !in seen + {step.ref} {
        assert steps[i + 1].ref != steps[0].ref;
      }
    }
  }

  // --- after an apply ------------------------------------------------------------------------

  /** What the drift check needs beyond the applier: it compares keys, and match keys also values,
      before resolving them, and one property of a singleton must be set by one operation only. */
  predicate DriftOk(plan: Plan) {
    var steps := Steps(plan);
    && (forall i | 0 <= i < |steps| :: Plain(Obj(steps[i].props)))
    && (forall i | 0 <= i < |steps| && steps[i].Put? :: forall k | k in steps[i].keys :: NoRefs(Get(steps[i].props, k)))
    && WritesApart(steps)
  }

  predicate WritesApart(steps: seq<Step>) {
    forall i, j | 0 <= i < j < |steps| && steps[i].Write? && steps[j].Write? && steps[i].kind == steps[j].kind ::
      steps[i].props.Keys !! steps[j].props.Keys
  }

  lemma MatchIgnoresResolve(existing: Collection, keys: seq<string>, props: Props, ids: Ids)
    requires TopPlain(props) && Resolvable(Obj(props), ids)
    requires forall k | k in keys :: NoRefs(Get(props, k))
    ensures FirstMatch(existing, keys, ResolveProps(props, ids)) == FirstMatch(existing, keys, props)
  {
    var value := ResolveProps(props, ids);
    forall k | k in keys ensures Get(value, k) == Get(props, k) {
      ResolvedKey(props, ids, k);
    }
    SameMatches(existing, existing, keys, value);
    var i := FirstMatch(existing, keys, value);
    if i < |existing| {
      FirstMatchIs(existing, keys, props, i);
    }
  }

  /** A settled value reads back as it was sent. */
  lemma SettledReadsBack(held: Props, keys: seq<string>, value: Props, k: string)
    requires held + PatchOf(value, keys, StripProps(held)) == held
    requires Matches(StripProps(held), keys, value) && ValueReadable(keys, value)
    requires k in value && !IsWriteOnly(k, value[k])
    ensures Get(StripProps(held), k) == Strip(value[k])
  {
    var shown := Get(StripProps(held), k);
    if k in keys {
      assert Get(value, k) == value[k];
    } else if shown == value[k] {
      if k in StripProps(held) {
        StripIsIdempotent(held[k]);
      }
    } else {
      assert k in Visible(value, keys, StripProps(held)) && k !in Secrets(value);
      assert (held + PatchOf(value, keys, StripProps(held)))[k] == value[k];
    }
  }

  lemma SettledHasNotDrifted(kind: string, objects: Collection, keys: seq<string>, entry: Entry, ids: Ids)
    requires StepOk(Put(kind, keys, entry.ref, entry.props)) && Plain(Obj(entry.props))
    requires Resolvable(Obj(entry.props), ids) && NonEmptyIds(ids)
    requires forall k | k in keys :: NoRefs(Get(entry.props, k))
    requires Settled(objects, keys, ResolveProps(entry.props, ids))
    ensures EntryDrift(kind, keys, Read(objects), entry) == {}
  {
    var value := ResolveProps(entry.props, ids);
    MatchIgnoresResolve(Read(objects), keys, entry.props, ids);
    ReadableResolves(keys, entry.props, ids);
    ResolvePlainFields(entry.props, ids);
    var i := FirstMatch(Read(objects), keys, value);
    assert Read(objects)[i].props == StripProps(objects[i].props);
    forall k | k in entry.props && !IsWriteOnly(k, entry.props[k])
      ensures SameValue(Get(StripProps(objects[i].props), k), entry.props[k])
    {
      ResolveKeepsWriteOnly(k, entry.props[k], ids);
      SettledReadsBack(objects[i].props, keys, value, k);
      SentValueIsSame(entry.props[k], ids);
    }
  }

  lemma StepKeepsIds(step: Step, state: State)
    requires StepOk(step) && GoodServer(state.server) && RunStep(step, state).error.None? && NonEmptyIds(state.ids)
    ensures NonEmptyIds(RunStep(step, state).state.ids)
  {
    match step
    case Put(kind, keys, ref, props) =>
      PutStep(step, state);
      assert GoodIds(CollectionOf(state.server, kind));
    case Write(_, _) => WriteStep(step, state);
  }

  /** Every put of a run is settled when the run ends, with the ids known when it ran. */
  lemma {:induction false} RunSettles(steps: seq<Step>, state: State, i: nat) returns (ids: Ids)
    requires GoodServer(state.server) && WellFormed(steps) && RunSteps(steps, state).error.None?
    requires NonEmptyIds(state.ids) && i < |steps| && steps[i].Put?
    ensures Resolvable(Obj(steps[i].props), ids) && NonEmptyIds(ids)
    ensures Settled(CollectionOf(RunSteps(steps, state).state.server, steps[i].kind), steps[i].keys,
                    ResolveProps(steps[i].props, ids))
    decreases |steps|
  {
    hide RunStep, GoodServer, Settled, Place, PlacedId, ResolveProps, Resolvable, StepOk, Compatible;
    var step, rest := steps[0], steps[1..];
    FirstIsCompatible(steps);
    StepKeepsGood(step, state);
    if i == 0 {
      ids := state.ids;
      PutStep(step, state);
      RestKeepsSettled(rest, RunStep(step, state).state, step, ids);
    } else {
      StepKeepsIds(step, state);
      ids := RunSettles(rest, RunStep(step, state).state, i - 1);
    }
  }

  predicate Holds(singletons: map<string, Props>, kind: string, key: string, value: Json) {
    key in PropsOf(singletons, kind) && PropsOf(singletons, kind)[key] == value
  }

  lemma {:induction false} RestKeepsProperty(steps: seq<Step>, state: State, kind: string, key: string, value: Json)
    requires GoodServer(state.server) && StepsOk(steps) && RunSteps(steps, state).error.None?
    requires forall j | 0 <= j < |steps| && steps[j].Write? && steps[j].kind == kind :: key !in steps[j].props
    requires Holds(state.server.singletons, kind, key, value)
    ensures Holds(RunSteps(steps, state).state.server.singletons, kind, key, value)
    decreases |steps|
  {
    hide RunStep, GoodServer, ResolveProps, Resolvable, KeysReadable, PlainKeys, Place, PlacedId, Settled,
        ValueReadable;
    if steps != [] {
      var next := RunStep(steps[0], state).state;
      FirstStepOk(steps);
      StepKeepsGood(steps[0], state);
      match steps[0] {
        case Put(_, _, _, _) => PutStep(steps[0], state);
        case Write(of, props) =>
          WriteStep(steps[0], state);
          ResolvePlainFields(props, state.ids);
      }
      RestKeepsProperty(steps[1..], next, kind, key, value);
    }
  }

  /** Every property a run writes to a singleton is there when the run ends. */
  lemma {:induction false} RunKeepsWritten(steps: seq<Step>, state: State, i: nat, key: string) returns (ids: Ids)
    requires GoodServer(state.server) && StepsOk(steps) && RunSteps(steps, state).error.None? && WritesApart(steps)
    requires NonEmptyIds(state.ids) && i < |steps| && steps[i].Write? && key in steps[i].props
    ensures Resolvable(steps[i].props[key], ids) && NonEmptyIds(ids)
    ensures Holds(RunSteps(steps, state).state.server.singletons, steps[i].kind, key, Resolve(steps[i].props[key], ids))
    decreases |steps|
  {
    hide RunStep, GoodServer, Resolvable, Resolve, KeysReadable, PlainKeys, Place, PlacedId, Settled, ValueReadable;
    var step, rest := steps[0], steps[1..];
    FirstStepOk(steps);
    StepKeepsGood(step, state);
    assert forall j | 0 <= j < |rest| :: rest[j] == steps[j + 1];
    if i == 0 {
      ids := state.ids;
      WriteStep(step, state);
      ResolvePlainFields(step.props, ids);
      RestKeepsProperty(rest, RunStep(step, state).state, step.kind, key, Resolve(step.props[key], ids));
    } else {
      StepKeepsIds(step, state);
      ids := RunKeepsWritten(rest, RunStep(step, state).state, i - 1, key);
    }
  }

  function StepDrift(step: Step, server: Server): set<Difference> {
    match step
    case Put(kind, keys, ref, props) => EntryDrift(kind, keys, Read(CollectionOf(server, kind)), Entry(ref, props))
    case Write(kind, props) => Drifted(kind, StripProps(SingletonOf(server, kind)), props, None)
  }

  lemma {:induction false} DriftComesFromAStep(plan: Plan, server: Server, d: Difference) returns (i: nat)
    requires Declarative(plan) && d in DriftOf(plan, server)
    ensures i < |Steps(plan)| && d in StepDrift(Steps(plan)[i], server)
  {
    hide EntryDrift, EntriesDrift, Drifted, Read, MatchKeys;
    var op, rest := plan[0], plan[1..];
    if d in OperationDrift(op, server) {
      match op {
        case Upsert(kind, _, matchOn, entries) =>
          i := EntriesDriftAt(kind, MatchKeys(matchOn), Read(CollectionOf(server, kind)), entries, d);
          EntryStepAt(kind, MatchKeys(matchOn), entries, i);
        case UpdateOne(_, _, _) => i := 0;
      }
    } else {
      var j := DriftComesFromAStep(rest, server, d);
      i := |OperationSteps(op)| + j;
    }
  }

  lemma {:induction false} EntriesDriftAt(kind: string, keys: seq<string>, existing: Collection, entries: seq<Entry>,
                                          d: Difference) returns (i: nat)
    requires d in EntriesDrift(kind, keys, existing, entries)
    ensures i < |entries| && d in EntryDrift(kind, keys, existing, entries[i])
  {
    hide EntryDrift;
    if d in EntryDrift(kind, keys, existing, entries[0]) {
      i := 0;
    } else {
      var j := EntriesDriftAt(kind, keys, existing, entries[1..], d);
      i := j + 1;
    }
  }

  /** Right after a plan is applied the drift check finds no difference, although it sees the plan's
      references unresolved, part of each object and none of its secrets. */
  lemma NoDriftAfterApply(plan: Plan, server: Server)
    requires PlanOk(plan) && DriftOk(plan) && GoodServer(server)
    requires ApplyPlan(plan, server).error.None?
    ensures DriftOf(plan, ApplyPlan(plan, server).state.server) == {}
  {
    hide RunSteps, ApplyOperations, GoodServer, Settled, EntryDrift, Drifted, DriftOf, StepOk, Compatible;
    var steps, first := Steps(plan), Fresh(server);
    ApplyIsRunSteps(plan, first);
    var end := RunSteps(steps, first).state;
    if DriftOf(plan, end.server) != {} {
      var d :| d in DriftOf(plan, end.server);
      var i := DriftComesFromAStep(plan, end.server, d);
      assert StepOk(steps[i]);
      match steps[i] {
        case Put(kind, keys, ref, props) =>
          var ids := RunSettles(steps, first, i);
          SettledHasNotDrifted(kind, CollectionOf(end.server, kind), keys, Entry(ref, props), ids);
        case Write(kind, props) => WrittenHasNotDrifted(steps, first, i);
      }
      assert false;
    }
  }

  lemma WrittenHasNotDrifted(steps: seq<Step>, state: State, i: nat)
    requires GoodServer(state.server) && StepsOk(steps) && RunSteps(steps, state).error.None? && WritesApart(steps)
    requires NonEmptyIds(state.ids) && i < |steps| && steps[i].Write? && Plain(Obj(steps[i].props))
    ensures StepDrift(steps[i], RunSteps(steps, state).state.server) == {}
  {
    hide RunSteps, GoodServer;
    var props := steps[i].props;
    var held := SingletonOf(RunSteps(steps, state).state.server, steps[i].kind);
    forall k | k in props && !IsWriteOnly(k, props[k]) ensures SameValue(Get(StripProps(held), k), props[k]) {
      var ids := RunKeepsWritten(steps, state, i, k);
      ResolveKeepsWriteOnly(k, props[k], ids);
      SentValueIsSame(props[k], ids);
    }
  }

  // --- the other direction -------------------------------------------------------------------

  /** A property the drift check reports is one the next apply sends, unless it is one the object
      is matched on. */
  lemma DriftIsSent(kind: string, keys: seq<string>, objects: Collection, entry: Entry, ids: Ids, key: string)
    requires Plain(Obj(entry.props)) && Resolvable(Obj(entry.props), ids) && NonEmptyIds(ids)
    requires forall k | k in keys :: NoRefs(Get(entry.props, k))
    requires Differs(kind, key, Some(entry.ref)) in EntryDrift(kind, keys, Read(objects), entry)
    ensures key !in keys
    ensures key in PlacedVisible(objects, keys, ResolveProps(entry.props, ids))
  {
    hide Plain, NoRefs, Resolvable, ResolveProps, SameValue, Resolve, FirstMatch;
    var props, value := entry.props, ResolveProps(entry.props, ids);
    PlainIsTopPlain(props);
    MatchIgnoresResolve(Read(objects), keys, props, ids);
    ResolvePlainFields(props, ids);
    var i := FirstMatch(Read(objects), keys, props);
    var live := Read(objects)[i].props;
    assert HasDrifted(live, props, key);
    PlainField(props, key);
    ResolveKeepsWriteOnly(key, props[key], ids);
    if Get(live, key) == value[key] {
      if key in live {
        StripIsIdempotent(objects[i].props[key]);
      }
      SentValueIsSame(props[key], ids);
      assert false;
    }
    ResolvedKeyMatches(live, keys, props, ids, key);
  }

  lemma PlainIsTopPlain(props: Props)
    requires Plain(Obj(props))
    ensures TopPlain(props)
  {
  }

  lemma PlainField(props: Props, key: string)
    requires Plain(Obj(props)) && key in props
    ensures Plain(props[key])
  {
  }

  lemma ResolvedKeyMatches(live: Props, keys: seq<string>, props: Props, ids: Ids, key: string)
    requires TopPlain(props) && Resolvable(Obj(props), ids)
    requires forall k | k in keys :: NoRefs(Get(props, k))
    requires Matches(live, keys, props)
    ensures key in keys ==> Get(live, key) == Get(ResolveProps(props, ids), key)
  {
    if key in keys {
      ResolvedKey(props, ids, key);
    }
  }
}
