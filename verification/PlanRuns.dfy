/** Runs of a plan in its simple form: what one run settles stays settled, what it writes to the
    singletons, and what a second run does on the state the first one left. */
module PlanRuns {
  import opened Wrappers
  import opened Json
  import opened PlanApplier
  import opened Convergence
  import opened Separation

  // --- runs --------------------------------------------------------------------------------

  lemma {:induction false} RunStepsAppend(a: seq<Step>, b: seq<Step>, state: State)
    ensures RunSteps(a + b, state) ==
            if RunSteps(a, state).error.Some? then RunSteps(a, state) else RunSteps(b, RunSteps(a, state).state)
    decreases |a|
  {
    if a == [] {
      assert a + b == b;
    } else {
      assert (a + b)[1..] == a[1..] + b;
      RunStepsAppend(a[1..], b, RunStep(a[0], state).state);
    }
  }

  lemma StepsOkParts(a: seq<Step>, b: seq<Step>)
    requires StepsOk(a + b)
    ensures StepsOk(a) && StepsOk(b)
  {
    assert forall i | 0 <= i < |a| :: (a + b)[i] == a[i];
    assert forall i | 0 <= i < |b| :: (a + b)[|a| + i] == b[i];
  }

  lemma FirstStepOk(steps: seq<Step>)
    requires StepsOk(steps) && steps != []
    ensures StepOk(steps[0]) && StepsOk(steps[1..])
  {
    StepsOkParts([steps[0]], steps[1..]) by {
      assert steps == [steps[0]] + steps[1..];
    }
  }

  lemma FirstIsCompatible(steps: seq<Step>)
    requires WellFormed(steps) && steps != []
    ensures StepOk(steps[0]) && WellFormed(steps[1..])
    ensures forall j | 0 <= j < |steps| - 1 :: Compatible(steps[0], steps[1..][j])
  {
    hide StepOk, Compatible;
    var rest := steps[1..];
    assert forall j | 0 <= j < |rest| :: rest[j] == steps[j + 1];
  }

  lemma RestLabelsUnique(steps: seq<Step>)
    requires LabelsUnique(steps) && steps != []
    ensures LabelsUnique(steps[1..])
    ensures forall j | 0 <= j < |steps| - 1 && steps[0].Put? && steps[1..][j].Put? :: steps[1..][j].ref != steps[0].ref
  {
    var rest := steps[1..];
    assert forall j | 0 <= j < |rest| :: rest[j] == steps[j + 1];
  }

  /** A step that succeeds: the state it leaves, and what it means on the collection. */
  lemma PutStep(step: Step, state: State)
    requires step.Put? && StepOk(step) && GoodServer(state.server)
    requires RunStep(step, state).error.None?
    ensures Resolvable(Obj(step.props), state.ids)
    ensures var value := ResolveProps(step.props, state.ids);
            var objects := CollectionOf(state.server, step.kind);
            var after := RunStep(step, state).state;
            && ValueReadable(step.keys, value)
            && GoodServer(after.server)
            && after.server.objects == state.server.objects[step.kind := Place(objects, step.keys, value)]
            && after.server.singletons == state.server.singletons
            && after.ids == state.ids[step.ref := PlacedId(objects, step.keys, value)]
            && Settled(CollectionOf(after.server, step.kind), step.keys, value)
            && PlacedId(CollectionOf(after.server, step.kind), step.keys, value) == after.ids[step.ref]
  {
    hide Resolvable, ResolveProps, KeysReadable, Plain, ValueReadable, UpsertValue, Place, PlacedId, PlacedVisible,
        Settled;
    var value := ResolveProps(step.props, state.ids);
    var objects := CollectionOf(state.server, step.kind);
    ReadableResolves(step.keys, step.props, state.ids);
    PlaceIsUpsert(step.kind, step.keys, step.ref, value, state);
    PlaceSettles(objects, step.keys, value);
    PlaceKeepsIds(objects, step.keys, value);
  }

  lemma WriteStep(step: Step, state: State)
    requires step.Write? && GoodServer(state.server)
    requires RunStep(step, state).error.None?
    ensures Resolvable(Obj(step.props), state.ids)
    ensures var after := RunStep(step, state).state;
            && GoodServer(after.server)
            && after.server.objects == state.server.objects
            && after.server.singletons ==
               Overlay(state.server.singletons, map[step.kind := ResolveProps(step.props, state.ids)])
            && after.ids == state.ids
            && after.updatedIds == state.updatedIds + [step.kind + "/singleton"]
            && after.unchangedIds == state.unchangedIds
  {
    hide Resolvable, ResolveProps;
    var value := ResolveProps(step.props, state.ids);
    var after := RunStep(step, state).state.server.singletons;
    var overlaid := Overlay(state.server.singletons, map[step.kind := value]);
    forall kind | kind in after ensures kind in overlaid && overlaid[kind] == after[kind] {
      if kind != step.kind {
        assert PropsOf(state.server.singletons, kind) + map[] == after[kind];
      }
    }
    assert after == overlaid;
  }

  /** Whether a singleton update goes through depends on the ids alone. */
  lemma WriteDependsOnIds(step: Step, first: State, second: State)
    requires step.Write? && first.ids == second.ids && RunStep(step, first).error.None?
    ensures RunStep(step, second).error.None?
  {
  }

  lemma StepKeepsGood(step: Step, state: State)
    requires StepOk(step) && GoodServer(state.server) && RunStep(step, state).error.None?
    ensures GoodServer(RunStep(step, state).state.server)
  {
    match step
    case Put(_, _, _, _) => PutStep(step, state);
    case Write(_, _) => WriteStep(step, state);
  }

  /** A value settled now is still settled, on the same object, once the rest of the plan ran. */
  lemma {:induction false} RestKeepsSettled(steps: seq<Step>, state: State, placed: Step, ids: Ids)
    requires GoodServer(state.server) && StepsOk(steps)
    requires RunSteps(steps, state).error.None?
    requires placed.Put? && StepOk(placed) && Resolvable(Obj(placed.props), ids)
    requires forall j | 0 <= j < |steps| :: Compatible(placed, steps[j])
    requires Settled(CollectionOf(state.server, placed.kind), placed.keys, ResolveProps(placed.props, ids))
    ensures var value := ResolveProps(placed.props, ids);
            var objects := CollectionOf(RunSteps(steps, state).state.server, placed.kind);
            && Settled(objects, placed.keys, value)
            && PlacedId(objects, placed.keys, value) ==
               PlacedId(CollectionOf(state.server, placed.kind), placed.keys, value)
    decreases |steps|
  {
    hide RunStep, Settled, Place, PlacedId, GoodServer, Resolvable, ResolveProps, Separate, StepOk;
    if steps != [] {
      var step := steps[0];
      var next := RunStep(step, state).state;
      FirstStepOk(steps);
      StepKeepsGood(step, state);
      assert Compatible(placed, step);
      if step.Put? {
        PutStep(step, state);
        if step.kind == placed.kind {
          SeparateKeepsSettled(CollectionOf(state.server, placed.kind), placed, ids, step, state.ids);
        }
      } else {
        WriteStep(step, state);
      }
      RestKeepsSettled(steps[1..], next, placed, ids);
    }
  }

  lemma SeparateKeepsSettled(objects: Collection, placed: Step, ids: Ids, step: Step, stepIds: Ids)
    requires placed.Put? && StepOk(placed) && Resolvable(Obj(placed.props), ids)
    requires step.Put? && StepOk(step) && Resolvable(Obj(step.props), stepIds)
    requires Separate(placed, step)
    requires Settled(objects, placed.keys, ResolveProps(placed.props, ids))
    ensures var value := ResolveProps(placed.props, ids);
            var after := Place(objects, step.keys, ResolveProps(step.props, stepIds));
            && Settled(after, placed.keys, value)
            && PlacedId(after, placed.keys, value) == PlacedId(objects, placed.keys, value)
  {
    hide Settled, Place, PlacedId, Resolvable, Resolve, Apart, Disturbs;
    if Apart(placed.props, step.props, placed.keys, step.keys) {
      ReadableResolves(step.keys, step.props, stepIds);
      ApartResolves(placed.props, step.props, placed.keys, step.keys, ids, stepIds);
      PlaceKeepsSettled(objects, placed.keys, ResolveProps(placed.props, ids),
                        step.keys, ResolveProps(step.props, stepIds));
    } else {
      ResolveWithoutRefs(Obj(placed.props), ids);
      ResolveWithoutRefs(Obj(step.props), stepIds);
      UndisturbedStaysSettled(objects, placed.keys, placed.props, step.keys, step.props);
    }
  }

  // --- singletons --------------------------------------------------------------------------

  function PropsOf(singletons: map<string, Props>, kind: string): Props {
    if kind in singletons then singletons[kind] else map[]
  }

  function Overlay(under: map<string, Props>, over: map<string, Props>): map<string, Props> {
    map kind | kind in under.Keys + over.Keys :: PropsOf(under, kind) + PropsOf(over, kind)
  }

  /** What a run writes to the singletons, later writes over earlier ones. */
  function Written(steps: seq<Step>, state: State): map<string, Props> {
    if steps == [] || RunStep(steps[0], state).error.Some? then map[]
    else
      var rest := Written(steps[1..], RunStep(steps[0], state).state);
      match steps[0]
      case Put(_, _, _, _) => rest
      case Write(kind, props) =>
        if Resolvable(Obj(props), state.ids) then Overlay(map[kind := ResolveProps(props, state.ids)], rest) else rest
  }

  lemma MergeAssociates(p: Props, q: Props, r: Props)
    ensures (p + q) + r == p + (q + r)
  {
  }

  lemma OverlayAt(a: map<string, Props>, b: map<string, Props>, kind: string)
    ensures PropsOf(Overlay(a, b), kind) == PropsOf(a, kind) + PropsOf(b, kind)
    ensures kind in Overlay(a, b) <==> kind in a || kind in b
  {
  }

  lemma SamePropsIsSame(a: map<string, Props>, b: map<string, Props>)
    requires forall kind :: (kind in a <==> kind in b) && PropsOf(a, kind) == PropsOf(b, kind)
    ensures a == b
  {
    forall kind | kind in a ensures a[kind] == b[kind] {
      assert PropsOf(a, kind) == PropsOf(b, kind);
    }
  }

  lemma OverlayAssociates(a: map<string, Props>, b: map<string, Props>, c: map<string, Props>)
    ensures Overlay(Overlay(a, b), c) == Overlay(a, Overlay(b, c))
  {
    hide Overlay, PropsOf;
    var ab, bc := Overlay(a, b), Overlay(b, c);
    forall kind ensures kind in Overlay(ab, c) <==> kind in Overlay(a, bc)
                ensures PropsOf(Overlay(ab, c), kind) == PropsOf(Overlay(a, bc), kind)
    {
      OverlayAt(a, b, kind);
      OverlayAt(ab, c, kind);
      OverlayAt(b, c, kind);
      OverlayAt(a, bc, kind);
      MergeAssociates(PropsOf(a, kind), PropsOf(b, kind), PropsOf(c, kind));
    }
    SamePropsIsSame(Overlay(ab, c), Overlay(a, bc));
  }

  lemma OverlayEmpty(a: map<string, Props>)
    ensures Overlay(a, map[]) == a
  {
    forall kind ensures kind in Overlay(a, map[]) <==> kind in a
                ensures PropsOf(Overlay(a, map[]), kind) == PropsOf(a, kind)
    {
      OverlayAt(a, map[], kind);
    }
    SamePropsIsSame(Overlay(a, map[]), a);
  }

  lemma OverlayTwice(a: map<string, Props>, b: map<string, Props>)
    ensures Overlay(Overlay(a, b), b) == Overlay(a, b)
  {
    hide Overlay, PropsOf;
    var ab := Overlay(a, b);
    forall kind ensures kind in Overlay(ab, b) <==> kind in ab
                ensures PropsOf(Overlay(ab, b), kind) == PropsOf(ab, kind)
    {
      OverlayAt(a, b, kind);
      OverlayAt(ab, b, kind);
      assert (PropsOf(a, kind) + PropsOf(b, kind)) + PropsOf(b, kind) == PropsOf(a, kind) + PropsOf(b, kind);
    }
    SamePropsIsSame(Overlay(ab, b), ab);
  }

  lemma {:induction false} RunWrites(steps: seq<Step>, state: State)
    requires GoodServer(state.server) && StepsOk(steps) && RunSteps(steps, state).error.None?
    ensures RunSteps(steps, state).state.server.singletons == Overlay(state.server.singletons, Written(steps, state))
    decreases |steps|
  {
    hide RunStep, Settled, Place, PlacedId, GoodServer, Resolvable, ResolveProps, StepOk, Overlay;
    if steps == [] {
      OverlayEmpty(state.server.singletons);
    } else {
      FirstStepOk(steps);
      var next := RunStep(steps[0], state).state;
      StepKeepsGood(steps[0], state);
      RunWrites(steps[1..], next);
      match steps[0] {
        case Put(_, _, _, _) => PutStep(steps[0], state);
        case Write(kind, props) =>
          WriteStep(steps[0], state);
          OverlayAssociates(state.server.singletons, map[kind := ResolveProps(props, state.ids)],
                            Written(steps[1..], next));
      }
    }
  }

  // --- the second run ------------------------------------------------------------------------

  /** A read gives back what the step sends. */
  predicate EchoedUnder(step: Step, ids: Ids)
    requires step.Put?
  {
    Resolvable(Obj(step.props), ids) && Echoed(ResolveProps(step.props, ids), step.keys)
  }

  /** What the step adds to the list of updated, and of unchanged, objects when it runs again. */
  function ReportedUpdated(step: Step, ids: Ids): seq<string>
    requires step.Put? ==> step.ref in ids
  {
    match step
    case Put(_, keys, ref, props) => if EchoedUnder(step, ids) then [] else [ids[ref]]
    case Write(kind, _) => [kind + "/singleton"]
  }

  function ReportedUnchanged(step: Step, ids: Ids): seq<string>
    requires step.Put? ==> step.ref in ids
  {
    if step.Put? && EchoedUnder(step, ids) then [ids[step.ref]] else []
  }

  /** What the second run must report: an upserted object only when one of its visible properties
      holds a secret inside it, and every singleton. */
  function UpdatedAgain(steps: seq<Step>, ids: Ids): seq<string>
    requires forall i | 0 <= i < |steps| && steps[i].Put? :: steps[i].ref in ids
  {
    if steps == [] then [] else ReportedUpdated(steps[0], ids) + UpdatedAgain(steps[1..], ids)
  }

  function UnchangedAgain(steps: seq<Step>, ids: Ids): seq<string>
    requires forall i | 0 <= i < |steps| && steps[i].Put? :: steps[i].ref in ids
  {
    if steps == [] then [] else ReportedUnchanged(steps[0], ids) + UnchangedAgain(steps[1..], ids)
  }

  lemma {:induction false} RunBindsIds(steps: seq<Step>, state: State)
    requires GoodServer(state.server) && StepsOk(steps) && RunSteps(steps, state).error.None?
    ensures var ids := RunSteps(steps, state).state.ids;
            && (forall i | 0 <= i < |steps| && steps[i].Put? :: steps[i].ref in ids)
            && (forall ref | ref in state.ids :: ref in ids)
            && (forall ref | ref in state.ids && (forall i | 0 <= i < |steps| && steps[i].Put? :: steps[i].ref != ref)
                  :: ids[ref] == state.ids[ref])
    decreases |steps|
  {
    hide RunStep, Settled, Place, PlacedId, GoodServer, Resolvable, ResolveProps, StepOk;
    if steps != [] {
      FirstStepOk(steps);
      StepKeepsGood(steps[0], state);
      var next := RunStep(steps[0], state).state;
      match steps[0] {
        case Put(_, _, _, _) => PutStep(steps[0], state);
        case Write(_, _) => WriteStep(steps[0], state);
      }
      RunBindsIds(steps[1..], next);
      forall i | 0 <= i < |steps| && steps[i].Put? ensures steps[i].ref in RunSteps(steps, state).state.ids {
        if i > 0 {
          assert steps[i] == steps[1..][i - 1];
        }
      }
    }
  }

  lemma SettledUpsert(kind: string, keys: seq<string>, ref: string, value: Props, state: State)
    requires GoodServer(state.server) && Settled(CollectionOf(state.server, kind), keys, value)
    ensures var objects := CollectionOf(state.server, kind);
            var outcome := UpsertValue(kind, keys, Read(objects), ref, value, state).1;
            var id := PlacedId(objects, keys, value);
            && outcome.error.None?
            && outcome.state.server == state.server
            && outcome.state.ids == state.ids[ref := id]
            && outcome.state.updatedIds == state.updatedIds + (if Echoed(value, keys) then [] else [id])
            && outcome.state.unchangedIds == state.unchangedIds + (if Echoed(value, keys) then [id] else [])
  {
    hide UpsertValue, Settled, Place, PlacedId, PlacedVisible, IsCreated, Echoed, GoodServer;
    var objects := CollectionOf(state.server, kind);
    SettledPlace(objects, keys, value);
    PlaceIsUpsert(kind, keys, ref, value, state);
    assert state.server.objects[kind := objects] == state.server.objects;
  }

  lemma EchoedExtends(step: Step, ids: Ids, more: Ids)
    requires step.Put? && Resolvable(Obj(step.props), ids) && Extends(more, ids)
    ensures EchoedUnder(step, more) <==> EchoedUnder(step, ids)
  {
    ResolveExtends(Obj(step.props), ids, more);
  }

  /** None of the labels is bound yet. */
  predicate NewLabels(steps: seq<Step>, ids: Ids) {
    forall i | 0 <= i < |steps| && steps[i].Put? :: steps[i].ref !in ids
  }

  /** A label bound now is bound to the same id when the rest of the plan ran. */
  lemma RestExtends(rest: seq<Step>, state: State)
    requires GoodServer(state.server) && StepsOk(rest) && RunSteps(rest, state).error.None?
    requires NewLabels(rest, state.ids)
    ensures Extends(RunSteps(rest, state).state.ids, state.ids)
  {
    hide RunSteps, GoodServer, StepOk;
    RunBindsIds(rest, state);
  }

  lemma NewLabelsAfter(steps: seq<Step>, state: State)
    requires steps != [] && WellFormed(steps) && GoodServer(state.server) && RunStep(steps[0], state).error.None?
    requires NewLabels(steps, state.ids)
    ensures var next := RunStep(steps[0], state).state;
            NewLabels(steps[1..], next.ids) && Extends(next.ids, state.ids)
  {
    hide RunStep, Place, PlacedId, Settled, Resolvable, ResolveProps, Separate, GoodServer, StepOk;
    var step, rest := steps[0], steps[1..];
    FirstIsCompatible(steps);
    assert forall j | 0 <= j < |rest| :: rest[j] == steps[j + 1];
    match step {
      case Put(_, _, _, _) => PutStep(step, state);
      case Write(_, _) => WriteStep(step, state);
    }
    forall j | 0 <= j < |rest| && rest[j].Put? ensures rest[j].ref !in RunStep(step, state).state.ids {
      assert Compatible(step, rest[j]);
    }
  }

  /** A put the first run made, run again on the objects the first run ended with. */
  lemma PutAgain(step: Step, rest: seq<Step>, first: State, second: State)
    requires step.Put? && StepOk(step) && WellFormed(rest)
    requires forall j | 0 <= j < |rest| :: Compatible(step, rest[j])
    requires GoodServer(first.server) && RunStep(step, first).error.None?
    requires RunSteps(rest, RunStep(step, first).state).error.None?
    requires second.server.objects == RunSteps(rest, RunStep(step, first).state).state.server.objects
    requires second.ids == first.ids && GoodServer(second.server)
    ensures RunStep(step, second).error.None?
    ensures var again := RunStep(step, second).state;
            && again.server == second.server
            && again.ids == RunStep(step, first).state.ids
            && step.ref in again.ids
            && again.updatedIds ==
               second.updatedIds + (if EchoedUnder(step, first.ids) then [] else [again.ids[step.ref]])
            && again.unchangedIds ==
               second.unchangedIds + (if EchoedUnder(step, first.ids) then [again.ids[step.ref]] else [])
  {
    hide Settled, Place, PlacedId, GoodServer, Resolvable, ResolveProps, Separate, StepOk, Echoed, UpsertValue,
      RunSteps, Compatible;
    PutStep(step, first);
    RestKeepsSettled(rest, RunStep(step, first).state, step, first.ids);
    SettledUpsert(step.kind, step.keys, step.ref, ResolveProps(step.props, first.ids), second);
  }

  lemma StepAgain(step: Step, rest: seq<Step>, first: State, second: State)
    requires StepOk(step) && WellFormed(rest)
    requires forall j | 0 <= j < |rest| :: Compatible(step, rest[j])
    requires GoodServer(first.server) && RunStep(step, first).error.None?
    requires RunSteps(rest, RunStep(step, first).state).error.None?
    requires second.server.objects == RunSteps(rest, RunStep(step, first).state).state.server.objects
    requires second.ids == first.ids && GoodServer(second.server)
    requires Extends(RunStep(step, first).state.ids, first.ids)
    ensures RunStep(step, second).error.None?
    ensures step.Put? ==> step.ref in RunStep(step, first).state.ids && Resolvable(Obj(step.props), first.ids)
    ensures var again := RunStep(step, second).state;
            var ids := RunStep(step, first).state.ids;
            && again.server.objects == second.server.objects
            && GoodServer(again.server)
            && again.ids == ids
            && again.updatedIds == second.updatedIds + ReportedUpdated(step, ids)
            && again.unchangedIds == second.unchangedIds + ReportedUnchanged(step, ids)
  {
    hide RunStep, RunSteps, WellFormed, GoodServer, EchoedUnder, Compatible, Extends;
    match step
    case Put(_, _, _, _) =>
      PutStep(step, first);
      PutAgain(step, rest, first, second);
      EchoedExtends(step, first.ids, RunStep(step, first).state.ids);
    case Write(_, _) =>
      WriteStep(step, first);
      WriteDependsOnIds(step, first, second);
      WriteStep(step, second);
  }

  lemma ReportExtends(step: Step, ids: Ids, more: Ids)
    requires step.Put? ==> step.ref in ids && Resolvable(Obj(step.props), ids)
    requires Extends(more, ids)
    ensures step.Put? ==> step.ref in more
    ensures ReportedUpdated(step, more) == ReportedUpdated(step, ids)
    ensures ReportedUnchanged(step, more) == ReportedUnchanged(step, ids)
  {
    if step.Put? {
      EchoedExtends(step, ids, more);
    }
  }

  /** The second run, step by step beside the first: `second` starts on the objects the first run
      ended with. */
  lemma {:induction false} RunAgain(steps: seq<Step>, first: State, second: State)
    requires GoodServer(first.server) && WellFormed(steps) && NewLabels(steps, first.ids)
    requires RunSteps(steps, first).error.None?
    requires second.server.objects == RunSteps(steps, first).state.server.objects
    requires second.ids == first.ids && GoodServer(second.server)
    ensures forall i | 0 <= i < |steps| && steps[i].Put? :: steps[i].ref in RunSteps(steps, first).state.ids
    ensures var ids := RunSteps(steps, first).state.ids;
            var again := RunSteps(steps, second);
            && again.error.None?
            && again.state.server.objects == second.server.objects
            && again.state.ids == ids
            && again.state.updatedIds == second.updatedIds + UpdatedAgain(steps, ids)
            && again.state.unchangedIds == second.unchangedIds + UnchangedAgain(steps, ids)
    decreases |steps|
  {
    hide RunStep, GoodServer, StepOk, Compatible, Extends, NewLabels, ReportedUpdated, ReportedUnchanged, Resolvable;
    RunBindsIds(steps, first);
    if steps != [] {
      var step, rest := steps[0], steps[1..];
      var next := RunStep(step, first).state;
      FirstIsCompatible(steps);
      StepKeepsGood(step, first);
      NewLabelsAfter(steps, first);
      StepAgain(step, rest, first, second);
      RunAgain(rest, next, RunStep(step, second).state);
      RestExtends(rest, next);
      BoundStepResolves(step, first, next.ids);
      ReportExtends(step, next.ids, RunSteps(rest, next).state.ids);
    }
  }

  lemma BoundStepResolves(step: Step, state: State, more: Ids)
    requires StepOk(step) && GoodServer(state.server) && RunStep(step, state).error.None? && Extends(more, state.ids)
    ensures Resolvable(Obj(step.props), more)
  {
    match step {
      case Put(_, _, _, _) => PutStep(step, state);
      case Write(_, _) => WriteStep(step, state);
    }
    ResolveExtends(Obj(step.props), state.ids, more);
  }

  lemma {:induction false} WritesAgain(steps: seq<Step>, first: State, second: State)
    requires GoodServer(first.server) && WellFormed(steps) && NewLabels(steps, first.ids)
    requires RunSteps(steps, first).error.None?
    requires second.server.objects == RunSteps(steps, first).state.server.objects
    requires second.ids == first.ids && GoodServer(second.server)
    ensures Written(steps, second) == Written(steps, first)
    decreases |steps|
  {
    hide RunStep, GoodServer, StepOk, Overlay, Compatible, Extends, NewLabels, ReportedUpdated, ReportedUnchanged;
    if steps != [] {
      var step, rest := steps[0], steps[1..];
      FirstIsCompatible(steps);
      StepKeepsGood(step, first);
      NewLabelsAfter(steps, first);
      StepAgain(step, rest, first, second);
      WritesAgain(rest, RunStep(step, first).state, RunStep(step, second).state);
    }
  }
}
