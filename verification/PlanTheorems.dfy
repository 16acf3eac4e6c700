/** The main results on plans: applying twice is applying once, the drift check agrees with the
    applier, and objects outside the plan keep what they hold. */
module PlanTheorems {
  import opened Wrappers
  import opened Json
  import opened PlanApplier
  import opened Convergence
  import opened PlanRuns

  // --- one read per operation is enough ------------------------------------------------------

  predicate CannotMatch(held: Props, keys: seq<string>, props: Props) {
    exists k :: k in keys && NoRefs(Get(props, k)) && Get(props, k) != Get(held, k)
  }

  /** No later value of the operation can match an object with these properties. */
  predicate Done(held: Props, keys: seq<string>, entries: seq<Entry>) {
    forall j | 0 <= j < |entries| :: CannotMatch(held, keys, entries[j].props)
  }

  /** How the applier's own list stands to the server while it works through one operation. */
  predicate Tracks(existing: Collection, objects: Collection, keys: seq<string>, entries: seq<Entry>) {
    |existing| == |objects| &&
    forall i | 0 <= i < |existing| ::
      && existing[i].id == objects[i].id
      && (forall k | k in keys :: Get(existing[i].props, k) == Get(StripProps(objects[i].props), k))
      && (existing[i].props == StripProps(objects[i].props) || Done(existing[i].props, keys, entries))
  }

  lemma SameMatches(a: Collection, b: Collection, keys: seq<string>, value: Props)
    requires |a| == |b|
    requires forall i | 0 <= i < |a| :: Matches(a[i].props, keys, value) <==> Matches(b[i].props, keys, value)
    ensures FirstMatch(a, keys, value) == FirstMatch(b, keys, value)
  {
    var i := FirstMatch(a, keys, value);
    if i < |a| {
      FirstMatchIs(b, keys, value, i);
    }
  }

  lemma DoneOfMatched(held: Props, keys: seq<string>, entry: Entry, rest: seq<Entry>, ids: Ids)
    requires TopPlain(entry.props) && Resolvable(Obj(entry.props), ids)
    requires Matches(held, keys, ResolveProps(entry.props, ids))
    requires forall j | 0 <= j < |rest| :: Apart(entry.props, rest[j].props, keys, keys)
    ensures Done(held, keys, rest)
  {
    forall j | 0 <= j < |rest| ensures CannotMatch(held, keys, rest[j].props) {
      assert Apart(entry.props, rest[j].props, keys, keys);
      var k :| k in keys && NoRefs(Get(entry.props, k)) && NoRefs(Get(rest[j].props, k))
               && Get(entry.props, k) != Get(rest[j].props, k);
      ResolvedKey(entry.props, ids, k);
    }
  }

  lemma MatchedIsNotDone(held: Props, keys: seq<string>, entry: Entry, rest: seq<Entry>, ids: Ids)
    requires TopPlain(entry.props) && Resolvable(Obj(entry.props), ids)
    requires Matches(held, keys, ResolveProps(entry.props, ids))
    ensures !Done(held, keys, [entry] + rest)
  {
    if Done(held, keys, [entry] + rest) {
      assert CannotMatch(held, keys, ([entry] + rest)[0].props);
      var k :| k in keys && NoRefs(Get(entry.props, k)) && Get(entry.props, k) != Get(held, k);
      ResolvedKey(entry.props, ids, k);
      assert false;
    }
  }

  lemma TracksFewer(existing: Collection, objects: Collection, keys: seq<string>, entry: Entry, rest: seq<Entry>)
    requires Tracks(existing, objects, keys, [entry] + rest)
    ensures Tracks(existing, objects, keys, rest)
  {
    forall i | 0 <= i < |existing| && Done(existing[i].props, keys, [entry] + rest)
      ensures Done(existing[i].props, keys, rest)
    {
      forall j | 0 <= j < |rest| ensures CannotMatch(existing[i].props, keys, rest[j].props) {
        assert rest[j] == ([entry] + rest)[j + 1];
      }
    }
  }

  lemma TracksPatched(existing: Collection, objects: Collection, keys: seq<string>, rest: seq<Entry>, i: nat,
      value: Props)
    requires Tracks(existing, objects, keys, rest) && i < |existing|
    requires ValueReadable(keys, value)
    requires forall held: Props | Matches(held, keys, value) :: Done(held, keys, rest)
    requires Matches(existing[i].props, keys, value)
    ensures var patch := PatchOf(value, keys, StripProps(objects[i].props));
            Tracks(existing[i := Object(existing[i].id, existing[i].props + patch)],
                   objects[i := Object(objects[i].id, objects[i].props + patch)], keys, rest)
  {
    var patch := PatchOf(value, keys, StripProps(objects[i].props));
    PatchKeepsKeys(objects[i].props, keys, value);
    forall k | k in keys ensures Get(existing[i].props + patch, k) == Get(existing[i].props, k) {
      if k in value {
        assert Get(value, k) == value[k];
      }
      assert k !in patch;
    }
    assert Matches(existing[i].props + patch, keys, value);
  }

  lemma TracksCreated(existing: Collection, objects: Collection, keys: seq<string>, rest: seq<Entry>, id: string,
      value: Props)
    requires Tracks(existing, objects, keys, rest)
    requires ValueReadable(keys, value)
    requires Done(value, keys, rest)
    ensures Tracks(existing + [Object(id, value)], objects + [Object(id, value)], keys, rest)
  {
    ReadShowsKeys(keys, value);
  }

  lemma TracksMatches(existing: Collection, objects: Collection, keys: seq<string>, entries: seq<Entry>, value: Props)
    requires Tracks(existing, objects, keys, entries)
    ensures FirstMatch(existing, keys, value) == FirstMatch(Read(objects), keys, value)
  {
    SameMatches(existing, Read(objects), keys, value);
  }

  /** Against the list, a value has the effect it has against a fresh read, and the list keeps track. */
  lemma ListIsAsGood(kind: string, keys: seq<string>, existing: Collection, entry: Entry, rest: seq<Entry>,
      state: State)
    requires GoodServer(state.server) && StepOk(Put(kind, keys, entry.ref, entry.props))
    requires Resolvable(Obj(entry.props), state.ids)
    requires forall j | 0 <= j < |rest| :: Apart(entry.props, rest[j].props, keys, keys)
    requires Tracks(existing, CollectionOf(state.server, kind), keys, [entry] + rest)
    ensures var value := ResolveProps(entry.props, state.ids);
            var (after, outcome) := UpsertValue(kind, keys, existing, entry.ref, value, state);
            && outcome == UpsertValue(kind, keys, Read(CollectionOf(state.server, kind)), entry.ref, value, state).1
            && outcome.error.None?
            && Tracks(after, CollectionOf(outcome.state.server, kind), keys, rest)
  {
    hide Done, Apart, GoodServer, Resolvable, ResolveProps, Plain, TopPlain, PlainKeys, PatchOf, Visible, Matches;
    var value := ResolveProps(entry.props, state.ids);
    var objects := CollectionOf(state.server, kind);
    assert TopPlain(entry.props) && KeysReadable(keys, entry.props) && PlainKeys(keys, entry.props);
    ReadableResolves(keys, entry.props, state.ids);
    TracksMatches(existing, objects, keys, [entry] + rest, value);
    PlaceIsUpsert(kind, keys, entry.ref, value, state);
    TracksFewer(existing, objects, keys, entry, rest);
    forall held: Props | Matches(held, keys, value) ensures Done(held, keys, rest) {
      DoneOfMatched(held, keys, entry, rest, state.ids);
    }
    var i := FirstMatch(existing, keys, value);
    if i == |existing| {
      MatchesItself(keys, value);
      TracksCreated(existing, objects, keys, rest, FreshId(objects), value);
    } else {
      MatchedIsNotDone(existing[i].props, keys, entry, rest, state.ids);
      TracksPatched(existing, objects, keys, rest, i, value);
    }
  }

  lemma MatchesItself(keys: seq<string>, value: Props)
    ensures Matches(value, keys, value)
  {
  }

  lemma {:induction false} SnapshotIsEnough(kind: string, keys: seq<string>, existing: Collection, entries: seq<Entry>,
                                            state: State)
    requires GoodServer(state.server) && StepsOk(EntrySteps(kind, keys, entries)) && EntriesApart(keys, entries)
    requires Tracks(existing, CollectionOf(state.server, kind), keys, entries)
    ensures UpsertEntries(kind, keys, existing, entries, state) == RunSteps(EntrySteps(kind, keys, entries), state)
    decreases |entries|
  {
    hide Tracks, StepOk, Apart, UpsertValue, GoodServer, Resolvable, ResolveProps;
    if entries != [] {
      var steps := EntrySteps(kind, keys, entries);
      var entry, rest := entries[0], entries[1..];
      assert steps[1..] == EntrySteps(kind, keys, rest);
      assert entries == [entry] + rest;
      FirstStepOk(steps);
      assert forall j | 0 <= j < |rest| :: rest[j] == entries[j + 1];
      assert EntriesApart(keys, rest);
      if Resolvable(Obj(entry.props), state.ids) {
        ListIsAsGood(kind, keys, existing, entry, rest, state);
        StepKeepsGood(steps[0], state);
        var (after, outcome) := UpsertEntry(kind, keys, existing, entry, state);
        SnapshotIsEnough(kind, keys, after, rest, outcome.state);
      }
    }
  }

  lemma EntryStepAt(kind: string, keys: seq<string>, entries: seq<Entry>, j: nat)
    requires j < |entries|
    ensures |EntrySteps(kind, keys, entries)| == |entries|
    ensures EntrySteps(kind, keys, entries)[j] == Put(kind, keys, entries[j].ref, entries[j].props)
  {
    if j == 0 {
      if |entries| > 1 {
        EntryStepAt(kind, keys, entries[1..], 0);
      }
    } else {
      EntryStepAt(kind, keys, entries[1..], j - 1);
    }
  }

  /** The applier, which reads each collection once per operation, does exactly what it would do
      reading the server before every single value. */
  lemma {:induction false} ApplyIsRunSteps(plan: Plan, state: State)
    requires PlanReadable(plan) && GoodServer(state.server)
    ensures ApplyOperations(plan, state) == RunSteps(Steps(plan), state)
    decreases |plan|
  {
    hide Tracks, StepOk, GoodServer, UpsertEntries, UpdateOperation, EntriesApart;
    if plan != [] {
      var op, rest := plan[0], plan[1..];
      StepsOkParts(OperationSteps(op), Steps(rest));
      RunStepsAppend(OperationSteps(op), Steps(rest), state);
      OperationIsRunSteps(op, state);
      if ApplyOperation(op, state).error.None? {
        RunKeepsGood(OperationSteps(op), state);
        ApplyIsRunSteps(rest, ApplyOperation(op, state).state);
      }
    }
  }

  lemma OperationIsRunSteps(op: Operation, state: State)
    requires op.Upsert? || (op.UpdateOne? && op.id == "")
    requires StepsOk(OperationSteps(op)) && GoodServer(state.server)
    requires op.Upsert? ==> EntriesApart(MatchKeys(op.matchOn), op.entries)
    ensures ApplyOperation(op, state) == RunSteps(OperationSteps(op), state)
  {
    match op
    case Upsert(kind, _, matchOn, entries) =>
      SnapshotIsEnough(kind, MatchKeys(matchOn), Read(CollectionOf(state.server, kind)), entries, state);
    case UpdateOne(kind, id, props) =>
      var steps := OperationSteps(op);
      assert steps[1..] == [];
      assert op == UpdateOne(kind, "", props);
  }

  lemma {:induction false} RunKeepsGood(steps: seq<Step>, state: State)
    requires GoodServer(state.server) && StepsOk(steps) && RunSteps(steps, state).error.None?
    ensures GoodServer(RunSteps(steps, state).state.server)
    decreases |steps|
  {
    hide GoodServer, StepOk, RunStep;
    if steps != [] {
      FirstStepOk(steps);
      StepKeepsGood(steps[0], state);
      RunKeepsGood(steps[1..], RunStep(steps[0], state).state);
    }
  }

  // --- applying twice -------------------------------------------------------------------------

  /** Re-applying a plan is a no-op on the server, binds every label to the same id, and reports as
      updated the singletons and exactly those upserted objects a read does not echo. */
  lemma ApplyTwice(plan: Plan, server: Server)
    requires PlanOk(plan) && GoodServer(server)
    requires ApplyPlan(plan, server).error.None?
    ensures var once := ApplyPlan(plan, server).state;
            var twice := ApplyPlan(plan, once.server);
            && (forall i | 0 <= i < |Steps(plan)| && Steps(plan)[i].Put? :: Steps(plan)[i].ref in once.ids)
            && twice.error.None?
            && twice.state.server == once.server
            && twice.state.ids == once.ids
            && twice.state.updatedIds == UpdatedAgain(Steps(plan), once.ids)
            && twice.state.unchangedIds == UnchangedAgain(Steps(plan), once.ids)
  {
    hide RunSteps, ApplyOperations, StepOk, Compatible, GoodServer, Overlay, UpdatedAgain, UnchangedAgain, Written;
    var steps := Steps(plan);
    var first := Fresh(server);
    ApplyIsRunSteps(plan, first);
    var once := RunSteps(steps, first).state;
    RunKeepsGood(steps, first);
    var second := Fresh(once.server);
    ApplyIsRunSteps(plan, second);
    RunAgain(steps, first, second);
    RunWrites(steps, first);
    RunWrites(steps, second);
    WritesAgain(steps, first, second);
    OverlayTwice(server.singletons, Written(steps, first));
  }

  // --- what a plan leaves alone ---------------------------------------------------------------

  predicate NamesObject(steps: seq<Step>, ids: Ids, kind: string, id: string) {
    exists i :: 0 <= i < |steps| && steps[i].Put? && steps[i].kind == kind && steps[i].ref in ids
        && ids[steps[i].ref] == id
  }

  /** No object is lost or moved, an object no label is bound to is left as it was, and none loses
      or changes its credentials. */
  predicate LeavesAlone(before: Collection, after: Collection, steps: seq<Step>, ids: Ids, kind: string) {
    |before| <= |after| &&
    forall i | 0 <= i < |before| ::
      && after[i].id == before[i].id
      && Get(after[i].props, "credentials") == Get(before[i].props, "credentials")
      && (after[i] == before[i] || NamesObject(steps, ids, kind, before[i].id))
  }

  lemma PlaceLeavesAlone(objects: Collection, keys: seq<string>, value: Props)
    ensures var after := Place(objects, keys, value);
            |objects| <= |after| &&
            forall i | 0 <= i < |objects| ::
              && after[i].id == objects[i].id
              && Get(after[i].props, "credentials") == Get(objects[i].props, "credentials")
              && (after[i] == objects[i] || PlacedId(objects, keys, value) == objects[i].id)
  {
  }

  lemma {:induction false} RunLeavesAlone(steps: seq<Step>, state: State, kind: string)
    requires GoodServer(state.server) && StepsOk(steps) && LabelsUnique(steps) && RunSteps(steps, state).error.None?
    ensures var end := RunSteps(steps, state).state;
            LeavesAlone(CollectionOf(state.server, kind), CollectionOf(end.server, kind), steps, end.ids, kind)
    decreases |steps|
  {
    hide RunStep, GoodServer, StepOk, LeavesAlone;
    if steps == [] {
      LeavesAloneNothing(CollectionOf(state.server, kind), state.ids, kind);
    } else {
      var step, rest := steps[0], steps[1..];
      var next := RunStep(step, state).state;
      FirstStepOk(steps);
      RestLabelsUnique(steps);
      StepKeepsGood(step, state);
      RunLeavesAlone(rest, next, kind);
      assert steps == [step] + rest;
      StepLeavesAlone(step, rest, state, kind);
      LeavesAloneComposes(CollectionOf(state.server, kind), CollectionOf(next.server, kind),
                          CollectionOf(RunSteps(steps, state).state.server, kind), step, rest,
                          RunSteps(steps, state).state.ids, kind);
    }
  }

  lemma LeavesAloneNothing(objects: Collection, ids: Ids, kind: string)
    ensures LeavesAlone(objects, objects, [], ids, kind)
  {
  }

  lemma StepLeavesAlone(step: Step, rest: seq<Step>, state: State, kind: string)
    requires GoodServer(state.server) && StepsOk([step] + rest) && LabelsUnique([step] + rest)
    requires RunSteps([step] + rest, state).error.None?
    ensures LeavesAlone(CollectionOf(state.server, kind), CollectionOf(RunStep(step, state).state.server, kind), [step],
                        RunSteps([step] + rest, state).state.ids, kind)
  {
    hide RunStep, GoodServer, StepOk, Place, PlacedId, Settled, ValueReadable, Echoed;
    var steps := [step] + rest;
    assert steps[1..] == rest;
    var next := RunStep(step, state).state;
    FirstStepOk(steps);
    RestLabelsUnique(steps);
    StepKeepsGood(step, state);
    match step
    case Put(_, keys, ref, props) =>
      PutStep(step, state);
      PlaceLeavesAlone(CollectionOf(state.server, step.kind), keys, ResolveProps(props, state.ids));
      RunBindsIds(rest, next);
      assert forall i | 0 <= i < |rest| && rest[i].Put? :: rest[i].ref != ref;
      assert [step][0].Put?;
    case Write(_, _) => WriteStep(step, state);
  }

  lemma LeavesAloneComposes(before: Collection, middle: Collection, after: Collection, step: Step, rest: seq<Step>,
                            ids: Ids, kind: string)
    requires LeavesAlone(before, middle, [step], ids, kind) && LeavesAlone(middle, after, rest, ids, kind)
    ensures LeavesAlone(before, after, [step] + rest, ids, kind)
  {
    var steps := [step] + rest;
    forall i | 0 <= i < |before| ensures after[i] == before[i] || NamesObject(steps, ids, kind, before[i].id) {
      if NamesObject([step], ids, kind, before[i].id) {
        assert steps[0] == [step][0];
      } else if NamesObject(rest, ids, kind, middle[i].id) {
        var j :| 0 <= j < |rest| && rest[j].Put? && rest[j].kind == kind && rest[j].ref in ids
                 && ids[rest[j].ref] == middle[i].id;
        assert steps[j + 1] == rest[j];
      }
    }
  }

  /** Applying a plan touches the objects its labels are bound to and no other, deletes none, and
      never overwrites the credentials an account already has. */
  lemma ApplyLeavesAlone(plan: Plan, server: Server, kind: string)
    requires PlanReadable(plan) && LabelsUnique(Steps(plan)) && GoodServer(server)
    requires ApplyPlan(plan, server).error.None?
    ensures var once := ApplyPlan(plan, server).state;
            LeavesAlone(CollectionOf(server, kind), CollectionOf(once.server, kind), Steps(plan), once.ids, kind)
  {
    hide RunSteps, ApplyOperations, StepsOk, GoodServer, LeavesAlone, OperationsApart;
    ApplyIsRunSteps(plan, Fresh(server));
    RunLeavesAlone(Steps(plan), Fresh(server), kind);
  }
}
