/** What an apply leaves on the server, property by property: which object a value goes to, what it sends
    there, and what is still there when the plan is through. */
module Delivery {
  import opened Wrappers
  import opened Json
  import opened Paths
  import opened PlanApplier
  import opened Convergence
  import opened PlanRuns
  import opened PlanTheorems

  /** A missing property reads as None. */
  function Look(props: Props, key: string): Json {
    if key in props then props[key] else Null
  }

  // --- one value -------------------------------------------------------------------------------

  predicate MatchesOn(shown: Props, keys: seq<string>, value: Props) {
    forall k | k in keys :: Look(shown, k) == Look(value, k)
  }

  /** The first object a read shows with the value's match properties. */
  predicate IsFirstMatch(objects: Collection, keys: seq<string>, value: Props, i: nat) {
    && i < |objects| && MatchesOn(StripProps(objects[i].props), keys, value)
    && forall j | 0 <= j < i :: !MatchesOn(StripProps(objects[j].props), keys, value)
  }

  predicate IsUnmatched(objects: Collection, keys: seq<string>, value: Props) {
    forall j | 0 <= j < |objects| :: !MatchesOn(StripProps(objects[j].props), keys, value)
  }

  /** A property that is neither a secret nor matched on, and that a read shows differently. */
  predicate LooksChanged(shown: Props, keys: seq<string>, value: Props, k: string) {
    k in value && k != "credentials" && !HidesSecret(k, value[k]) && k !in keys && Look(shown, k) != value[k]
  }

  /** A secret is always sent, any other property where it looks changed, credentials never. */
  predicate IsSent(shown: Props, keys: seq<string>, value: Props, k: string) {
    || LooksChanged(shown, keys, value, k)
    || (k in value && k != "credentials" && HidesSecret(k, value[k]))
  }

  /** The object after: what is sent, and all else as it was. */
  ghost predicate IsWritten(held: Props, keys: seq<string>, value: Props, after: Props) {
    forall k ::
      if IsSent(StripProps(held), keys, value, k) then k in after && after[k] == value[k]
      else (k in after <==> k in held) && (k in held ==> after[k] == held[k])
  }

  /** What one value does to its collection, and the id its label is bound to. */
  ghost predicate Puts(objects: Collection, keys: seq<string>, value: Props, after: Collection, id: string) {
    && (IsUnmatched(objects, keys, value) ==>
          && after == objects + [Object(id, value)] && id != ""
          && forall j | 0 <= j < |objects| :: objects[j].id != id)
    && (forall i: nat | IsFirstMatch(objects, keys, value, i) ::
          && |after| == |objects| && id == objects[i].id == after[i].id
          && IsWritten(objects[i].props, keys, value, after[i].props)
          && forall j | 0 <= j < |objects| && j != i :: after[j] == objects[j])
  }

  lemma MatchIs(objects: Collection, keys: seq<string>, value: Props)
    ensures var i := FirstMatch(Read(objects), keys, value);
            if i == |objects| then IsUnmatched(objects, keys, value) else IsFirstMatch(objects, keys, value, i)
  {
    forall j | 0 <= j < |objects|
      ensures Matches(Read(objects)[j].props, keys, value) <==> MatchesOn(StripProps(objects[j].props), keys, value)
    {
      assert forall k | k in keys :: Get(StripProps(objects[j].props), k) == Look(StripProps(objects[j].props), k)
                                     && Get(value, k) == Look(value, k);
    }
  }

  lemma OnlyOneFirst(objects: Collection, keys: seq<string>, value: Props, i: nat, j: nat)
    requires IsFirstMatch(objects, keys, value, i) && IsFirstMatch(objects, keys, value, j)
    ensures i == j
  {
  }

  lemma PatchIsSent(held: Props, keys: seq<string>, value: Props)
    ensures IsWritten(held, keys, value, held + PatchOf(value, keys, StripProps(held)))
    ensures forall k :: k in Visible(value, keys, StripProps(held)) <==> LooksChanged(StripProps(held), keys, value, k)
  {
    hide StripProps, IsWriteOnly, HidesSecret;
    var shown := StripProps(held);
    forall k ensures k in Visible(value, keys, shown) <==> LooksChanged(shown, keys, value, k)
             ensures k in PatchOf(value, keys, shown) <==> IsSent(shown, keys, value, k)
             ensures k in PatchOf(value, keys, shown) ==> PatchOf(value, keys, shown)[k] == value[k]
    {
      if k in value {
        WriteOnlyHides(k, value[k]);
      }
    }
  }

  lemma PlacePuts(objects: Collection, keys: seq<string>, value: Props)
    ensures Puts(objects, keys, value, Place(objects, keys, value), PlacedId(objects, keys, value))
  {
    hide IsWritten, PatchOf, IsUnmatched;
    MatchIs(objects, keys, value);
    var i := FirstMatch(Read(objects), keys, value);
    if i < |objects| {
      PatchIsSent(objects[i].props, keys, value);
      forall j | IsFirstMatch(objects, keys, value, j) ensures j == i {
        OnlyOneFirst(objects, keys, value, i, j);
      }
      assert !IsUnmatched(objects, keys, value) by { MatchedIsMatched(objects, keys, value, i); }
    } else {
      FreshIsNew(objects);
      forall j | IsFirstMatch(objects, keys, value, j) ensures false {
        MatchedIsMatched(objects, keys, value, j);
      }
    }
  }

  lemma MatchedIsMatched(objects: Collection, keys: seq<string>, value: Props, i: nat)
    requires IsFirstMatch(objects, keys, value, i)
    ensures !IsUnmatched(objects, keys, value)
  {
  }

  lemma FreshIsNew(objects: Collection)
    ensures FreshId(objects) != "" && forall j | 0 <= j < |objects| :: objects[j].id != FreshId(objects)
  {
  }

  /** One value of a plan against the server: an unbound reference stops it before it does anything;
      otherwise it is put into its collection, its label bound, and its object reported as updated if and
      only if a property looked changed. */
  lemma PutMeans(step: Step, state: State)
    requires step.Put? && GoodServer(state.server)
    ensures var outcome := RunStep(step, state);
            && (outcome.error.None? <==> Resolvable(Obj(step.props), state.ids))
            && (outcome.error.Some? ==> outcome.error == Some(UnknownRef) && outcome.state == state)
            && (outcome.error.None? ==>
                  var value := ResolveProps(step.props, state.ids);
                  var before := if step.kind in state.server.objects then state.server.objects[step.kind] else [];
                  var t := outcome.state;
                  && step.kind in t.server.objects && step.ref in t.ids
                  && Puts(before, step.keys, value, t.server.objects[step.kind], t.ids[step.ref])
                  && (forall kind | kind != step.kind ::
                        (kind in t.server.objects <==> kind in state.server.objects)
                        && (kind in t.server.objects ==> t.server.objects[kind] == state.server.objects[kind]))
                  && t.server.singletons == state.server.singletons
                  && (forall ref | ref != step.ref ::
                        (ref in t.ids <==> ref in state.ids) && (ref in t.ids ==> t.ids[ref] == state.ids[ref]))
                  && Reports(before, step.keys, value, state, t))
  {
    hide Place, PlacedId, UpsertValue, ResolveProps, Resolvable, Puts, Reports, PlacedVisible, IsCreated;
    if Resolvable(Obj(step.props), state.ids) {
      var value := ResolveProps(step.props, state.ids);
      PlaceIsUpsert(step.kind, step.keys, step.ref, value, state);
      PlacePuts(CollectionOf(state.server, step.kind), step.keys, value);
      ReportsIs(CollectionOf(state.server, step.kind), step, value, state);
    }
  }

  /** The steps of an upsert: its values in order, matched on the given properties, by default the name. */
  lemma UpsertSteps(op: Operation, j: nat)
    requires op.Upsert? && j < |op.entries|
    ensures |OperationSteps(op)| == |op.entries|
    ensures OperationSteps(op)[j] == Put(op.kind, if op.matchOn == [] then ["name"] else op.matchOn,
                                         op.entries[j].ref, op.entries[j].props)
  {
    EntryStepAt(op.kind, MatchKeys(op.matchOn), op.entries, j);
  }

  predicate Reports(objects: Collection, keys: seq<string>, value: Props, s: State, t: State) {
    && t.destroyedIds == s.destroyedIds
    && (IsUnmatched(objects, keys, value) ==> t.updatedIds == s.updatedIds && t.unchangedIds == s.unchangedIds)
    && forall i | 0 <= i < |objects| && IsFirstMatch(objects, keys, value, i) ::
         if exists k | k in value :: LooksChanged(StripProps(objects[i].props), keys, value, k)
         then t.updatedIds == s.updatedIds + [objects[i].id] && t.unchangedIds == s.unchangedIds
         else t.updatedIds == s.updatedIds && t.unchangedIds == s.unchangedIds + [objects[i].id]
  }

  lemma ReportsIs(objects: Collection, step: Step, value: Props, state: State)
    requires step.Put? && GoodServer(state.server) && objects == CollectionOf(state.server, step.kind)
    ensures Reports(objects, step.keys, value, state,
                    UpsertValue(step.kind, step.keys, Read(objects), step.ref, value, state).1.state)
  {
    hide Place, UpsertValue, PatchOf, Visible, IsUnmatched, LooksChanged, StripProps, FirstMatch;
    PlaceIsUpsert(step.kind, step.keys, step.ref, value, state);
    MatchIs(objects, step.keys, value);
    var i := FirstMatch(Read(objects), step.keys, value);
    if i < |objects| {
      MatchedIsMatched(objects, step.keys, value, i);
      PatchIsSent(objects[i].props, step.keys, value);
      VisibleIsValue(value, step.keys, StripProps(objects[i].props));
      forall j: nat | IsFirstMatch(objects, step.keys, value, j) ensures j == i {
        OnlyOneFirst(objects, step.keys, value, i, j);
      }
    } else {
      forall j: nat | IsFirstMatch(objects, step.keys, value, j) ensures false {
        MatchedIsMatched(objects, step.keys, value, j);
      }
    }
  }

  lemma VisibleIsValue(value: Props, keys: seq<string>, shown: Props)
    ensures forall k | k in Visible(value, keys, shown) :: k in value
  {
  }

  // --- a whole plan ----------------------------------------------------------------------------

  function At(props: Props, k: string): Option<Json> {
    if k in props then Some(props[k]) else None
  }

  /** The object of the id holds just this at the property. */
  predicate HoldsAt(objects: Collection, id: string, k: string, v: Option<Json>) {
    exists n :: 0 <= n < |objects| && objects[n].id == id && At(objects[n].props, k) == v
  }

  /** The step has a property of the object of the id. */
  predicate Writes(step: Step, ids: Ids, kind: string, id: string, k: string) {
    step.Put? && step.kind == kind && step.ref in ids && ids[step.ref] == id && k in step.props
  }

  /** A step from the i-th on does. */
  predicate WritesLater(steps: seq<Step>, i: nat, ids: Ids, kind: string, id: string, k: string) {
    exists j :: i <= j < |steps| && Writes(steps[j], ids, kind, id, k)
  }

  lemma PlaceKeepsAt(objects: Collection, keys: seq<string>, value: Props, id: string, k: string, v: Option<Json>)
    requires HoldsAt(objects, id, k, v) && (PlacedId(objects, keys, value) != id || k !in value)
    ensures HoldsAt(Place(objects, keys, value), id, k, v)
  {
    hide IsWritten, IsUnmatched, IsFirstMatch, StripProps;
    var n :| 0 <= n < |objects| && objects[n].id == id && At(objects[n].props, k) == v;
    var after := Place(objects, keys, value);
    var i := FirstMatch(Read(objects), keys, value);
    if i == n {
      PatchIsSent(objects[n].props, keys, value);
      assert At(after[n].props, k) == v by { UnsentStays(objects[n].props, keys, value, after[n].props, k); }
    } else {
      assert after[n] == objects[n];
    }
  }

  lemma UnsentStays(held: Props, keys: seq<string>, value: Props, after: Props, k: string)
    requires IsWritten(held, keys, value, after) && k !in value
    ensures At(after, k) == At(held, k)
  {
    hide StripProps, HidesSecret;
    assert !IsSent(StripProps(held), keys, value, k);
  }

  /** What an object holds at a property stays, until a step bound to the object has that property. */
  lemma {:induction false} RestKeepsAt(steps: seq<Step>, state: State, kind: string, id: string, k: string,
                                       v: Option<Json>)
    requires GoodServer(state.server) && StepsOk(steps) && LabelsUnique(steps) && RunSteps(steps, state).error.None?
    requires HoldsAt(CollectionOf(state.server, kind), id, k, v)
    requires !WritesLater(steps, 0, RunSteps(steps, state).state.ids, kind, id, k)
    ensures HoldsAt(CollectionOf(RunSteps(steps, state).state.server, kind), id, k, v)
    decreases |steps|
  {
    hide RunStep, Settled, Place, PlacedId, GoodServer, Resolvable, ResolveProps, StepOk, HoldsAt, ValueReadable,
      LabelsUnique;
    if steps != [] {
      var step, rest := steps[0], steps[1..];
      var next, ids := RunStep(step, state).state, RunSteps(steps, state).state.ids;
      FirstStepOk(steps);
      RestLabelsUnique(steps);
      StepKeepsGood(step, state);
      if step.Put? {
        PutStep(step, state);
        RunBindsIds(rest, next);
        ResolvePlainFields(step.props, state.ids) by { StepIsTopPlain(step); }
        assert ids[step.ref] == next.ids[step.ref];
        if step.kind == kind {
          assert !Writes(steps[0], ids, kind, id, k);
          PlaceKeepsAt(CollectionOf(state.server, kind), step.keys, ResolveProps(step.props, state.ids), id, k, v);
        }
      } else {
        WriteStep(step, state);
      }
      assert !WritesLater(rest, 0, ids, kind, id, k) by { WritesLaterRest(steps, ids, kind, id, k); }
      RestKeepsAt(rest, next, kind, id, k, v);
    }
  }

  lemma StepIsTopPlain(step: Step)
    requires StepOk(step)
    ensures TopPlain(step.props)
  {
  }

  lemma WritesLaterRest(steps: seq<Step>, ids: Ids, kind: string, id: string, k: string)
    requires steps != [] && !WritesLater(steps, 0, ids, kind, id, k)
    ensures !WritesLater(steps[1..], 0, ids, kind, id, k)
  {
    forall j | 0 <= j < |steps[1..]| ensures !Writes(steps[1..][j], ids, kind, id, k) {
      assert steps[1..][j] == steps[j + 1];
    }
  }

  /** A secret is stored as it was sent; any other property is shown as the value's own would be; and the
      object is matched again. */
  predicate DeliveredAt(held: Props, keys: seq<string>, value: Props, k: string) {
    && (k in value && k != "credentials" && HidesSecret(k, value[k]) ==> At(held, k) == Some(value[k]))
    && (k in value && k != "credentials" && !HidesSecret(k, value[k]) ==>
          Look(StripProps(held), k) == Look(StripProps(value), k))
    && (k in keys ==> Look(StripProps(held), k) == Look(value, k))
  }

  lemma SameAtSameShown(a: Props, b: Props, k: string)
    requires At(a, k) == At(b, k)
    ensures Look(StripProps(a), k) == Look(StripProps(b), k)
  {
  }

  lemma DeliveredSame(a: Props, b: Props, keys: seq<string>, value: Props, k: string)
    requires At(a, k) == At(b, k) && DeliveredAt(a, keys, value, k)
    ensures DeliveredAt(b, keys, value, k)
  {
    SameAtSameShown(a, b, k);
  }

  lemma WrittenIsDelivered(held: Props, keys: seq<string>, value: Props, after: Props, k: string)
    requires IsWritten(held, keys, value, after) && MatchesOn(StripProps(held), keys, value)
    requires ValueReadable(keys, value)
    ensures DeliveredAt(after, keys, value, k)
  {
    var shown := StripProps(held);
    if k in keys {
      assert Get(value, k) == Look(value, k);
      WriteOnlyHides(k, Look(value, k));
      assert !IsSent(shown, keys, value, k);
      SameAtSameShown(after, held, k);
    } else if k in value && k != "credentials" && !HidesSecret(k, value[k]) {
      WriteOnlyHides(k, value[k]);
      if LooksChanged(shown, keys, value, k) {
        SameAtSameShown(after, value, k);
      } else {
        assert !IsSent(shown, keys, value, k);
        SameAtSameShown(after, held, k);
        assert StripProps(value)[k] == Strip(value[k]);
        if k in shown {
          assert shown[k] == Strip(held[k]);
          StripIsIdempotent(held[k]);
        } else {
          assert value[k] == Null;
        }
      }
    }
  }

  lemma KeyIsDelivered(keys: seq<string>, value: Props, k: string)
    requires ValueReadable(keys, value)
    ensures DeliveredAt(value, keys, value, k)
  {
    if k in keys {
      assert Get(value, k) == Look(value, k);
      if k in value {
        WriteOnlyHides(k, value[k]);
      }
    }
  }

  /** Once a value is put, its object has it; a new object has it and nothing else. */
  lemma PlaceDelivers(objects: Collection, keys: seq<string>, value: Props) returns (n: nat)
    requires ValueReadable(keys, value)
    ensures var after, id := Place(objects, keys, value), PlacedId(objects, keys, value);
            && n < |after| && after[n].id == id
            && (forall k :: DeliveredAt(after[n].props, keys, value, k))
            && ((forall j | 0 <= j < |objects| :: objects[j].id != id) ==> after[n].props == value)
  {
    hide IsWritten, DeliveredAt, PatchOf, ValueReadable;
    n := FirstMatch(Read(objects), keys, value);
    MatchIs(objects, keys, value);
    if n < |objects| {
      var held := objects[n].props;
      PatchIsSent(held, keys, value);
      forall k ensures DeliveredAt(held + PatchOf(value, keys, StripProps(held)), keys, value, k) {
        WrittenIsDelivered(held, keys, value, held + PatchOf(value, keys, StripProps(held)), k);
      }
    } else {
      forall k ensures DeliveredAt(value, keys, value, k) {
        KeyIsDelivered(keys, value, k);
      }
    }
  }

  /** What is left of a put value: all of it that no later step of the object writes, and nothing else if
      the object was not there before. */
  ghost predicate IsLeft(steps: seq<Step>, later: nat, ids: Ids, step: Step, props: Props, value: Props, existed: bool)
    requires step.Put? && step.ref in ids
  {
    forall k | !WritesLater(steps, later, ids, step.kind, ids[step.ref], k) ::
      DeliveredAt(props, step.keys, value, k) && (!existed ==> At(props, k) == At(value, k))
  }

  lemma PutIsLeft(steps: seq<Step>, state: State) returns (n: nat)
    requires steps != [] && steps[0].Put?
    requires GoodServer(state.server) && StepsOk(steps) && LabelsUnique(steps) && RunSteps(steps, state).error.None?
    ensures Resolvable(Obj(steps[0].props), state.ids)
    ensures var end := RunSteps(steps, state).state;
            var step, objects := steps[0], CollectionOf(end.server, steps[0].kind);
            && step.ref in end.ids && n < |objects| && objects[n].id == end.ids[step.ref]
            && IsLeft(steps, 1, end.ids, step, objects[n].props, ResolveProps(step.props, state.ids),
                      HasId(CollectionOf(state.server, step.kind), end.ids[step.ref]))
  {
    hide RunStep, Settled, Place, PlacedId, GoodServer, Resolvable, ResolveProps, StepOk, ValueReadable, DeliveredAt,
      LabelsUnique, HoldsAt;
    var step, rest := steps[0], steps[1..];
    var next, end := RunStep(step, state).state, RunSteps(steps, state).state;
    FirstStepOk(steps);
    RestLabelsUnique(steps);
    PutStep(step, state);
    RunBindsIds(rest, next);
    RunLeavesAlone(rest, next, step.kind);
    RunKeepsGood(rest, next);
    var before, objects := CollectionOf(next.server, step.kind), CollectionOf(end.server, step.kind);
    var value, id := ResolveProps(step.props, state.ids), next.ids[step.ref];
    n := PlaceDelivers(CollectionOf(state.server, step.kind), step.keys, value);
    forall k | !WritesLater(steps, 1, end.ids, step.kind, id, k)
      ensures At(objects[n].props, k) == At(before[n].props, k) && DeliveredAt(objects[n].props, step.keys, value, k)
    {
      WritesLaterFrom(steps, end.ids, step.kind, id, k);
      HoldsFor(before, n, k);
      RestKeepsAt(rest, next, step.kind, id, k, At(before[n].props, k));
      HoldsOnlyAt(end.server, step.kind, n, k, At(before[n].props, k));
      DeliveredSame(before[n].props, objects[n].props, step.keys, value, k);
    }
  }

  lemma WritesLaterFrom(steps: seq<Step>, ids: Ids, kind: string, id: string, k: string)
    requires steps != []
    ensures WritesLater(steps, 1, ids, kind, id, k) <==> WritesLater(steps[1..], 0, ids, kind, id, k)
  {
    var rest := steps[1..];
    if j :| 0 <= j < |rest| && Writes(rest[j], ids, kind, id, k) {
      assert Writes(steps[j + 1], ids, kind, id, k);
    }
    if j :| 1 <= j < |steps| && Writes(steps[j], ids, kind, id, k) {
      assert Writes(rest[j - 1], ids, kind, id, k);
    }
  }

  lemma HoldsFor(objects: Collection, n: nat, k: string)
    requires n < |objects|
    ensures HoldsAt(objects, objects[n].id, k, At(objects[n].props, k))
  {
  }

  lemma HoldsOnlyAt(server: Server, kind: string, n: nat, k: string, v: Option<Json>)
    requires GoodServer(server) && n < |CollectionOf(server, kind)|
    requires HoldsAt(CollectionOf(server, kind), CollectionOf(server, kind)[n].id, k, v)
    ensures At(CollectionOf(server, kind)[n].props, k) == v
  {
    var objects := CollectionOf(server, kind);
    var m :| 0 <= m < |objects| && objects[m].id == objects[n].id && At(objects[m].props, k) == v;
    assert GoodIds(objects);
    assert m == n;
  }

  /** An earlier step put a value on the same object. */
  predicate BoundBefore(steps: seq<Step>, i: nat, ids: Ids, kind: string, id: string) {
    exists j :: 0 <= j < i && j < |steps| && steps[j].Put? && steps[j].kind == kind && steps[j].ref in ids
                && ids[steps[j].ref] == id
  }

  lemma {:induction false} RunDelivers(steps: seq<Step>, state: State, i: nat) returns (n: nat, ids: Ids)
    requires GoodServer(state.server) && StepsOk(steps) && LabelsUnique(steps) && RunSteps(steps, state).error.None?
    requires NewLabels(steps, state.ids) && i < |steps| && steps[i].Put?
    ensures var end := RunSteps(steps, state).state;
            var step, objects := steps[i], CollectionOf(end.server, steps[i].kind);
            && Extends(end.ids, ids) && Resolvable(Obj(step.props), ids)
            && step.ref in end.ids && n < |objects| && objects[n].id == end.ids[step.ref]
            && IsLeft(steps, i + 1, end.ids, step, objects[n].props, ResolveProps(step.props, ids),
                      || HasId(CollectionOf(state.server, step.kind), end.ids[step.ref])
                      || BoundBefore(steps, i, end.ids, step.kind, end.ids[step.ref]))
    decreases |steps|
  {
    hide RunStep, Settled, Place, PlacedId, GoodServer, Resolvable, ResolveProps, StepOk, ValueReadable, DeliveredAt,
      LabelsUnique, HoldsAt, IsLeft, NewLabels, Extends;
    var end := RunSteps(steps, state).state;
    NewLabelsStay(steps, state);
    if i == 0 {
      ids := state.ids;
      n := PutIsLeft(steps, state);
      NothingBefore(steps, end.ids, steps[0].kind, end.ids[steps[0].ref]);
    } else {
      var step, rest := steps[0], steps[1..];
      FirstStepOk(steps);
      RestLabelsUnique(steps);
      StepKeepsGood(step, state);
      n, ids := RunDelivers(rest, RunStep(step, state).state, i - 1);
      assert rest[i - 1] == steps[i];
      var kind, id := steps[i].kind, end.ids[steps[i].ref];
      StepFinds(steps, state, i, kind, id);
      LeftFromRest(steps, i, end.ids, CollectionOf(end.server, kind)[n].props, ResolveProps(steps[i].props, ids),
                   || HasId(CollectionOf(RunStep(step, state).state.server, kind), id)
                   || BoundBefore(rest, i - 1, end.ids, kind, id),
                   HasId(CollectionOf(state.server, kind), id) || BoundBefore(steps, i, end.ids, kind, id));
    }
  }

  lemma NothingBefore(steps: seq<Step>, ids: Ids, kind: string, id: string)
    ensures !BoundBefore(steps, 0, ids, kind, id)
  {
  }

  /** The labels of the rest are new when the first step ran, and those bound before stay. */
  lemma NewLabelsStay(steps: seq<Step>, state: State)
    requires steps != [] && GoodServer(state.server) && StepsOk(steps) && LabelsUnique(steps)
    requires RunSteps(steps, state).error.None? && NewLabels(steps, state.ids)
    ensures NewLabels(steps[1..], RunStep(steps[0], state).state.ids)
    ensures Extends(RunSteps(steps, state).state.ids, state.ids)
  {
    hide RunStep, Place, PlacedId, Settled, Resolvable, ResolveProps, GoodServer, StepOk;
    var step, rest := steps[0], steps[1..];
    assert forall j | 0 <= j < |rest| :: rest[j] == steps[j + 1];
    FirstStepOk(steps);
    RunBindsIds(steps, state);
    match step
    case Put(_, _, _, _) => PutStep(step, state);
    case Write(_, _) => WriteStep(step, state);
  }

  /** An object the first step leaves was there, or is the one its label is bound to. */
  lemma StepFinds(steps: seq<Step>, state: State, i: nat, kind: string, id: string)
    requires GoodServer(state.server) && StepsOk(steps) && LabelsUnique(steps) && RunSteps(steps, state).error.None?
    requires 0 < i < |steps|
    ensures var ids := RunSteps(steps, state).state.ids;
            HasId(CollectionOf(RunStep(steps[0], state).state.server, kind), id)
            || BoundBefore(steps[1..], i - 1, ids, kind, id) ==>
              HasId(CollectionOf(state.server, kind), id) || BoundBefore(steps, i, ids, kind, id)
  {
    hide RunStep, Settled, GoodServer, Resolvable, ResolveProps, StepOk, ValueReadable, LabelsUnique, Place, PlacedId;
    var step, rest, ids := steps[0], steps[1..], RunSteps(steps, state).state.ids;
    var next := RunStep(step, state).state;
    FirstStepOk(steps);
    RestLabelsUnique(steps);
    StepKeepsGood(step, state);
    if step.Put? {
      PutStep(step, state);
      RunBindsIds(rest, next);
      assert ids[step.ref] == next.ids[step.ref];
      if step.kind == kind && HasId(CollectionOf(next.server, kind), id) {
        PlaceFinds(CollectionOf(state.server, kind), step.keys, ResolveProps(step.props, state.ids), id);
        assert steps[0].Put?;
      }
    } else {
      WriteStep(step, state);
    }
    if j :| 0 <= j < i - 1 && j < |rest| && rest[j].Put? && rest[j].kind == kind && rest[j].ref in ids
            && ids[rest[j].ref] == id
    {
      assert steps[j + 1] == rest[j];
    }
  }

  lemma PlaceFinds(objects: Collection, keys: seq<string>, value: Props, id: string)
    requires HasId(Place(objects, keys, value), id)
    ensures HasId(objects, id) || PlacedId(objects, keys, value) == id
  {
    var after := Place(objects, keys, value);
    var n :| 0 <= n < |after| && after[n].id == id;
    assert n < |objects| ==> objects[n].id == id;
  }

  lemma LeftFromRest(steps: seq<Step>, i: nat, ids: Ids, props: Props, value: Props, existed: bool, was: bool)
    requires 0 < i < |steps| && steps[i].Put? && steps[i].ref in ids && (existed ==> was)
    requires IsLeft(steps[1..], i, ids, steps[i], props, value, existed)
    ensures IsLeft(steps, i + 1, ids, steps[i], props, value, was)
  {
    hide DeliveredAt;
    var rest, kind, id := steps[1..], steps[i].kind, ids[steps[i].ref];
    forall k | !WritesLater(steps, i + 1, ids, kind, id, k) ensures !WritesLater(rest, i, ids, kind, id, k) {
      forall j | i <= j < |rest| ensures !Writes(rest[j], ids, kind, id, k) {
        assert rest[j] == steps[j + 1];
      }
    }
  }

  /** After an apply the object a value's label is bound to has the value, secrets and all, except for
      properties a later value of the plan has for the same object: a secret as it was sent, the match
      properties as the value has them, anything else as a read of the value would show it. An object that
      neither the server nor an earlier value had holds the value's properties as they were sent, and no
      others. */
  lemma ApplyDelivers(plan: Plan, server: Server, i: nat) returns (n: nat)
    requires PlanReadable(plan) && LabelsUnique(Steps(plan)) && GoodServer(server)
    requires ApplyPlan(plan, server).error.None? && i < |Steps(plan)| && Steps(plan)[i].Put?
    ensures var once, steps := ApplyPlan(plan, server).state, Steps(plan);
            var step, objects := steps[i], CollectionOf(once.server, steps[i].kind);
            && Resolvable(Obj(step.props), once.ids)
            && step.ref in once.ids && n < |objects| && objects[n].id == once.ids[step.ref]
            && IsLeft(steps, i + 1, once.ids, step, objects[n].props, ResolveProps(step.props, once.ids),
                      || HasId(CollectionOf(server, step.kind), once.ids[step.ref])
                      || BoundBefore(steps, i, once.ids, step.kind, once.ids[step.ref]))
  {
    hide RunSteps, ApplyOperations, StepOk, GoodServer, IsLeft, LabelsUnique;
    ApplyIsRunSteps(plan, Fresh(server));
    var ids;
    n, ids := RunDelivers(Steps(plan), Fresh(server), i);
    ResolveExtends(Obj(Steps(plan)[i].props), ids, ApplyPlan(plan, server).state.ids);
  }

  // --- a plan whose values do not disturb one another ----------------------------------------------

  lemma SettledIsDelivered(objects: Collection, keys: seq<string>, value: Props) returns (n: nat)
    requires Settled(objects, keys, value) && ValueReadable(keys, value)
    ensures n < |objects| && objects[n].id == PlacedId(objects, keys, value)
    ensures forall k :: DeliveredAt(objects[n].props, keys, value, k)
  {
    hide DeliveredAt, IsWritten, ValueReadable;
    n := FirstMatch(Read(objects), keys, value);
    MatchIs(objects, keys, value);
    var held := objects[n].props;
    PatchIsSent(held, keys, value);
    forall k ensures DeliveredAt(held, keys, value, k) {
      WrittenIsDelivered(held, keys, value, held, k);
    }
  }

  lemma {:induction false} RunHolds(steps: seq<Step>, state: State, i: nat) returns (n: nat, ids: Ids)
    requires GoodServer(state.server) && WellFormed(steps) && RunSteps(steps, state).error.None?
    requires NewLabels(steps, state.ids) && i < |steps| && steps[i].Put?
    ensures var end := RunSteps(steps, state).state;
            var step, objects := steps[i], CollectionOf(end.server, steps[i].kind);
            && Extends(end.ids, ids) && Resolvable(Obj(step.props), ids)
            && step.ref in end.ids && n < |objects| && objects[n].id == end.ids[step.ref]
            && forall k :: DeliveredAt(objects[n].props, step.keys, ResolveProps(step.props, ids), k)
    decreases |steps|
  {
    hide RunStep, GoodServer, Settled, Place, PlacedId, ResolveProps, Resolvable, StepOk, Compatible, DeliveredAt,
      NewLabels, Extends, ValueReadable;
    var step, rest := steps[0], steps[1..];
    FirstIsCompatible(steps);
    NewLabelsAfter(steps, state);
    var next := RunStep(step, state).state;
    StepKeepsGood(step, state);
    WellFormedIsOk(rest);
    if i == 0 {
      ids := state.ids;
      PutStep(step, state);
      RestExtends(rest, next);
      ExtendsTwice(RunSteps(steps, state).state.ids, next.ids, state.ids);
      ExtendsAt(RunSteps(steps, state).state.ids, next.ids, step.ref);
      RestKeepsSettled(rest, next, step, ids);
      n := SettledIsDelivered(CollectionOf(RunSteps(steps, state).state.server, step.kind), step.keys,
                              ResolveProps(step.props, ids));
    } else {
      n, ids := RunHolds(rest, next, i - 1);
    }
  }

  lemma WellFormedIsOk(steps: seq<Step>)
    requires WellFormed(steps)
    ensures StepsOk(steps)
  {
  }

  lemma ExtendsTwice(a: Ids, b: Ids, c: Ids)
    requires Extends(a, b) && Extends(b, c)
    ensures Extends(a, c)
  {
  }

  lemma ExtendsAt(a: Ids, b: Ids, ref: string)
    requires Extends(a, b) && ref in b
    ensures ref in a && a[ref] == b[ref]
  {
  }

  /** If no value disturbs an earlier one of its type, every value of the plan is on its object in full
      once the plan is applied, every secret as it was sent. */
  lemma ApplyHoldsAll(plan: Plan, server: Server, i: nat) returns (n: nat)
    requires PlanOk(plan) && GoodServer(server)
    requires ApplyPlan(plan, server).error.None? && i < |Steps(plan)| && Steps(plan)[i].Put?
    ensures var once, step := ApplyPlan(plan, server).state, Steps(plan)[i];
            var objects := CollectionOf(once.server, step.kind);
            && Resolvable(Obj(step.props), once.ids)
            && step.ref in once.ids && n < |objects| && objects[n].id == once.ids[step.ref]
            && forall k :: DeliveredAt(objects[n].props, step.keys, ResolveProps(step.props, once.ids), k)
  {
    hide RunSteps, ApplyOperations, StepOk, GoodServer, DeliveredAt, Compatible;
    ApplyIsRunSteps(plan, Fresh(server));
    var ids;
    n, ids := RunHolds(Steps(plan), Fresh(server), i);
    var once, props := ApplyPlan(plan, server).state, Steps(plan)[i].props;
    ResolveExtends(Obj(props), ids, once.ids);
    assert ResolveProps(props, once.ids) == ResolveProps(props, ids);
  }

  // --- singletons ------------------------------------------------------------------------------

  predicate SingletonHolds(server: Server, kind: string, k: string, v: Option<Json>) {
    (if kind in server.singletons then At(server.singletons[kind], k) else None) == v
  }

  predicate WritesSingleton(step: Step, kind: string, k: string) {
    step.Write? && step.kind == kind && k in step.props
  }

  lemma WriteSets(step: Step, state: State, kind: string, k: string)
    requires step.Write? && StepOk(step) && GoodServer(state.server) && RunStep(step, state).error.None?
    ensures Resolvable(Obj(step.props), state.ids) && step.props.Keys == ResolveProps(step.props, state.ids).Keys
    ensures var after := RunStep(step, state).state.server;
            if WritesSingleton(step, kind, k) then
              SingletonHolds(after, kind, k, Some(ResolveProps(step.props, state.ids)[k]))
            else
              forall v | SingletonHolds(state.server, kind, k, v) :: SingletonHolds(after, kind, k, v)
  {
    hide Resolvable, ResolveProps;
    ResolvePlainFields(step.props, state.ids);
  }

  lemma {:induction false} RestKeepsSingleton(steps: seq<Step>, state: State, kind: string, k: string, v: Option<Json>)
    requires GoodServer(state.server) && StepsOk(steps) && RunSteps(steps, state).error.None?
    requires forall j | 0 <= j < |steps| :: !WritesSingleton(steps[j], kind, k)
    requires SingletonHolds(state.server, kind, k, v)
    ensures SingletonHolds(RunSteps(steps, state).state.server, kind, k, v)
    decreases |steps|
  {
    hide RunStep, GoodServer, Resolvable, ResolveProps, StepOk, Place, PlacedId, Settled, ValueReadable, SingletonHolds,
      WritesSingleton;
    if steps != [] {
      var step, rest := steps[0], steps[1..];
      var next := RunStep(step, state).state;
      FirstStepOk(steps);
      StepKeepsGood(step, state);
      assert forall j | 0 <= j < |rest| :: rest[j] == steps[j + 1];
      if step.Put? {
        PutStep(step, state);
        PutKeepsSingletons(state.server, next.server, kind, k);
      } else {
        WriteSets(step, state, kind, k);
      }
      RestKeepsSingleton(rest, next, kind, k, v);
    }
  }

  lemma {:induction false} RunWritesAt(steps: seq<Step>, state: State, i: nat, k: string) returns (ids: Ids)
    requires GoodServer(state.server) && StepsOk(steps) && LabelsUnique(steps) && RunSteps(steps, state).error.None?
    requires NewLabels(steps, state.ids) && i < |steps| && WritesSingleton(steps[i], steps[i].kind, k)
    requires forall j | i < j < |steps| :: !WritesSingleton(steps[j], steps[i].kind, k)
    ensures Extends(RunSteps(steps, state).state.ids, ids)
    ensures Resolvable(Obj(steps[i].props), ids) && k in ResolveProps(steps[i].props, ids)
    ensures SingletonHolds(RunSteps(steps, state).state.server, steps[i].kind, k,
                           Some(ResolveProps(steps[i].props, ids)[k]))
    decreases |steps|
  {
    hide RunStep, GoodServer, Resolvable, ResolveProps, StepOk, Place, PlacedId, Settled, ValueReadable, SingletonHolds,
      NewLabels, Extends, LabelsUnique;
    var step, rest := steps[0], steps[1..];
    var next := RunStep(step, state).state;
    FirstStepOk(steps);
    RestLabelsUnique(steps);
    StepKeepsGood(step, state);
    NewLabelsStay(steps, state);
    assert forall j | 0 <= j < |rest| :: rest[j] == steps[j + 1];
    if i == 0 {
      ids := state.ids;
      WriteSets(step, state, step.kind, k);
      RestKeepsSingleton(rest, next, step.kind, k, Some(ResolveProps(step.props, ids)[k]));
    } else {
      ids := RunWritesAt(rest, next, i - 1, k);
    }
  }

  /** After an apply a singleton's property is what the last update that has it sent, or what it was if no
      update has it. */
  lemma ApplyWrites(plan: Plan, server: Server, kind: string, k: string)
    requires PlanReadable(plan) && LabelsUnique(Steps(plan)) && GoodServer(server)
    requires ApplyPlan(plan, server).error.None?
    ensures var once, steps := ApplyPlan(plan, server).state, Steps(plan);
            && (forall i | 0 <= i < |steps| && WritesSingleton(steps[i], kind, k)
                           && (forall j | i < j < |steps| :: !WritesSingleton(steps[j], kind, k)) ::
                  && Resolvable(Obj(steps[i].props), once.ids) && k in ResolveProps(steps[i].props, once.ids)
                  && SingletonHolds(once.server, kind, k, Some(ResolveProps(steps[i].props, once.ids)[k])))
            && ((forall i | 0 <= i < |steps| :: !WritesSingleton(steps[i], kind, k)) ==>
                  forall v | SingletonHolds(server, kind, k, v) :: SingletonHolds(once.server, kind, k, v))
  {
    hide RunSteps, ApplyOperations, StepOk, GoodServer, LabelsUnique, SingletonHolds, OperationsApart, Resolvable,
      Resolve;
    ApplyIsRunSteps(plan, Fresh(server));
    var once, steps := ApplyPlan(plan, server).state, Steps(plan);
    forall i | 0 <= i < |steps| && WritesSingleton(steps[i], kind, k)
               && (forall j | i < j < |steps| :: !WritesSingleton(steps[j], kind, k))
      ensures Resolvable(Obj(steps[i].props), once.ids) && k in ResolveProps(steps[i].props, once.ids)
      ensures SingletonHolds(once.server, kind, k, Some(ResolveProps(steps[i].props, once.ids)[k]))
    {
      var ids := RunWritesAt(steps, Fresh(server), i, k);
      ResolveExtends(Obj(steps[i].props), ids, once.ids);
    }
    if forall i | 0 <= i < |steps| :: !WritesSingleton(steps[i], kind, k) {
      forall v | SingletonHolds(server, kind, k, v) ensures SingletonHolds(once.server, kind, k, v) {
        RestKeepsSingleton(steps, Fresh(server), kind, k, v);
      }
    }
  }

  lemma PutKeepsSingletons(a: Server, b: Server, kind: string, k: string)
    requires a.singletons == b.singletons
    ensures forall v :: SingletonHolds(a, kind, k, v) <==> SingletonHolds(b, kind, k, v)
  {
  }

  // --- updates by id and destroys ------------------------------------------------------------------

  /** An update by id sends its whole value, to the object of that id and no other; it fails where there is
      none, and without an id for what is no singleton. */
  lemma UpdateMeans(op: Operation, state: State)
    requires op.UpdateOne? && op.id != "" && GoodServer(state.server) && Resolvable(Obj(op.props), state.ids)
    ensures var outcome := ApplyOperation(op, state);
            var bound := op.id[0] == '#' ==> op.id[1..] in state.ids;
            && (!bound ==> outcome == Outcome(state, Some(UnknownRef)))
            && (bound ==>
                  var id := if op.id[0] == '#' then state.ids[op.id[1..]] else op.id;
                  var before := CollectionOf(state.server, op.kind);
                  var after := CollectionOf(outcome.state.server, op.kind);
                  && (outcome.error.None? <==> exists n :: 0 <= n < |before| && before[n].id == id)
                  && (outcome.error.Some? ==> outcome == Outcome(state, Some(NotFound)))
                  && (outcome.error.None? ==>
                        && |after| == |before| && outcome.state.updatedIds == state.updatedIds + [id]
                        && forall n | 0 <= n < |before| :: after[n].id == before[n].id
                             && (before[n].id != id ==> after[n] == before[n])
                             && (before[n].id == id ==>
                                   IsOverlaid(after[n].props, before[n].props, ResolveProps(op.props, state.ids)))))
  {
    hide Resolvable, ResolveProps;
  }

  ghost predicate IsOverlaid(after: Props, before: Props, value: Props) {
    forall k :: At(after, k) == if k in value then Some(value[k]) else At(before, k)
  }

  lemma NeedsAnId(op: Operation, state: State)
    requires op.UpdateOne? && op.id == "" && Resolvable(Obj(op.props), state.ids)
    ensures ApplyOperation(op, state).error.None? <==> op.kind in SINGLETON_TYPES
    ensures ApplyOperation(op, state).error.Some? ==> ApplyOperation(op, state) == Outcome(state, Some(NeedsId))
  {
  }

  predicate IsSelected(props: Props, filter: Props) {
    forall k | k in filter :: Look(props, k) == filter[k]
  }

  /** A destroy deletes exactly the objects its filter selects, in their order, and reports them; the
      others stay in theirs. */
  lemma DestroyMeans(op: Operation, state: State)
    requires op.Destroy? && GoodServer(state.server) && Resolvable(Obj(op.filter), state.ids)
    ensures var outcome, filter := ApplyOperation(op, state), ResolveProps(op.filter, state.ids);
            var before, after := CollectionOf(state.server, op.kind), CollectionOf(outcome.state.server, op.kind);
            && outcome.error.None? && outcome.state.ids == state.ids
            && after == Unselected(before, filter)
            && outcome.state.destroyedIds == state.destroyedIds + SelectedIds(before, filter)
            && (forall kind | kind != op.kind ::
                  CollectionOf(outcome.state.server, kind) == CollectionOf(state.server, kind))
            && outcome.state.server.singletons == state.server.singletons
  {
    hide Resolvable, ResolveProps, IsSelected;
    var filter, before := ResolveProps(op.filter, state.ids), CollectionOf(state.server, op.kind);
    QueryIsSelected(before, filter);
    assert GoodIds(before);
    DestroysSelected(op.kind, before, filter, state, []);
    assert [] + before == before && [] + Unselected(before, filter) == Unselected(before, filter);
  }

  function Unselected(objects: Collection, filter: Props): Collection {
    if objects == [] then []
    else (if IsSelected(objects[0].props, filter) then [] else [objects[0]]) + Unselected(objects[1..], filter)
  }

  function SelectedIds(objects: Collection, filter: Props): seq<string> {
    if objects == [] then []
    else (if IsSelected(objects[0].props, filter) then [objects[0].id] else []) + SelectedIds(objects[1..], filter)
  }

  lemma {:induction false} QueryIsSelected(objects: Collection, filter: Props)
    ensures QueryIds(objects, filter) == SelectedIds(objects, filter)
  {
    if objects != [] {
      QueryIsSelected(objects[1..], filter);
      assert Satisfies(objects[0].props, filter) <==> IsSelected(objects[0].props, filter) by {
        assert forall k | k in filter :: Get(objects[0].props, k) == Look(objects[0].props, k);
      }
    }
  }

  lemma {:induction false} WithoutAbsent(objects: Collection, id: string)
    requires forall j | 0 <= j < |objects| :: objects[j].id != id
    ensures WithoutId(objects, id) == objects
  {
    if objects != [] {
      WithoutAbsent(objects[1..], id);
    }
  }

  lemma {:induction false} WithoutJoins(a: Collection, b: Collection, id: string)
    ensures WithoutId(a + b, id) == WithoutId(a, id) + WithoutId(b, id)
  {
    if a == [] {
      assert a + b == b;
    } else {
      assert (a + b)[0] == a[0] && (a + b)[1..] == a[1..] + b;
      WithoutJoins(a[1..], b, id);
      var first := if a[0].id == id then [] else [a[0]];
      assert WithoutId(a, id) == first + WithoutId(a[1..], id);
      assert WithoutId(a + b, id) == first + (WithoutId(a[1..], id) + WithoutId(b, id));
    }
  }

  /** Deleting what is selected of `rest`, behind objects that stay. */
  lemma {:induction false} DestroysSelected(kind: string, rest: Collection, filter: Props, state: State,
                                            done: Collection)
    requires GoodIds(done + rest) && CollectionOf(state.server, kind) == done + rest
    ensures var t := DestroyIds(kind, SelectedIds(rest, filter), state);
            && CollectionOf(t.server, kind) == done + Unselected(rest, filter)
            && t.destroyedIds == state.destroyedIds + SelectedIds(rest, filter)
            && t.ids == state.ids && t.server.singletons == state.server.singletons
            && forall other | other != kind :: CollectionOf(t.server, other) == CollectionOf(state.server, other)
    decreases |rest|
  {
    hide IsSelected, GoodIds, WithoutId;
    if rest != [] {
      var first, tail := rest[0], rest[1..];
      assert done + rest == done + [first] + tail;
      if IsSelected(first.props, filter) {
        DeleteFirst(done, first, tail);
        var next := Destroyed(state, kind, first.id);
        SelectedFirst(rest, filter);
        DestroysSelected(kind, tail, filter, next, done);
        DestroyOne(kind, first.id, SelectedIds(tail, filter), state);
        assert state.destroyedIds + [first.id] + SelectedIds(tail, filter)
            == state.destroyedIds + ([first.id] + SelectedIds(tail, filter));
      } else {
        UnselectedFirst(rest, filter);
        DestroysSelected(kind, tail, filter, state, done + [first]);
        assert done + [first] + Unselected(tail, filter) == done + ([first] + Unselected(tail, filter));
      }
    }
  }

  function Destroyed(state: State, kind: string, id: string): State {
    state.(server := Delete(state.server, kind, id), destroyedIds := state.destroyedIds + [id])
  }

  lemma DestroyOne(kind: string, id: string, ids: seq<string>, state: State)
    ensures DestroyIds(kind, [id] + ids, state) == DestroyIds(kind, ids, Destroyed(state, kind, id))
  {
    assert ([id] + ids)[1..] == ids;
  }

  lemma SelectedFirst(objects: Collection, filter: Props)
    requires objects != [] && IsSelected(objects[0].props, filter)
    ensures SelectedIds(objects, filter) == [objects[0].id] + SelectedIds(objects[1..], filter)
    ensures Unselected(objects, filter) == Unselected(objects[1..], filter)
  {
  }

  lemma UnselectedFirst(objects: Collection, filter: Props)
    requires objects != [] && !IsSelected(objects[0].props, filter)
    ensures SelectedIds(objects, filter) == SelectedIds(objects[1..], filter)
    ensures Unselected(objects, filter) == [objects[0]] + Unselected(objects[1..], filter)
  {
  }

  lemma DeleteFirst(done: Collection, first: Object, tail: Collection)
    requires GoodIds(done + [first] + tail)
    ensures WithoutId(done + [first] + tail, first.id) == done + tail && GoodIds(done + tail)
  {
    hide WithoutId;
    OthersDiffer(done, first, tail);
    WithoutAbsent(done, first.id);
    WithoutAbsent(tail, first.id);
    WithoutJoins(done + [first], tail, first.id);
    WithoutJoins(done, [first], first.id);
    WithoutOnly(first);
    assert done + [] == done;
  }

  lemma WithoutOnly(first: Object)
    ensures WithoutId([first], first.id) == []
  {
    assert [first][1..] == [];
  }

  lemma OthersDiffer(done: Collection, first: Object, tail: Collection)
    requires GoodIds(done + [first] + tail)
    ensures forall j | 0 <= j < |done| :: done[j].id != first.id
    ensures forall j | 0 <= j < |tail| :: tail[j].id != first.id
    ensures GoodIds(done + tail)
  {
    var all := done + [first] + tail;
    forall j | 0 <= j < |done| ensures done[j].id != first.id {
      assert all[j] == done[j] && all[|done|] == first;
    }
    forall j | 0 <= j < |tail| ensures tail[j].id != first.id {
      assert all[|done| + 1 + j] == tail[j] && all[|done|] == first;
    }
    forall i, j | 0 <= i < j < |done + tail| ensures (done + tail)[i].id != (done + tail)[j].id {
      var a, b := if i < |done| then i else i + 1, if j < |done| then j else j + 1;
      assert all[a] == (done + tail)[i] && all[b] == (done + tail)[j];
    }
    forall i | 0 <= i < |done + tail| ensures (done + tail)[i].id != "" {
      assert all[if i < |done| then i else i + 1] == (done + tail)[i];
    }
  }
}
