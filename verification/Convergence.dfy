/** What applying a plan achieves: the server reaches a state the plan no longer changes, whatever
    it held before, and nothing outside the plan is touched.

    The applier reads each collection once per operation and keeps its own copy of it. The proof
    first shows that this is the same as reading the server again before every value, then works
    on that simple form. */
module Convergence {
  import opened Wrappers
  import opened Json
  import opened PlanApplier

  // --- plans that declare a state ----------------------------------------------------------

  /** One value of an upsert, or one singleton update. */
  datatype Step =
    | Put(kind: string, keys: seq<string>, ref: string, props: Props)
    | Write(kind: string, props: Props)

  predicate Declarative(plan: Plan) {
    forall i | 0 <= i < |plan| :: plan[i].Upsert? || (plan[i].UpdateOne? && plan[i].id == "")
  }

  function EntrySteps(kind: string, keys: seq<string>, entries: seq<Entry>): seq<Step> {
    if entries == [] then []
    else [Put(kind, keys, entries[0].ref, entries[0].props)] + EntrySteps(kind, keys, entries[1..])
  }

  function OperationSteps(op: Operation): seq<Step> {
    match op
    case Upsert(kind, _, matchOn, entries) => EntrySteps(kind, MatchKeys(matchOn), entries)
    case UpdateOne(kind, _, props) => [Write(kind, props)]
    case _ => []
  }

  function Steps(plan: Plan): seq<Step> {
    if plan == [] then [] else OperationSteps(plan[0]) + Steps(plan[1..])
  }

  /** A read shows the properties the object is matched on. */
  predicate KeysReadable(keys: seq<string>, props: Props) {
    forall k | k in keys :: k !in WRITE_ONLY_KEYS && Strip(Get(props, k)) == Get(props, k)
  }

  /** A property both values are matched on tells them apart, whatever their references resolve to. */
  predicate Apart(a: Props, b: Props, keysA: seq<string>, keysB: seq<string>) {
    exists k ::
      k in keysA && k in keysB && NoRefs(Get(a, k)) && NoRefs(Get(b, k)) && Get(a, k) != Get(b, k)
  }

  /** Without references or secrets: what is sent, stored and read is the same. */
  predicate Clear(props: Props) {
    NoRefs(Obj(props)) && Strip(Obj(props)) == Obj(props)
  }

  // --- when a later value disturbs an earlier one ----------------------------------------------

  predicate Meet(x: Props, kx: seq<string>, y: Props, ky: seq<string>) {
    forall k | k in kx && k in ky :: Get(x, k) == Get(y, k)
  }

  /** `y` can be written to an object before the one `x` is on and make that match `x`. */
  predicate Steals(x: Props, kx: seq<string>, y: Props, ky: seq<string>) {
    && Meet(x, kx, y, ky)
    && (forall k | k in kx && k in y && k !in ky :: y[k] == Get(x, k))
    && exists k :: k in kx && k in y && k !in ky
  }

  /** `y` can be written to the very object `x` is on and change what `x` wrote there or is matched on. */
  predicate Overwrites(x: Props, kx: seq<string>, y: Props, ky: seq<string>) {
    && Meet(x, kx, y, ky)
    && (forall k | k in ky && k in x && k !in kx :: x[k] == Get(y, k))
    && exists k :: k in y && k !in ky && (k in kx || k in x) && y[k] != Get(x, k)
  }

  predicate Disturbs(x: Props, kx: seq<string>, y: Props, ky: seq<string>) {
    Steals(x, kx, y, ky) || Overwrites(x, kx, y, ky)
  }

  /** The later value `b` leaves `a` as it is, on every server. */
  predicate Separate(a: Step, b: Step)
    requires a.Put? && b.Put?
  {
    || Apart(a.props, b.props, a.keys, b.keys)
    || (Clear(a.props) && Clear(b.props) && !Disturbs(a.props, a.keys, b.props, b.keys))
  }

  /** Labels are unique, and no value disturbs an earlier one of its type. */
  predicate Compatible(a: Step, b: Step) {
    a.Put? && b.Put? ==> a.ref != b.ref && (a.kind == b.kind ==> Separate(a, b))
  }

  /** Property names are no references, and a read shows the properties a value is matched on. */
  predicate StepOk(step: Step) {
    && TopPlain(step.props)
    && (step.Put? ==> KeysReadable(step.keys, step.props) && PlainKeys(step.keys, step.props))
  }

  predicate PlainKeys(keys: seq<string>, props: Props) {
    forall k | k in keys && k in props :: Plain(props[k])
  }

  predicate StepsOk(steps: seq<Step>) {
    forall i | 0 <= i < |steps| :: StepOk(steps[i])
  }

  predicate LabelsUnique(steps: seq<Step>) {
    forall i, j | 0 <= i < j < |steps| && steps[i].Put? && steps[j].Put? :: steps[i].ref != steps[j].ref
  }

  predicate WellFormed(steps: seq<Step>) {
    StepsOk(steps) && forall i, j | 0 <= i < j < |steps| :: Compatible(steps[i], steps[j])
  }

  /** No two values of one operation share its match keys. */
  predicate EntriesApart(keys: seq<string>, entries: seq<Entry>) {
    forall i, j | 0 <= i < j < |entries| :: Apart(entries[i].props, entries[j].props, keys, keys)
  }

  predicate OperationsApart(plan: Plan) {
    forall i | 0 <= i < |plan| && plan[i].Upsert? :: EntriesApart(MatchKeys(plan[i].matchOn), plan[i].entries)
  }

  /** Plans the applier may read each collection for once per operation. */
  predicate PlanReadable(plan: Plan) {
    Declarative(plan) && StepsOk(Steps(plan)) && OperationsApart(plan)
  }

  predicate PlanOk(plan: Plan) {
    PlanReadable(plan) && WellFormed(Steps(plan))
  }

  // --- the simple form ---------------------------------------------------------------------

  /** The step against a fresh read of the server. */
  function RunStep(step: Step, state: State): Outcome {
    match step
    case Put(kind, keys, ref, props) =>
      UpsertEntry(kind, keys, Read(CollectionOf(state.server, kind)), Entry(ref, props), state).1
    case Write(kind, props) => UpdateOperation(UpdateOne(kind, "", props), state)
  }

  function RunSteps(steps: seq<Step>, state: State): Outcome {
    if steps == [] then Outcome(state, None)
    else
      var outcome := RunStep(steps[0], state);
      if outcome.error.Some? then outcome else RunSteps(steps[1..], outcome.state)
  }

  /** One resolved value on its collection. */
  function Place(objects: Collection, keys: seq<string>, value: Props): Collection {
    var i := FirstMatch(Read(objects), keys, value);
    if i == |objects| then objects + [Object(FreshId(objects), value)]
    else objects[i := Object(objects[i].id, objects[i].props + PatchOf(value, keys, StripProps(objects[i].props)))]
  }

  function PlacedId(objects: Collection, keys: seq<string>, value: Props): string {
    var i := FirstMatch(Read(objects), keys, value);
    if i == |objects| then FreshId(objects) else objects[i].id
  }

  function PlacedVisible(objects: Collection, keys: seq<string>, value: Props): Props {
    var i := FirstMatch(Read(objects), keys, value);
    if i == |objects| then map[] else Visible(value, keys, StripProps(objects[i].props))
  }

  predicate IsCreated(objects: Collection, keys: seq<string>, value: Props) {
    FirstMatch(Read(objects), keys, value) == |objects|
  }

  lemma PlaceIsUpsert(kind: string, keys: seq<string>, ref: string, value: Props, state: State)
    requires GoodServer(state.server)
    ensures var objects := CollectionOf(state.server, kind);
            var outcome := UpsertValue(kind, keys, Read(objects), ref, value, state).1;
            && outcome.error.None?
            && outcome.state.server == state.server.(objects :=
                state.server.objects[kind := Place(objects, keys, value)])
            && outcome.state.ids == state.ids[ref := PlacedId(objects, keys, value)]
            && outcome.state.destroyedIds == state.destroyedIds
            && (IsCreated(objects, keys, value) ==>
                  outcome.state.updatedIds == state.updatedIds && outcome.state.unchangedIds == state.unchangedIds)
            && (!IsCreated(objects, keys, value) ==>
                  var id := PlacedId(objects, keys, value);
                  var visible := PlacedVisible(objects, keys, value) != map[];
                  && outcome.state.updatedIds == state.updatedIds + (if visible then [id] else [])
                  && outcome.state.unchangedIds == state.unchangedIds + (if visible then [] else [id]))
  {
    var objects := CollectionOf(state.server, kind);
    var i := FirstMatch(Read(objects), keys, value);
    if i < |objects| {
      var id := objects[i].id;
      var patch := PatchOf(value, keys, StripProps(objects[i].props));
      assert GoodIds(objects);
      assert HasId(objects, id);
      var patched := PatchById(objects, id, patch);
      forall j | 0 <= j < |objects| ensures patched[j] == Place(objects, keys, value)[j] {
        if j != i {
          assert objects[j].id != id;
        }
      }
      assert patched == Place(objects, keys, value);
      if patch == map[] {
        assert objects[i].props + patch == objects[i].props;
        assert Place(objects, keys, value) == objects;
        assert state.server.objects[kind := objects] == state.server.objects;
      }
    }
  }

  // --- a settled value ---------------------------------------------------------------------

  predicate ValueReadable(keys: seq<string>, value: Props) {
    forall k | k in keys :: !IsWriteOnly(k, Get(value, k)) && Strip(Get(value, k)) == Get(value, k)
  }

  /** The value matches an object, and sending it again would change nothing. */
  predicate Settled(objects: Collection, keys: seq<string>, value: Props) {
    var i := FirstMatch(Read(objects), keys, value);
    i < |objects| &&
    objects[i].props + PatchOf(value, keys, StripProps(objects[i].props)) == objects[i].props
  }

  lemma FirstMatchIs(existing: Collection, keys: seq<string>, value: Props, i: nat)
    requires i < |existing| && Matches(existing[i].props, keys, value)
    requires forall j | 0 <= j < i :: !Matches(existing[j].props, keys, value)
    ensures FirstMatch(existing, keys, value) == i
  {
  }

  /** What a patch can never change: the properties objects are matched on. */
  lemma PatchKeepsKeys(held: Props, keys: seq<string>, value: Props)
    requires ValueReadable(keys, value)
    ensures forall k | k in keys ::
      Get(StripProps(held + PatchOf(value, keys, StripProps(held))), k) == Get(StripProps(held), k)
  {
    var patch := PatchOf(value, keys, StripProps(held));
    forall k | k in keys ensures Get(StripProps(held + patch), k) == Get(StripProps(held), k) {
      assert k !in patch by {
        if k in value {
          assert Get(value, k) == value[k];
        }
      }
      if k in held {
        assert (held + patch)[k] == held[k];
      }
    }
  }

  lemma ReadShowsKeys(keys: seq<string>, value: Props)
    requires ValueReadable(keys, value)
    ensures Matches(StripProps(value), keys, value)
  {
    forall k | k in keys ensures Get(StripProps(value), k) == Get(value, k) {
      if k in value {
        assert Get(value, k) == value[k];
      }
    }
  }

  lemma PlaceKeepsIds(objects: Collection, keys: seq<string>, value: Props)
    requires GoodIds(objects)
    ensures GoodIds(Place(objects, keys, value))
  {
    var after := Place(objects, keys, value);
    assert forall j | 0 <= j < |objects| :: after[j].id == objects[j].id;
  }

  lemma PlaceSettles(objects: Collection, keys: seq<string>, value: Props)
    requires ValueReadable(keys, value)
    ensures var after := Place(objects, keys, value);
            Settled(after, keys, value) && PlacedId(after, keys, value) == PlacedId(objects, keys, value)
  {
    var i := FirstMatch(Read(objects), keys, value);
    var after := Place(objects, keys, value);
    assert forall j | 0 <= j < i :: Read(after)[j] == Read(objects)[j];
    if i == |objects| {
      ReadShowsKeys(keys, value);
      FirstMatchIs(Read(after), keys, value, i);
      assert value + PatchOf(value, keys, StripProps(value)) == value;
    } else {
      var held := objects[i].props;
      var patch := PatchOf(value, keys, StripProps(held));
      PatchKeepsKeys(held, keys, value);
      FirstMatchIs(Read(after), keys, value, i);
      SecondPatchIsNoOp(held, keys, value);
    }
  }

  lemma SecondPatchIsNoOp(held: Props, keys: seq<string>, value: Props)
    ensures var patched := held + PatchOf(value, keys, StripProps(held));
            patched + PatchOf(value, keys, StripProps(patched)) == patched
  {
    var patch := PatchOf(value, keys, StripProps(held));
    var patched := held + patch;
    var again := PatchOf(value, keys, StripProps(patched));
    forall k | k in again ensures k in patched && patched[k] == again[k] {
      SecondPatchIsInFirst(held, keys, value, k);
    }
  }

  lemma SecondPatchIsInFirst(held: Props, keys: seq<string>, value: Props, k: string)
    ensures var patch := PatchOf(value, keys, StripProps(held));
            k in PatchOf(value, keys, StripProps(held + patch)) ==> k in patch
  {
    var patched := held + PatchOf(value, keys, StripProps(held));
    if k !in PatchOf(value, keys, StripProps(held)) {
      assert Get(StripProps(patched), k) == Get(StripProps(held), k);
    }
  }

  /** A value told apart by a shared match key leaves a settled one settled, on the same object. */
  lemma PlaceKeepsSettled(objects: Collection, keys: seq<string>, value: Props, otherKeys: seq<string>, other: Props)
    requires Settled(objects, keys, value)
    requires ValueReadable(otherKeys, other)
    requires exists k :: k in keys && k in otherKeys && Get(value, k) != Get(other, k)
    ensures var after := Place(objects, otherKeys, other);
            Settled(after, keys, value) && PlacedId(after, keys, value) == PlacedId(objects, keys, value)
  {
    hide StripProps, PatchOf, ValueReadable;
    var i := FirstMatch(Read(objects), keys, value);
    var o := FirstMatch(Read(objects), otherKeys, other);
    var after := Place(objects, otherKeys, other);
    var key :| key in keys && key in otherKeys && Get(value, key) != Get(other, key);
    assert Get(Read(objects)[i].props, key) == Get(value, key);
    if o < |objects| {
      assert Get(Read(objects)[o].props, key) == Get(other, key);
      PatchKeepsKeys(objects[o].props, otherKeys, other);
      assert Get(Read(after)[o].props, key) == Get(other, key);
    }
    forall j | 0 <= j < |objects|
      ensures Matches(Read(after)[j].props, keys, value) <==> Matches(Read(objects)[j].props, keys, value)
    {
      if j != o {
        assert after[j] == objects[j];
      }
    }
    FirstMatchIs(Read(after), keys, value, i);
    assert after[i] == objects[i];
  }

  // --- what a second run reports -------------------------------------------------------------

  /** No visible property holds a secret inside it, so a read gives back what was sent. */
  predicate Echoed(props: Props, keys: seq<string>) {
    forall k | k in props && k !in keys && !IsWriteOnly(k, props[k]) :: Strip(props[k]) == props[k]
  }

  lemma SettledPlace(objects: Collection, keys: seq<string>, value: Props)
    requires Settled(objects, keys, value)
    ensures Place(objects, keys, value) == objects && objects != []
    ensures !IsCreated(objects, keys, value)
    ensures PlacedVisible(objects, keys, value) == map[] <==> Echoed(value, keys)
  {
    var i := FirstMatch(Read(objects), keys, value);
    var held := objects[i].props;
    var visible := Visible(value, keys, StripProps(held));
    var patch := PatchOf(value, keys, StripProps(held));
    if visible != map[] {
      var k :| k in visible;
      assert k in patch && k !in Secrets(value);
      assert (held + patch)[k] == value[k];
      assert held[k] == value[k];
      assert Get(StripProps(held), k) == Strip(value[k]);
    }
    if !Echoed(value, keys) {
      var k :| k in value && k !in keys && !IsWriteOnly(k, value[k]) && Strip(value[k]) != value[k];
      if Get(StripProps(held), k) == value[k] {
        if k in StripProps(held) {
          StripIsIdempotent(held[k]);
        }
      }
      assert k in visible;
    }
  }

  lemma ReadableResolves(keys: seq<string>, props: Props, ids: Ids)
    requires TopPlain(props) && Resolvable(Obj(props), ids)
    requires KeysReadable(keys, props) && PlainKeys(keys, props)
    ensures ValueReadable(keys, ResolveProps(props, ids))
  {
    ResolvePlainFields(props, ids);
    var value := ResolveProps(props, ids);
    forall k | k in keys ensures !IsWriteOnly(k, Get(value, k)) && Strip(Get(value, k)) == Get(value, k) {
      if k in props {
        assert Get(props, k) == props[k] && Get(value, k) == value[k];
        ResolveKeepsWhole(props[k], ids);
        ResolveKeepsWriteOnly(k, props[k], ids);
        if props[k].Obj? {
          WholeObject(props[k].fields);
        }
      }
    }
  }

  lemma ResolvedKey(props: Props, ids: Ids, k: string)
    requires TopPlain(props) && Resolvable(Obj(props), ids) && NoRefs(Get(props, k))
    ensures Get(ResolveProps(props, ids), k) == Get(props, k)
  {
    ResolvePlainFields(props, ids);
    if k in props {
      ResolveWithoutRefs(props[k], ids);
    }
  }

  lemma ApartResolves(a: Props, b: Props, keysA: seq<string>, keysB: seq<string>, idsA: Ids, idsB: Ids)
    requires Apart(a, b, keysA, keysB)
    requires TopPlain(a) && Resolvable(Obj(a), idsA)
    requires TopPlain(b) && Resolvable(Obj(b), idsB)
    ensures exists k ::
      k in keysA && k in keysB && Get(ResolveProps(a, idsA), k) != Get(ResolveProps(b, idsB), k)
  {
    var k :| k in keysA && k in keysB && NoRefs(Get(a, k)) && NoRefs(Get(b, k)) && Get(a, k) != Get(b, k);
    ResolvedKey(a, idsA, k);
    ResolvedKey(b, idsB, k);
  }
}
