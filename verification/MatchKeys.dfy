/** Two values of one type in one plan: applying it twice is applying it once on every server exactly
    when the later one does not disturb the earlier one. */
module MatchKeys {
  import opened Wrappers
  import opened Json
  import opened PlanApplier
  import opened Convergence
  import opened Separation
  import opened PlanRuns
  import opened PlanTheorems

  /** A value, what it is matched on, and its label. */
  datatype Wanted = Wanted(ref: string, keys: seq<string>, props: Props)

  function TwoPuts(kind: string, x: Wanted, y: Wanted): Plan {
    [Upsert(kind, false, x.keys, [Entry(x.ref, x.props)]), Upsert(kind, false, y.keys, [Entry(y.ref, y.props)])]
  }

  /** The second apply changes no object, binds the same ids and reports no object as updated. */
  predicate Idempotent(plan: Plan, server: Server) {
    var once := ApplyPlan(plan, server);
    var twice := ApplyPlan(plan, once.state.server);
    && once.error.None? && twice.error.None?
    && twice.state.server == once.state.server
    && twice.state.ids == once.state.ids
    && twice.state.updatedIds == []
  }

  /** Both applies go through, and the second binds a label to another id. */
  predicate Rebinds(plan: Plan, server: Server) {
    var once := ApplyPlan(plan, server);
    var twice := ApplyPlan(plan, once.state.server);
    once.error.None? && twice.error.None? && twice.state.ids != once.state.ids
  }

  /** No reference, no secret, and matched on properties a read shows. */
  predicate IsClear(x: Wanted) {
    x.keys != [] && Clear(x.props) && forall k | k in x.keys :: k !in WRITE_ONLY_KEYS
  }

  // --- what the plan does to the collection ------------------------------------------------------

  lemma {:induction false} NoRefsResolves(j: Json, ids: Ids)
    requires NoRefs(j)
    ensures Resolvable(j, ids) && Resolve(j, ids) == j
  {
    match j
    case List(items) =>
      forall i | 0 <= i < |items| ensures Resolvable(items[i], ids) { NoRefsResolves(items[i], ids); }
      ResolveWithoutRefs(j, ids);
    case Obj(fields) =>
      forall k | k in fields ensures Resolvable(fields[k], ids) { NoRefsResolves(fields[k], ids); }
      ResolveWithoutRefs(j, ids);
    case _ =>
  }

  function StepOf(kind: string, x: Wanted): Step {
    Put(kind, x.keys, x.ref, x.props)
  }

  lemma ClearStepOk(kind: string, x: Wanted)
    requires IsClear(x)
    ensures StepOk(StepOf(kind, x)) && Whole(x.props) && ValueReadable(x.keys, x.props)
  {
    forall k | k in x.keys ensures Strip(Get(x.props, k)) == Get(x.props, k)
                           ensures k in x.props ==> Plain(x.props[k]) && !IsWriteOnly(k, x.props[k])
    {
      if k in x.props {
        WholeField(x.props, k);
        NoRefsIsPlain(x.props[k]);
      }
    }
  }

  /** What a put reports as updated. */
  function Reported(objects: Collection, x: Wanted): seq<string> {
    if IsCreated(objects, x.keys, x.props) || PlacedVisible(objects, x.keys, x.props) == map[] then []
    else [PlacedId(objects, x.keys, x.props)]
  }

  lemma ClearPut(kind: string, x: Wanted, state: State)
    requires IsClear(x) && GoodServer(state.server)
    ensures var objects := CollectionOf(state.server, kind);
            var outcome := RunStep(StepOf(kind, x), state);
            && outcome.error.None?
            && outcome.state.server ==
               state.server.(objects := state.server.objects[kind := Place(objects, x.keys, x.props)])
            && outcome.state.ids == state.ids[x.ref := PlacedId(objects, x.keys, x.props)]
            && outcome.state.updatedIds == state.updatedIds + Reported(objects, x)
            && GoodServer(outcome.state.server)
  {
    hide Place, PlacedId, PlacedVisible, IsCreated, UpsertValue, Resolvable, Resolve, NoRefs;
    var objects := CollectionOf(state.server, kind);
    NoRefsResolves(Obj(x.props), state.ids);
    PlaceIsUpsert(kind, x.keys, x.ref, x.props, state);
    PlaceKeepsIds(objects, x.keys, x.props);
  }

  /** The collection after the plan. */
  function Placed(objects: Collection, x: Wanted, y: Wanted): Collection {
    Place(Place(objects, x.keys, x.props), y.keys, y.props)
  }

  lemma TwoPutsApply(kind: string, x: Wanted, y: Wanted, server: Server)
    requires IsClear(x) && IsClear(y) && GoodServer(server)
    ensures var objects := CollectionOf(server, kind);
            var half := Place(objects, x.keys, x.props);
            var outcome := ApplyPlan(TwoPuts(kind, x, y), server);
            && outcome.error.None?
            && outcome.state.server == server.(objects := server.objects[kind := Placed(objects, x, y)])
            && outcome.state.ids ==
               map[x.ref := PlacedId(objects, x.keys, x.props)][y.ref := PlacedId(half, y.keys, y.props)]
            && outcome.state.updatedIds == Reported(objects, x) + Reported(half, y)
            && GoodServer(outcome.state.server)
  {
    hide StepOk, RunStep, Place, PlacedId, Reported, GoodServer, IsClear, ApplyOperations;
    var plan, first, second := TwoPuts(kind, x, y), StepOf(kind, x), StepOf(kind, y);
    assert KeysOf(x) && KeysOf(y) by { NotEmptyKeys(x); NotEmptyKeys(y); }
    StepsOfTwo(kind, x, y);
    ClearStepOk(kind, x);
    ClearStepOk(kind, y);
    ApplyIsRunSteps(plan, Fresh(server));
    ClearPut(kind, x, Fresh(server));
    var middle := RunStep(first, Fresh(server)).state;
    ClearPut(kind, y, middle);
    RunOfTwo(first, second, Fresh(server));
    var none: Ids := map[];
    assert none[x.ref := PlacedId(CollectionOf(server, kind), x.keys, x.props)] ==
           map[x.ref := PlacedId(CollectionOf(server, kind), x.keys, x.props)];
    assert server.objects[kind := Place(CollectionOf(server, kind), x.keys, x.props)]
        [kind := Placed(CollectionOf(server, kind), x, y)] ==
            server.objects[kind := Placed(CollectionOf(server, kind), x, y)];
  }

  lemma RunOfTwo(first: Step, second: Step, state: State)
    requires RunStep(first, state).error.None?
    ensures RunSteps([first, second], state) == RunStep(second, RunStep(first, state).state)
  {
    hide RunStep;
    assert [first, second][1..] == [second] && [second][1..] == [];
    var middle := RunStep(first, state).state;
    assert RunSteps([second], middle) ==
           if RunStep(second, middle).error.Some? then RunStep(second, middle)
               else RunSteps([], RunStep(second, middle).state);
  }

  predicate KeysOf(x: Wanted) {
    x.keys != []
  }

  lemma NotEmptyKeys(x: Wanted)
    requires IsClear(x)
    ensures KeysOf(x)
  {
  }

  lemma OneStep(kind: string, x: Wanted)
    ensures EntrySteps(kind, x.keys, [Entry(x.ref, x.props)]) == [StepOf(kind, x)]
  {
    assert [Entry(x.ref, x.props)][1..] == [];
    assert EntrySteps(kind, x.keys, []) == [];
  }

  lemma StepsOfTwo(kind: string, x: Wanted, y: Wanted)
    requires KeysOf(x) && KeysOf(y)
    ensures Steps(TwoPuts(kind, x, y)) == [StepOf(kind, x), StepOf(kind, y)]
    ensures Declarative(TwoPuts(kind, x, y)) && OperationsApart(TwoPuts(kind, x, y))
  {
    var plan := TwoPuts(kind, x, y);
    assert plan[1..] == [plan[1]] && plan[1..][1..] == [];
    assert Steps(plan[1..]) == OperationSteps(plan[1]) + Steps([]);
    OneStep(kind, x);
    OneStep(kind, y);
  }

  // --- undisturbed: a second apply is a no-op ----------------------------------------------------

  lemma SettledReportsNothing(objects: Collection, x: Wanted)
    requires IsClear(x) && Settled(objects, x.keys, x.props)
    ensures Place(objects, x.keys, x.props) == objects && Reported(objects, x) == []
  {
    SettledPlace(objects, x.keys, x.props);
    forall k | k in x.props ensures Strip(x.props[k]) == x.props[k] {
      WholeField(x.props, k);
    }
  }

  lemma UndisturbedIsIdempotent(kind: string, x: Wanted, y: Wanted, server: Server)
    requires IsClear(x) && IsClear(y) && x.ref != y.ref && GoodServer(server)
    requires !Disturbs(x.props, x.keys, y.props, y.keys)
    ensures Idempotent(TwoPuts(kind, x, y), server)
  {
    hide Place, PlacedId, Settled, Reported, ApplyPlan, Disturbs;
    var objects := CollectionOf(server, kind);
    var half, full := Place(objects, x.keys, x.props), Placed(objects, x, y);
    TwoPutsApply(kind, x, y, server);
    var once := ApplyPlan(TwoPuts(kind, x, y), server).state.server;
    TwoPutsApply(kind, x, y, once);
    ClearStepOk(kind, x);
    ClearStepOk(kind, y);
    PlaceSettles(objects, x.keys, x.props);
    UndisturbedStaysSettled(half, x.keys, x.props, y.keys, y.props);
    PlaceSettles(half, y.keys, y.props);
    SettledReportsNothing(full, x);
    SettledReportsNothing(full, y);
    assert once.objects[kind := full] == once.objects;
  }

  // --- disturbed: a server on which it is not ----------------------------------------------------

  function Only(props: Props, keys: seq<string>): Props {
    map k | k in props && k in keys :: props[k]
  }

  lemma FirstOf(objects: Collection, keys: seq<string>, value: Props, i: nat)
    requires i < |objects| && forall j | 0 <= j <= i :: Whole(objects[j].props)
    requires Matches(objects[i].props, keys, value) && forall j | 0 <= j < i :: !Matches(objects[j].props, keys, value)
    ensures FirstMatch(Read(objects), keys, value) == i
    ensures Whole(value) ==> var held := objects[i].props;
              Place(objects, keys, value) == objects[i := Object(objects[i].id, held + PatchOf(value, keys, held))]
  {
    assert forall j | 0 <= j <= i :: Read(objects)[j].props == objects[j].props;
    FirstMatchIs(Read(objects), keys, value, i);
  }

  lemma WholeSum(a: Props, b: Props)
    requires Whole(a) && Whole(b)
    ensures Whole(a + b)
  {
    WholeObject(a);
    WholeObject(b);
    WholeObject(a + b);
  }

  lemma WholeOnly(props: Props, keys: seq<string>)
    requires Whole(props)
    ensures Whole(Only(props, keys))
  {
    WholeObject(props);
    WholeObject(Only(props, keys));
  }

  /** The one object both values are on before `y` overwrites a property of `x`. */
  function Shared(x: Wanted, y: Wanted): Props {
    x.props + Only(y.props, y.keys)
  }

  lemma SharedMatches(x: Wanted, y: Wanted)
    requires IsClear(x) && IsClear(y) && Overwrites(x.props, x.keys, y.props, y.keys)
    ensures Matches(Shared(x, y), x.keys, x.props) && Matches(Shared(x, y), y.keys, y.props) && Whole(Shared(x, y))
    ensures forall k | k in x.props && k !in x.keys :: Get(Shared(x, y), k) == x.props[k]
  {
    WholeOnly(y.props, y.keys);
    WholeSum(x.props, Only(y.props, y.keys));
  }

  lemma OverwrittenServer(kind: string, x: Wanted, y: Wanted) returns (server: Server)
    requires IsClear(x) && IsClear(y) && Overwrites(x.props, x.keys, y.props, y.keys)
    ensures GoodServer(server) && !Idempotent(TwoPuts(kind, x, y), server)
  {
    hide Place, PlacedId, FirstMatch, PatchOf, ApplyPlan, Matches, StripProps;
    var q := Shared(x, y);
    var objects := [Object("q", q)];
    server := Server(map[kind := objects], map[]);
    SharedMatches(x, y);
    FirstOf(objects, x.keys, x.props, 0);
    NothingToSend(q, x);
    assert Place(objects, x.keys, x.props) == objects;
    FirstOf(objects, y.keys, y.props, 0);
    var over := q + PatchOf(y.props, y.keys, q);
    var full := [Object("q", over)];
    assert Placed(objects, x, y) == full;
    TwoPutsApply(kind, x, y, server);
    var once := ApplyPlan(TwoPuts(kind, x, y), server).state.server;
    TwoPutsApply(kind, x, y, once);
    OverwrittenIsSeen(x, y, full);
  }

  lemma NothingToSend(q: Props, x: Wanted)
    requires IsClear(x) && forall k | k in x.props && k !in x.keys :: Get(q, k) == x.props[k]
    ensures q + PatchOf(x.props, x.keys, q) == q
  {
    forall k ensures k !in PatchOf(x.props, x.keys, q) {
      WholePatch(x.props, x.keys, q, k);
    }
  }

  /** After the overwrite the next apply of `x` adds an object or reports one. */
  lemma OverwrittenIsSeen(x: Wanted, y: Wanted, full: Collection)
    requires IsClear(x) && IsClear(y) && Overwrites(x.props, x.keys, y.props, y.keys)
    requires full == [Object("q", Shared(x, y) + PatchOf(y.props, y.keys, Shared(x, y)))]
    ensures |Placed(full, x, y)| > 1 || Reported(full, x) != []
  {
    hide PatchOf, StripProps;
    var q := Shared(x, y);
    var over := full[0].props;
    SharedMatches(x, y);
    var k :| k in y.props && k !in y.keys && (k in x.keys || k in x.props) && y.props[k] != Get(x.props, k);
    assert StripProps(q) == q by { WholeRead(q); }
    ReadAfter(q, y.keys, y.props, k);
    assert Get(StripProps(over), k) == y.props[k];
    if FirstMatch(Read(full), x.keys, x.props) == 0 {
      assert Read(full)[0].props == StripProps(over);
      assert k in x.keys ==> Get(StripProps(over), k) == Get(x.props, k);
      WholeField(x.props, k);
      assert k in PlacedVisible(full, x.keys, x.props);
    } else {
      PlaceGrows(Place(full, x.keys, x.props), y);
    }
  }

  lemma WholeRead(q: Props)
    requires Whole(q)
    ensures StripProps(q) == q
  {
  }

  lemma PlaceGrows(objects: Collection, y: Wanted)
    ensures |Place(objects, y.keys, y.props)| >= |objects|
  {
  }

  /** Any other value. */
  function Another(j: Json): Json {
    if j == Num(0) then Num(1) else Num(0)
  }

  /** An object `y` is matched on that lacks one match property of `x`, which `y` sends. */
  function Near(x: Wanted, y: Wanted, k: string): Props {
    (Only(x.props, x.keys) + y.props)[k := Another(Get(x.props, k))]
  }

  lemma NearMatches(x: Wanted, y: Wanted, k: string)
    requires IsClear(x) && IsClear(y) && Steals(x.props, x.keys, y.props, y.keys)
    requires k in x.keys && k in y.props && k !in y.keys
    ensures var q := Near(x, y, k);
            && Whole(q) && Matches(q, y.keys, y.props) && !Matches(q, x.keys, x.props)
            && Matches(q + PatchOf(y.props, y.keys, q), x.keys, x.props)
            && Whole(q + PatchOf(y.props, y.keys, q))
  {
    hide PatchOf, StripProps, Whole;
    var q := Near(x, y, k);
    NearIsWhole(x, y, k);
    assert Get(q, k) != Get(x.props, k);
    var after := q + PatchOf(y.props, y.keys, q);
    forall p | p in x.keys ensures Get(after, p) == Get(x.props, p) {
      NearAfter(x, y, k, p);
    }
    NearPatchIsWhole(q, y);
  }

  lemma NearAfter(x: Wanted, y: Wanted, k: string, p: string)
    requires IsClear(y) && Steals(x.props, x.keys, y.props, y.keys)
    requires k in x.keys && k in y.props && k !in y.keys && p in x.keys
    ensures var q := Near(x, y, k); Get(q + PatchOf(y.props, y.keys, q), p) == Get(x.props, p)
  {
    hide PatchOf;
    var q := Near(x, y, k);
    WholePatch(y.props, y.keys, q, p);
  }

  lemma NearIsWhole(x: Wanted, y: Wanted, k: string)
    requires IsClear(x) && IsClear(y) && k in y.props
    ensures Whole(Near(x, y, k))
  {
    hide Whole;
    var a: Props := map[k := Another(Get(x.props, k))];
    WholeOnly(x.props, x.keys);
    WholeSum(Only(x.props, x.keys), y.props);
    WholeField(y.props, k);
    NumberIsWhole(k, x);
    assert Near(x, y, k) == Only(x.props, x.keys) + y.props + a;
    WholeSum(Only(x.props, x.keys) + y.props, a);
  }

  lemma NumberIsWhole(k: string, x: Wanted)
    requires k !in WRITE_ONLY_KEYS
    ensures Whole(map[k := Another(Get(x.props, k))])
  {
    var a: Props := map[k := Another(Get(x.props, k))];
    WholeObject(a);
  }

  lemma NearPatchIsWhole(q: Props, y: Wanted)
    requires Whole(q) && IsClear(y)
    ensures Whole(q + PatchOf(y.props, y.keys, q))
  {
    var patch := PatchOf(y.props, y.keys, q);
    forall k | k in patch ensures !IsWriteOnly(k, patch[k]) && Strip(patch[k]) == patch[k] {
      WholePatch(y.props, y.keys, q, k);
      WholeField(y.props, k);
    }
    WholeObject(patch);
    WholeSum(q, patch);
  }

  /** The server before, and what each apply leaves of it. */
  lemma StolenPlaces(x: Wanted, y: Wanted, k: string) returns (objects: Collection)
    requires IsClear(x) && IsClear(y) && Steals(x.props, x.keys, y.props, y.keys)
    requires k in x.keys && k in y.props && k !in y.keys
    ensures GoodIds(objects)
    ensures PlacedId(objects, x.keys, x.props) == "o" && PlacedId(Placed(objects, x, y), x.keys, x.props) == "q"
  {
    hide PatchOf, Matches, StripProps, Near, Steals, FirstMatch, IsClear;
    var q := Near(x, y, k);
    NearMatches(x, y, k);
    ClearIsWhole(x);
    ClearIsWhole(y);
    objects := [Object("q", q), Object("o", x.props)];
    MatchesItself(x.keys, x.props);
    FirstOf(objects, x.keys, x.props, 1);
    NothingToSendItself(x);
    assert Place(objects, x.keys, x.props) == objects;
    FirstOf(objects, y.keys, y.props, 0);
    var full := [Object("q", q + PatchOf(y.props, y.keys, q)), Object("o", x.props)];
    assert Placed(objects, x, y) == full;
    FirstOf(full, x.keys, x.props, 0);
  }

  lemma ClearIsWhole(x: Wanted)
    requires IsClear(x)
    ensures Whole(x.props)
  {
  }

  lemma NothingToSendItself(x: Wanted)
    requires IsClear(x)
    ensures x.props + PatchOf(x.props, x.keys, x.props) == x.props
  {
    NothingToSend(x.props, x);
  }

  lemma StolenServer(kind: string, x: Wanted, y: Wanted) returns (server: Server)
    requires IsClear(x) && IsClear(y) && x.ref != y.ref && Steals(x.props, x.keys, y.props, y.keys)
    ensures GoodServer(server) && !Idempotent(TwoPuts(kind, x, y), server) && Rebinds(TwoPuts(kind, x, y), server)
  {
    hide ApplyPlan, Place, PlacedId, Steals, IsClear, Reported;
    var k :| k in x.keys && k in y.props && k !in y.keys by { SomeKey(x, y); }
    var objects := StolenPlaces(x, y, k);
    server := Server(map[kind := objects], map[]);
    TwoPutsApply(kind, x, y, server);
    var once := ApplyPlan(TwoPuts(kind, x, y), server).state;
    TwoPutsApply(kind, x, y, once.server);
    var twice := ApplyPlan(TwoPuts(kind, x, y), once.server).state;
    assert once.ids[x.ref] == "o" && twice.ids[x.ref] == "q";
  }

  lemma SomeKey(x: Wanted, y: Wanted)
    requires Steals(x.props, x.keys, y.props, y.keys)
    ensures exists k :: k in x.keys && k in y.props && k !in y.keys
  {
  }

  // --- both directions -------------------------------------------------------------------------

  /** A plan of two values of one type is a no-op the second time, on every server, if and only if
      the later value neither moves another object to where the earlier one looks nor overwrites it. */
  lemma IdempotentExactly(kind: string, x: Wanted, y: Wanted)
    requires IsClear(x) && IsClear(y) && x.ref != y.ref
    ensures (forall server | GoodServer(server) :: Idempotent(TwoPuts(kind, x, y), server))
            <==> !Disturbs(x.props, x.keys, y.props, y.keys)
  {
    hide Idempotent, Steals, Overwrites, GoodServer, IsClear;
    if Steals(x.props, x.keys, y.props, y.keys) {
      var server := StolenServer(kind, x, y);
    } else if Overwrites(x.props, x.keys, y.props, y.keys) {
      var server := OverwrittenServer(kind, x, y);
    } else {
      forall server | GoodServer(server) ensures Idempotent(TwoPuts(kind, x, y), server) {
        UndisturbedIsIdempotent(kind, x, y, server);
      }
    }
  }

  /** Values a shared match key tells apart never disturb each other. */
  lemma ApartIsUndisturbed(x: Wanted, y: Wanted)
    requires Apart(x.props, y.props, x.keys, y.keys)
    ensures !Disturbs(x.props, x.keys, y.props, y.keys)
  {
  }

  const ACCOUNT: Wanted := Wanted("x", ["name", "zone"], map["name" := Str("a"), "zone" := Num(1)])
  const HOST: Wanted := Wanted("y", ["host"], map["host" := Str("b"), "zone" := Num(1)])

  lemma HostStealsAccount()
    ensures IsClear(ACCOUNT) && IsClear(HOST)
    ensures Steals(ACCOUNT.props, ACCOUNT.keys, HOST.props, HOST.keys)
  {
    PlainTextIsClear(ACCOUNT.props);
    PlainTextIsClear(HOST.props);
    assert ACCOUNT.keys[1] == "zone";
    assert "zone" in ACCOUNT.keys && "zone" in HOST.props && "zone" !in HOST.keys;
  }

  /** Two values with unique labels and different match properties, and a server on which applying them
      again binds the first one to another object. */
  lemma TwoKeyListsAreNotIdempotent() returns (plan: Plan, server: Server)
    ensures PlanReadable(plan) && LabelsUnique(Steps(plan)) && GoodServer(server) && Rebinds(plan, server)
  {
    hide IsClear, Steals, StepOk, Idempotent, Rebinds;
    HostStealsAccount();
    plan := TwoPuts("Account", ACCOUNT, HOST);
    server := StolenServer("Account", ACCOUNT, HOST);
    StepsOfTwo("Account", ACCOUNT, HOST);
    ClearStepOk("Account", ACCOUNT);
    ClearStepOk("Account", HOST);
  }

  lemma PlainTextIsClear(props: Props)
    requires forall k | k in props ::
      !IsRef(k) && k !in WRITE_ONLY_KEYS && (props[k].Num? || (props[k].Str? && !IsRef(props[k].s)))
    ensures Clear(props)
  {
    WholeObject(props);
  }
}
