/** A Stalwart server as typed collections of objects plus singletons, and the applier that brings
    it to a plan. Each operation is a function on values; the classes below run it in place. */
module PlanApplier {
  import opened Wrappers
  import opened Json

  // --- server ----------------------------------------------------------------------------

  datatype Object = Object(id: string, props: Props)

  type Collection = seq<Object>

  datatype Server = Server(objects: map<string, Collection>, singletons: map<string, Props>)

  const SINGLETON_TYPES: set<string> :=
    {"Bootstrap", "SystemSettings", "Coordinator", "DataStore", "BlobStore", "SearchStore", "InMemoryStore",
     "MtaOutboundStrategy", "MtaStageAuth", "DnsResolver", "SpamSettings", "Enterprise", "Http", "Jmap", "Imap",
     "OidcProvider", "Security", "Cache", "TaskManager", "Metrics"}

  function CollectionOf(server: Server, kind: string): Collection {
    if kind in server.objects then server.objects[kind] else []
  }

  function SingletonOf(server: Server, kind: string): Props {
    if kind in server.singletons then server.singletons[kind] else map[]
  }

  /** What a get returns: the objects in order, without their secrets. */
  function Read(objects: Collection): Collection {
    seq(|objects|, i requires 0 <= i < |objects| => Object(objects[i].id, StripProps(objects[i].props)))
  }

  predicate DistinctIds(objects: Collection) {
    forall i, j | 0 <= i < j < |objects| :: objects[i].id != objects[j].id
  }

  predicate GoodIds(objects: Collection) {
    DistinctIds(objects) && forall i | 0 <= i < |objects| :: objects[i].id != ""
  }

  predicate GoodServer(server: Server) {
    forall kind | kind in server.objects :: GoodIds(server.objects[kind])
  }

  /** An id no object of the collection has; the server's own choice is not modelled. */
  function FreshId(objects: Collection): (id: string)
    ensures id != ""
    ensures forall i | 0 <= i < |objects| :: |objects[i].id| < |id|
  {
    if objects == [] then "x" else FreshId(objects[1..]) + objects[0].id
  }

  function Create(server: Server, kind: string, props: Props): (Server, Object) {
    var objects := CollectionOf(server, kind);
    var created := Object(FreshId(objects), props);
    (server.(objects := server.objects[kind := objects + [created]]), created)
  }

  function PatchById(objects: Collection, id: string, patch: Props): Collection {
    seq(|objects|, i requires 0 <= i < |objects| =>
      if objects[i].id == id then Object(id, objects[i].props + patch) else objects[i])
  }

  predicate HasId(objects: Collection, id: string) {
    exists i | 0 <= i < |objects| :: objects[i].id == id
  }

  function Update(server: Server, kind: string, id: string, patch: Props): Server
    requires HasId(CollectionOf(server, kind), id)
  {
    server.(objects := server.objects[kind := PatchById(CollectionOf(server, kind), id, patch)])
  }

  function WriteSingleton(server: Server, kind: string, patch: Props): Server {
    server.(singletons := server.singletons[kind := SingletonOf(server, kind) + patch])
  }

  predicate Satisfies(props: Props, filter: Props) {
    forall k | k in filter :: Get(props, k) == filter[k]
  }

  function QueryIds(objects: Collection, filter: Props): seq<string> {
    if objects == [] then []
    else (if Satisfies(objects[0].props, filter) then [objects[0].id] else []) + QueryIds(objects[1..], filter)
  }

  function WithoutId(objects: Collection, id: string): Collection {
    if objects == [] then []
    else (if objects[0].id == id then [] else [objects[0]]) + WithoutId(objects[1..], id)
  }

  function Delete(server: Server, kind: string, id: string): Server {
    server.(objects := server.objects[kind := WithoutId(CollectionOf(server, kind), id)])
  }

  // --- plan ------------------------------------------------------------------------------

  /** An operation's value is a dict of labels in order. */
  datatype Entry = Entry(ref: string, props: Props)

  datatype Operation =
    | Upsert(kind: string, create: bool, matchOn: seq<string>, entries: seq<Entry>)
    | UpdateOne(kind: string, id: string, props: Props)
    | Destroy(kind: string, filter: Props)
    | Unsupported

  type Plan = seq<Operation>

  datatype PlanError = UnknownRef | UnsupportedKind | NeedsId | NotFound

  /** The server together with what the applier keeps: ids by label, and its report. */
  datatype State = State(server: Server, ids: Ids, updatedIds: seq<string>, unchangedIds: seq<string>,
                         destroyedIds: seq<string>)

  /** A raised error leaves whatever was done before it. */
  datatype Outcome = Outcome(state: State, error: Option<PlanError>)

  function MatchKeys(matchOn: seq<string>): seq<string> {
    if matchOn == [] then ["name"] else matchOn
  }

  predicate Matches(held: Props, keys: seq<string>, value: Props) {
    forall k | k in keys :: Get(held, k) == Get(value, k)
  }

  /** The position of the first match, or the length when none matches. */
  function FirstMatch(existing: Collection, keys: seq<string>, value: Props): (i: nat)
    ensures i <= |existing|
    ensures i < |existing| ==> Matches(existing[i].props, keys, value)
    ensures forall j | 0 <= j < i :: !Matches(existing[j].props, keys, value)
  {
    if existing == [] then 0
    else if Matches(existing[0].props, keys, value) then 0
    else
      var rest := FirstMatch(existing[1..], keys, value);
      assert rest < |existing[1..]| ==> existing[1..][rest] == existing[rest + 1];
      assert forall j | 1 <= j < rest + 1 :: existing[j] == existing[1..][j - 1];
      rest + 1
  }

  function Visible(value: Props, keys: seq<string>, held: Props): Props {
    map k | k in value && k !in keys && k != "credentials" && !IsWriteOnly(k, value[k])
            && Get(held, k) != value[k] :: value[k]
  }

  function Secrets(value: Props): Props {
    map k | k in value && k != "credentials" && IsWriteOnly(k, value[k]) :: value[k]
  }

  function PatchOf(value: Props, keys: seq<string>, held: Props): Props {
    Visible(value, keys, held) + Secrets(value)
  }

  /** One resolved value of an upsert against the list read earlier: the list and the state after. */
  function UpsertValue(kind: string, keys: seq<string>, existing: Collection, ref: string, value: Props,
                       state: State): (Collection, Outcome)
  {
    var i := FirstMatch(existing, keys, value);
    if i == |existing| then
      var (server, created) := Create(state.server, kind, value);
      (existing + [created], Outcome(state.(server := server, ids := state.ids[ref := created.id]), None))
    else
      var id := existing[i].id;
      var visible := Visible(value, keys, existing[i].props);
      var patch := PatchOf(value, keys, existing[i].props);
      var named := state.(ids := state.ids[ref := id]);
      if patch != map[] && !HasId(CollectionOf(state.server, kind), id) then
        (existing, Outcome(named, Some(NotFound)))
      else
        var server := if patch != map[] then Update(state.server, kind, id, patch) else state.server;
        var updatedIds := if visible != map[] then state.updatedIds + [id] else state.updatedIds;
        var unchangedIds := if visible != map[] then state.unchangedIds else state.unchangedIds + [id];
        (existing[i := Object(id, existing[i].props + patch)],
         Outcome(named.(server := server, updatedIds := updatedIds, unchangedIds := unchangedIds), None))
  }

  function UpsertEntry(kind: string, keys: seq<string>, existing: Collection, entry: Entry, state: State):
      (Collection, Outcome)
  {
    if !Resolvable(Obj(entry.props), state.ids) then (existing, Outcome(state, Some(UnknownRef)))
    else UpsertValue(kind, keys, existing, entry.ref, ResolveProps(entry.props, state.ids), state)
  }

  function UpsertEntries(kind: string, keys: seq<string>, existing: Collection, entries: seq<Entry>,
                         state: State): Outcome
    decreases |entries|
  {
    if entries == [] then Outcome(state, None)
    else
      var (after, outcome) := UpsertEntry(kind, keys, existing, entries[0], state);
      if outcome.error.Some? then outcome else UpsertEntries(kind, keys, after, entries[1..], outcome.state)
  }

  function UpdateOperation(op: Operation, state: State): Outcome
    requires op.UpdateOne?
  {
    if !Resolvable(Obj(op.props), state.ids) then Outcome(state, Some(UnknownRef))
    else
      var value := ResolveProps(op.props, state.ids);
      if op.id != "" then
        if IsRef(op.id) && op.id[1..] !in state.ids then Outcome(state, Some(UnknownRef))
        else
          var id := ResolveText(op.id, state.ids);
          if !HasId(CollectionOf(state.server, op.kind), id) then Outcome(state, Some(NotFound))
          else
            var server := Update(state.server, op.kind, id, value);
            Outcome(state.(server := server, updatedIds := state.updatedIds + [id]), None)
      else if op.kind in SINGLETON_TYPES then
        Outcome(state.(server := WriteSingleton(state.server, op.kind, value),
                       updatedIds := state.updatedIds + [op.kind + "/singleton"]), None)
      else Outcome(state, Some(NeedsId))
  }

  function DestroyIds(kind: string, ids: seq<string>, state: State): State {
    if ids == [] then state
    else DestroyIds(kind, ids[1..],
                    state.(server := Delete(state.server, kind, ids[0]), destroyedIds := state.destroyedIds + [ids[0]]))
  }

  function DestroyOperation(op: Operation, state: State): Outcome
    requires op.Destroy?
  {
    if !Resolvable(Obj(op.filter), state.ids) then Outcome(state, Some(UnknownRef))
    else
      var filter := ResolveProps(op.filter, state.ids);
      Outcome(DestroyIds(op.kind, QueryIds(CollectionOf(state.server, op.kind), filter), state), None)
  }

  function ApplyOperation(op: Operation, state: State): Outcome {
    match op
    case Upsert(kind, _, matchOn, entries) =>
      UpsertEntries(kind, MatchKeys(matchOn), Read(CollectionOf(state.server, kind)), entries, state)
    case UpdateOne(_, _, _) => UpdateOperation(op, state)
    case Destroy(_, _) => DestroyOperation(op, state)
    case Unsupported => Outcome(state, Some(UnsupportedKind))
  }

  function ApplyOperations(plan: Plan, state: State): Outcome {
    if plan == [] then Outcome(state, None)
    else
      var outcome := ApplyOperation(plan[0], state);
      if outcome.error.Some? then outcome else ApplyOperations(plan[1..], outcome.state)
  }

  function Fresh(server: Server): State {
    State(server, map[], [], [], [])
  }

  /** `StalwartClient.apply`: every call has an applier of its own. */
  function ApplyPlan(plan: Plan, server: Server): Outcome {
    ApplyOperations(plan, Fresh(server))
  }

  // --- classes ---------------------------------------------------------------------------

  /** The typed services of one server; each method is one request. */
  class StalwartClient {
    var server: Server

    constructor (server: Server)
      ensures this.server == server
    {
      this.server := server;
    }

    method GetAll(kind: string) returns (objects: Collection)
      ensures objects == Read(CollectionOf(server, kind))
    {
      objects := Read(CollectionOf(server, kind));
    }

    method CreateObject(kind: string, props: Props) returns (created: Object)
      modifies this
      ensures (server, created) == Create(old(server), kind, props)
    {
      var (after, object_) := Create(server, kind, props);
      server := after;
      created := object_;
    }

    method UpdateObject(kind: string, id: string, patch: Props) returns (found: bool)
      modifies this
      ensures found == HasId(CollectionOf(old(server), kind), id)
      ensures server == if found then Update(old(server), kind, id, patch) else old(server)
    {
      found := HasId(CollectionOf(server, kind), id);
      if found {
        server := Update(server, kind, id, patch);
      }
    }

    method WriteSingletonObject(kind: string, patch: Props)
      modifies this
      ensures server == WriteSingleton(old(server), kind, patch)
    {
      server := WriteSingleton(server, kind, patch);
    }

    method DeleteObject(kind: string, id: string)
      modifies this
      ensures server == Delete(old(server), kind, id)
    {
      server := Delete(server, kind, id);
    }
  }

  class Applier {
    const client: StalwartClient
    var ids: Ids
    var updatedIds: seq<string>
    var unchangedIds: seq<string>
    var destroyedIds: seq<string>

    constructor (client: StalwartClient)
      ensures this.client == client
      ensures Current() == Fresh(client.server)
    {
      this.client := client;
      ids, updatedIds, unchangedIds, destroyedIds := map[], [], [], [];
    }

    function Current(): State
      reads this, client
    {
      State(client.server, ids, updatedIds, unchangedIds, destroyedIds)
    }

    method Apply(plan: Plan) returns (error: Option<PlanError>)
      modifies this, client
      ensures Outcome(Current(), error) == ApplyOperations(plan, old(Current()))
    {
      error := None;
      for n := 0 to |plan|
        invariant error.None?
        invariant ApplyOperations(plan, old(Current())) == ApplyOperations(plan[n..], Current())
      {
        var operation := plan[n];
        assert plan[n..][0] == operation && plan[n..][1..] == plan[n + 1..];
        match operation {
          case Upsert(_, _, _, _) => error := ApplyUpsert(operation);
          case UpdateOne(_, _, _) => error := ApplyUpdate(operation);
          case Destroy(_, _) => error := ApplyDestroy(operation);
          case Unsupported => error := Some(UnsupportedKind);
        }
        if error.Some? {
          return;
        }
      }
      assert plan[|plan|..] == [];
    }

    method ApplyUpsert(op: Operation) returns (error: Option<PlanError>)
      requires op.Upsert?
      modifies this, client
      ensures Outcome(Current(), error) == ApplyOperation(op, old(Current()))
    {
      hide Resolvable, ResolveProps, FirstMatch, Visible, Secrets, Read, MatchKeys, PatchById, FreshId;
      var kind, keys := op.kind, MatchKeys(op.matchOn);
      var existing := client.GetAll(kind);
      ghost var atStart := existing;
      error := None;
      for n := 0 to |op.entries|
        invariant UpsertEntries(kind, keys, atStart, op.entries, old(Current()))
               == UpsertEntries(kind, keys, existing, op.entries[n..], Current())
      {
        var entry := op.entries[n];
        assert op.entries[n..][0] == entry && op.entries[n..][1..] == op.entries[n + 1..];
        if !Resolvable(Obj(entry.props), ids) {
          error := Some(UnknownRef);
          return;
        }
        var value := ResolveProps(entry.props, ids);
        var i := FirstMatch(existing, keys, value);
        if i == |existing| {
          var created := client.CreateObject(kind, value);
          existing := existing + [created];
          ids := ids[entry.ref := created.id];
        } else {
          var id, held := existing[i].id, existing[i].props;
          ids := ids[entry.ref := id];
          var visible := Visible(value, keys, held);
          var patch := visible + Secrets(value);
          if patch != map[] {
            var found := client.UpdateObject(kind, id, patch);
            if !found {
              error := Some(NotFound);
              return;
            }
          }
          existing := existing[i := Object(id, held + patch)];
          if visible != map[] {
            updatedIds := updatedIds + [id];
          } else {
            unchangedIds := unchangedIds + [id];
          }
        }
      }
    }

    method ApplyUpdate(op: Operation) returns (error: Option<PlanError>)
      requires op.UpdateOne?
      modifies this, client
      ensures Outcome(Current(), error) == ApplyOperation(op, old(Current()))
    {
      if !Resolvable(Obj(op.props), ids) {
        return Some(UnknownRef);
      }
      var value := ResolveProps(op.props, ids);
      if op.id != "" {
        if IsRef(op.id) && op.id[1..] !in ids {
          return Some(UnknownRef);
        }
        var id := ResolveText(op.id, ids);
        var found := client.UpdateObject(op.kind, id, value);
        if !found {
          return Some(NotFound);
        }
        updatedIds := updatedIds + [id];
      } else if op.kind in SINGLETON_TYPES {
        client.WriteSingletonObject(op.kind, value);
        updatedIds := updatedIds + [op.kind + "/singleton"];
      } else {
        return Some(NeedsId);
      }
      error := None;
    }

    method ApplyDestroy(op: Operation) returns (error: Option<PlanError>)
      requires op.Destroy?
      modifies this, client
      ensures Outcome(Current(), error) == ApplyOperation(op, old(Current()))
    {
      if !Resolvable(Obj(op.filter), ids) {
        return Some(UnknownRef);
      }
      var doomed := QueryIds(CollectionOf(client.server, op.kind), ResolveProps(op.filter, ids));
      for n := 0 to |doomed|
        invariant ids == old(ids)
        invariant DestroyIds(op.kind, doomed, old(Current())) == DestroyIds(op.kind, doomed[n..], Current())
      {
        assert doomed[n..][0] == doomed[n] && doomed[n..][1..] == doomed[n + 1..];
        client.DeleteObject(op.kind, doomed[n]);
        destroyedIds := destroyedIds + [doomed[n]];
      }
      error := None;
    }
  }
}
