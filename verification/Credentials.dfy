/** An account's app passwords or API keys: the cluster holds them, saved rows mirror them. A save
    creates and updates before it commits and revokes after; a rollback revokes what it created. */
module Credentials {
  import opened Wrappers

  // --- rows ----------------------------------------------------------------------------------

  const SITE_LOGIN: string := "Suite Cloud"

  type Id = nat

  datatype Credential = Credential(description: string, expiresAt: string, allowedIps: string)

  /** `minted` marks the row Suite Cloud itself appends; a row without an id is not on the cluster yet. */
  datatype Row = Row(id: Option<Id>, credential: Credential, createdAt: int, minted: bool) {

    predicate IsLogin() {
      credential.description == SITE_LOGIN
    }
  }

  type Cluster = map<Id, Credential>

  datatype Error = LoginRenamed | LoginReserved | LoginListedTwice | TooMany | AccountDisabled

  function Logins(rows: seq<Row>): seq<Row> {
    if rows == [] then [] else (if rows[0].IsLogin() then [rows[0]] else []) + Logins(rows[1..])
  }

  function Others(rows: seq<Row>): seq<Row> {
    if rows == [] then [] else (if rows[0].IsLogin() then [] else [rows[0]]) + Others(rows[1..])
  }

  const MINTED: Row := Row(None, Credential(SITE_LOGIN, "", ""), 0, true)

  // --- what a save may change ------------------------------------------------------------------

  predicate IsKnown(previous: map<Id, Row>, row: Row) {
    row.id.Some? && row.id.value in previous
  }

  /** The Suite Cloud row is neither renamed nor made up. */
  function Refusal(previous: map<Id, Row>, row: Row): Option<Error> {
    var wasLogin := IsKnown(previous, row) && previous[row.id.value].IsLogin();
    var renamed := IsKnown(previous, row) && !previous[row.id.value].IsLogin();
    if wasLogin && !row.IsLogin() then Some(LoginRenamed)
    else if row.IsLogin() && !row.minted && (renamed || row.id.None?) then Some(LoginReserved)
    else None
  }

  function FirstRefusal(previous: map<Id, Row>, rows: seq<Row>): Option<Error> {
    if rows == [] then None
    else if Refusal(previous, rows[0]).Some? then Refusal(previous, rows[0])
    else FirstRefusal(previous, rows[1..])
  }

  /** A credential on the cluster that may make room for the login. */
  predicate MayGo(row: Row) {
    row.id.Some? && !row.IsLogin()
  }

  /** The first of the oldest rows that may go. */
  function OldestFrom(rows: seq<Row>, i: nat): Option<nat>
    requires i <= |rows|
    decreases |rows| - i
  {
    if i == |rows| then None
    else
      var rest := OldestFrom(rows, i + 1);
      if !MayGo(rows[i]) then rest
      else if rest.Some? && rest.value < |rows| && rows[rest.value].createdAt < rows[i].createdAt then rest
      else Some(i)
  }

  function RemoveAt(rows: seq<Row>, k: nat): seq<Row>
    requires k < |rows|
  {
    rows[..k] + rows[k + 1..]
  }

  lemma {:induction false} OldestIs(rows: seq<Row>, i: nat)
    requires i <= |rows|
    ensures var k := OldestFrom(rows, i);
            if k.None? then forall m | i <= m < |rows| :: !MayGo(rows[m])
            else i <= k.value < |rows| && MayGo(rows[k.value])
                 && forall m | i <= m < |rows| && MayGo(rows[m]) :: rows[k.value].createdAt <= rows[m].createdAt
    decreases |rows| - i
  {
    if i < |rows| {
      OldestIs(rows, i + 1);
    }
  }

  /** `make_room`; no limit is 0. */
  function MakeRoom(rows: seq<Row>, limit: nat): seq<Row>
    decreases |rows|
  {
    OldestIs(rows, 0);
    var oldest := OldestFrom(rows, 0);
    if limit == 0 || |rows| <= limit || oldest.None? then rows else MakeRoom(RemoveAt(rows, oldest.value), limit)
  }

  function PlaceLogin(rows: seq<Row>, alwaysPresent: bool, limit: nat): Result<seq<Row>, Error> {
    var logins := Logins(rows);
    if |logins| > 1 then Err(LoginListedTwice)
    else if |logins| == 1 then Ok([logins[0]] + Others(rows))
    else if alwaysPresent then Ok([MINTED] + Others(MakeRoom(rows + [MINTED], limit)))
    else Ok(rows)
  }

  /** `validate` of an account that was enabled or is new. */
  function Validated(previous: map<Id, Row>, rows: seq<Row>, alwaysPresent: bool, limit: nat): Result<seq<Row>, Error> {
    var refusal := FirstRefusal(previous, rows);
    if refusal.Some? then Err(refusal.value)
    else
      var placed := PlaceLogin(rows, alwaysPresent, limit);
      if placed.Ok? && limit > 0 && |placed.value| > limit then Err(TooMany) else placed
  }

  /** What is compared of a row. */
  function Fields(row: Row): (Option<Id>, Credential) {
    (row.id, row.credential)
  }

  /** `keep_mirror`: a disabled account's rows stay as they are. */
  function KeptMirror(before: seq<Row>, rows: seq<Row>): Result<seq<Row>, Error> {
    if (set row | row in rows :: Fields(row)) == (set row | row in before :: Fields(row)) then Ok(rows)
    else Err(AccountDisabled)
  }

  // --- what a save sends -----------------------------------------------------------------------

  /** The rows by their ids. */
  function ById(rows: seq<Row>): map<Id, Row> {
    if rows == [] then map[]
    else
      var row := rows[|rows| - 1];
      var fewer := ById(rows[..|rows| - 1]);
      if row.id.Some? then fewer[row.id.value := row] else fewer
  }

  predicate IsChanged(previous: map<Id, Row>, row: Row) {
    IsKnown(previous, row) && Fields(previous[row.id.value]) != Fields(row)
  }

  function Ids(rows: seq<Row>): set<Id> {
    set i | 0 <= i < |rows| && rows[i].id.Some? :: rows[i].id.value
  }

  /** The rows once each has an id. */
  function WithIds(rows: seq<Row>, next: Id, now: int): seq<Row> {
    if rows == [] then []
    else if rows[0].id.None? then
      [rows[0].(id := Some(next), createdAt := now, minted := false)] + WithIds(rows[1..], next + 1, now)
    else [rows[0].(minted := false)] + WithIds(rows[1..], next, now)
  }

  function Created(rows: seq<Row>, next: Id): Cluster {
    if rows == [] then map[]
    else if rows[0].id.None? then Created(rows[1..], next + 1)[next := rows[0].credential]
    else Created(rows[1..], next)
  }

  function Updated(previous: map<Id, Row>, rows: seq<Row>): Cluster {
    if rows == [] then map[]
    else
      var fewer := Updated(previous, rows[..|rows| - 1]);
      var row := rows[|rows| - 1];
      if IsChanged(previous, row) then fewer[row.id.value := row.credential] else fewer
  }

  /** The cluster once everything went through. */
  function Pushed(cluster: Cluster, previous: map<Id, Row>, rows: seq<Row>, next: Id): Cluster {
    Unrevoked(cluster, previous, rows, next) - (previous.Keys - Ids(rows))
  }

  /** The same before the commit's hook. */
  function Unrevoked(cluster: Cluster, previous: map<Id, Row>, rows: seq<Row>, next: Id): Cluster {
    cluster + Created(rows, next) + Updated(previous, rows)
  }

  /** The ids given to rows when the cluster answers `calls` creates. */
  function Started(rows: seq<Row>, next: Id, calls: nat): set<Id> {
    if rows == [] then {}
    else if rows[0].id.Some? then Started(rows[1..], next, calls)
    else if calls == 0 then {}
    else {next} + Started(rows[1..], next + 1, calls - 1)
  }

  /** The calls a save makes: one per row without an id and one per changed row. */
  function Creates(rows: seq<Row>): nat {
    if rows == [] then 0 else (if rows[0].id.None? then 1 else 0) + Creates(rows[1..])
  }

  function Updates(previous: map<Id, Row>, rows: seq<Row>): nat {
    if rows == [] then 0 else (if IsChanged(previous, rows[0]) then 1 else 0) + Updates(previous, rows[1..])
  }

  /** What a rollback leaves on the cluster: its hook's request may fail like any other, and is not made
      at all when nothing was created. */
  function Leftover(rows: seq<Row>, next: Id, calls: nat, revokes: bool): set<Id> {
    if revokes then {} else Started(rows, next, calls)
  }

  /** `revoked`: the request of the commit's or the rollback's hook went through. */
  datatype Outcome = RolledBack(revoked: bool) | Committed(revoked: bool)

  // --- the account ---------------------------------------------------------------------------

  lemma Rest(rows: seq<Row>, i: nat)
    requires i < |rows|
    ensures rows[i..][0] == rows[i] && rows[i..][1..] == rows[i + 1..]
  {
  }

  lemma {:induction false} CreatedIsNew(rows: seq<Row>, next: Id)
    ensures forall id | id in Created(rows, next) :: id >= next
  {
    if rows != [] {
      CreatedIsNew(rows[1..], if rows[0].id.None? then next + 1 else next);
    }
  }

  class Account {
    var mirror: seq<Row>
    var cluster: Cluster
    var nextId: Id

    predicate Valid()
      reads this
    {
      forall id | id in cluster :: id < nextId
    }

    constructor (mirror: seq<Row>, cluster: Cluster, nextId: Id)
      ensures this.mirror == mirror && this.cluster == cluster && this.nextId == nextId
    {
      this.mirror, this.cluster, this.nextId := mirror, cluster, nextId;
    }

    /** `place_site_login`'s room for the row just appended. */
    method MakeRoomFor(rows: seq<Row>, limit: nat) returns (kept: seq<Row>)
      ensures kept == MakeRoom(rows, limit)
    {
      kept := rows;
      while limit > 0 && |kept| > limit
        invariant MakeRoom(kept, limit) == MakeRoom(rows, limit)
        decreases |kept|
      {
        OldestIs(kept, 0);
        var oldest := OldestFrom(kept, 0);
        if oldest.None? {
          return;
        }
        kept := RemoveAt(kept, oldest.value);
      }
    }

    method Validate(before: Option<(seq<Row>, bool)>, previous: map<Id, Row>, rows: seq<Row>, alwaysPresent: bool,
        limit: nat)
      returns (result: Result<seq<Row>, Error>)
      ensures result == if before.Some? && !before.value.1 then KeptMirror(before.value.0, rows)
                        else Validated(previous, rows, alwaysPresent, limit)
    {
      if before.Some? && !before.value.1 {
        return KeptMirror(before.value.0, rows);
      }
      for i := 0 to |rows|
        invariant FirstRefusal(previous, rows[i..]) == FirstRefusal(previous, rows)
      {
        var refusal := Refusal(previous, rows[i]);
        if refusal.Some? {
          return Err(refusal.value);
        }
        assert rows[i..][1..] == rows[i + 1..];
      }
      var logins := Logins(rows);
      var placed := rows;
      if |logins| > 1 {
        return Err(LoginListedTwice);
      } else if |logins| == 1 {
        placed := [logins[0]] + Others(rows);
      } else if alwaysPresent {
        var kept := MakeRoomFor(rows + [MINTED], limit);
        placed := [MINTED] + Others(kept);
      }
      if limit > 0 && |placed| > limit {
        return Err(TooMany);
      }
      result := Ok(placed);
    }

    /** Creates the rows without an id, until a call fails: the cluster answers `calls` more. */
    method CreateAdded(rows: seq<Row>, now: int, calls: nat)
      returns (ok: bool, saved: seq<Row>, created: set<Id>, left: nat, ghost states: seq<Cluster>)
      requires Valid()
      modifies this`cluster, this`nextId
      ensures Valid() && nextId >= old(nextId)
      ensures created == Started(rows, old(nextId), calls)
      ensures created !! old(cluster).Keys && cluster.Keys == old(cluster).Keys + created
      ensures forall id | id in old(cluster) :: cluster[id] == old(cluster)[id]
      ensures ok ==> saved == WithIds(rows, old(nextId), now)
      ensures ok ==> cluster == old(cluster) + Created(rows, old(nextId))
      ensures NeverShrinks(old(cluster), states)
      ensures ok <==> Creates(rows) <= calls
      ensures ok ==> left == calls - Creates(rows)
    {
      hide Started, WithIds, Created, NeverShrinks;
      ok, left, saved, created, states := true, calls, [], {}, [];
      ghost var start, first := cluster, nextId;
      NothingYet(rows, cluster, nextId, calls, now);
      for i := 0 to |rows|
        invariant ok && first <= nextId && Valid()
        invariant Creates(rows) + left == calls + Creates(rows[i..])
        invariant Grown(start, first, cluster, nextId, created)
        invariant created + Started(rows[i..], nextId, left) == Started(rows, first, calls)
        invariant cluster + Created(rows[i..], nextId) == start + Created(rows, first)
        invariant saved + WithIds(rows[i..], nextId, now) == WithIds(rows, first, now)
        invariant NeverShrinks(start, states)
      {
        var row := rows[i];
        Rest(rows, i);
        if row.id.None? {
          if left == 0 {
            NoneStarted(rows[i..], nextId);
            ok := false;
            break;
          }
          CreateOneMore(cluster, rows[i..], nextId);
          StartOneMore(rows[i..], nextId, left);
          SaveOneMore(rows[i..], nextId, now);
          GrowOneMore(start, first, cluster, nextId, created, row.credential, states);
          left := left - 1;
          cluster := cluster[nextId := row.credential];
          created := created + {nextId};
          saved := saved + [row.(id := Some(nextId), createdAt := now, minted := false)];
          nextId := nextId + 1;
          states := states + [cluster];
        } else {
          SkipOne(rows[i..], nextId, left, now);
          saved := saved + [row.(minted := false)];
        }
      }
      if ok {
        assert rows[|rows|..] == [];
        NothingLeft(nextId, left, now);
      }
    }

    /** Updates the rows that differ from the previous ones, until a call fails. */
    method UpdateChanged(previous: map<Id, Row>, rows: seq<Row>, calls: nat)
      returns (ok: bool, ghost states: seq<Cluster>)
      requires Valid() && previous.Keys <= cluster.Keys
      modifies this`cluster
      ensures Valid() && cluster.Keys == old(cluster).Keys
      ensures ok ==> cluster == old(cluster) + Updated(previous, rows)
      ensures OnlyUpdates(previous, rows, old(cluster), cluster)
      ensures NeverShrinks(old(cluster), states)
      ensures ok <==> Updates(previous, rows) <= calls
    {
      hide Updated, Updates, OnlyUpdates, NeverShrinks;
      ok, states := true, [];
      var left := calls;
      ghost var start := cluster;
      NoUpdateYet(previous, rows, cluster);
      for i := 0 to |rows|
        invariant ok && Valid() && cluster.Keys == start.Keys
        invariant Updates(previous, rows) + left == calls + Updates(previous, rows[i..])
        invariant cluster == start + Updated(previous, rows[..i])
        invariant OnlyUpdates(previous, rows, start, cluster)
        invariant NeverShrinks(start, states)
      {
        var row := rows[i];
        UpdateOneMore(previous, rows, i);
        if IsChanged(previous, row) {
          if left == 0 {
            ok := false;
            break;
          }
          left := left - 1;
          OneMoreUpdate(previous, rows, i, start, cluster, states);
          cluster := cluster[row.id.value := row.credential];
          states := states + [cluster];
        }
      }
      if ok {
        assert rows[..|rows|] == rows;
        NoUpdateLeft(previous, rows);
      }
    }

    /** `push_kind` and its hooks: creates and updates, and revokes what the save took out once it is
        committed, or what it created once it is rolled back. The cluster answers `calls` calls of the
        save, and then the hook's one if `revokes`; unless it `completes`, the save fails after its calls.
        `states` are the clusters on the way to the commit or the failure. */
    method Push(previous: map<Id, Row>, rows: seq<Row>, now: int, calls: nat, completes: bool, revokes: bool)
      returns (outcome: Outcome, ghost states: seq<Cluster>)
      requires Valid() && previous.Keys <= cluster.Keys
      modifies this
      ensures Valid() && NeverShrinks(old(cluster), states)
      ensures outcome.revoked == revokes
      ensures outcome.Committed? ==> mirror == WithIds(rows, old(nextId), now)
      ensures outcome == Committed(true) ==> cluster == Pushed(old(cluster), previous, rows, old(nextId))
      ensures outcome == Committed(false) ==> cluster == Unrevoked(old(cluster), previous, rows, old(nextId))
      ensures outcome.RolledBack? ==>
                && mirror == old(mirror)
                && Leftover(rows, old(nextId), calls, revokes) !! old(cluster).Keys
                && cluster.Keys == old(cluster).Keys + Leftover(rows, old(nextId), calls, revokes)
      ensures outcome.RolledBack? ==> OnlyUpdates(previous, rows, old(cluster), cluster)
      ensures outcome.Committed? <==> completes && Creates(rows) + Updates(previous, rows) <= calls
    {
      hide WithIds, Created, Updated, Started;
      var ok, saved, created, left, creating := CreateAdded(rows, now, calls);
      states := creating;
      ghost var start := old(cluster);
      if ok {
        ghost var filled := cluster;
        var updated, updating := UpdateChanged(previous, rows, left);
        assert NeverShrinks(start, updating) by {
          StillNeverShrinks(start, filled, updating);
        }
        states := states + updating;
        ok := updated;
      }
      if !ok || !completes {
        if revokes {
          cluster := cluster - created;
        }
        return RolledBack(revokes), states;
      }
      mirror := saved;
      outcome := Committed(revokes);
      if revokes {
        cluster := cluster - (previous.Keys - Ids(rows));
      }
    }
  }

  // --- steps of the proofs above -----------------------------------------------------------------

  /** Every credential of the start is on each of the clusters. */
  predicate NeverShrinks(start: Cluster, states: seq<Cluster>) {
    forall i | 0 <= i < |states| :: start.Keys <= states[i].Keys
  }

  lemma StillNeverShrinks(start: Cluster, filled: Cluster, states: seq<Cluster>)
    requires start.Keys <= filled.Keys && NeverShrinks(filled, states)
    ensures NeverShrinks(start, states)
  {
  }

  predicate IsUpdateOf(previous: map<Id, Row>, rows: seq<Row>, id: Id, credential: Credential) {
    exists row | row in rows :: IsChanged(previous, row) && row.id == Some(id) && row.credential == credential
  }

  /** A credential of the start differs only by an update of the save. */
  predicate OnlyUpdates(previous: map<Id, Row>, rows: seq<Row>, start: Cluster, cluster: Cluster) {
    forall id | id in start && id in cluster && cluster[id] != start[id] :: IsUpdateOf(previous, rows, id, cluster[id])
  }

  lemma NoUpdateYet(previous: map<Id, Row>, rows: seq<Row>, cluster: Cluster)
    ensures rows[0..] == rows && rows[..0] == [] && Updated(previous, []) == map[]
    ensures OnlyUpdates(previous, rows, cluster, cluster) && NeverShrinks(cluster, [])
  {
  }

  lemma NoUpdateLeft(previous: map<Id, Row>, rows: seq<Row>)
    ensures Updates(previous, rows[|rows|..]) == 0
  {
  }

  lemma UpdateOneMore(previous: map<Id, Row>, rows: seq<Row>, i: nat)
    requires i < |rows|
    ensures Updates(previous, rows[i..]) ==
            (if IsChanged(previous, rows[i]) then 1 else 0) + Updates(previous, rows[i + 1..])
    ensures Updated(previous, rows[..i + 1]) ==
            if IsChanged(previous, rows[i]) then Updated(previous, rows[..i])[rows[i].id.value := rows[i].credential]
            else Updated(previous, rows[..i])
  {
    Rest(rows, i);
    assert rows[..i + 1][..i] == rows[..i] && rows[..i + 1][i] == rows[i];
  }

  lemma OneMoreUpdate(previous: map<Id, Row>, rows: seq<Row>, i: nat, start: Cluster, cluster: Cluster,
      states: seq<Cluster>)
    requires i < |rows| && IsChanged(previous, rows[i]) && rows[i].id.value in cluster && cluster.Keys == start.Keys
    requires OnlyUpdates(previous, rows, start, cluster) && NeverShrinks(start, states)
    ensures var after := cluster[rows[i].id.value := rows[i].credential];
            OnlyUpdates(previous, rows, start, after) && NeverShrinks(start, states + [after])
  {
    assert IsUpdateOf(previous, rows, rows[i].id.value, rows[i].credential);
  }

  /** The cluster holds what it held, and the ids given since. */
  predicate Grown(start: Cluster, first: Id, cluster: Cluster, next: Id, created: set<Id>) {
    && (forall id | id in start :: id < first)
    && (forall id | id in created :: first <= id < next)
    && cluster.Keys == start.Keys + created
    && forall id | id in start :: cluster[id] == start[id]
  }

  lemma GrowOneMore(start: Cluster, first: Id, cluster: Cluster, next: Id, created: set<Id>, credential: Credential,
                    states: seq<Cluster>)
    requires first <= next && Grown(start, first, cluster, next, created) && NeverShrinks(start, states)
    ensures Grown(start, first, cluster[next := credential], next + 1, created + {next})
    ensures NeverShrinks(start, states + [cluster[next := credential]])
  {
  }

  lemma NothingYet(rows: seq<Row>, cluster: Cluster, next: Id, calls: nat, now: int)
    ensures rows[0..] == rows && NeverShrinks(cluster, [])
    ensures {} + Started(rows, next, calls) == Started(rows, next, calls)
    ensures [] + WithIds(rows, next, now) == WithIds(rows, next, now)
  {
  }

  lemma NothingLeft(next: Id, left: nat, now: int)
    ensures Started([], next, left) == {} && Created([], next) == map[] && WithIds([], next, now) == []
  {
  }

  lemma NoneStarted(rows: seq<Row>, next: Id)
    requires rows != [] && rows[0].id.None?
    ensures Started(rows, next, 0) == {}
  {
  }

  lemma SkipOne(rows: seq<Row>, next: Id, left: nat, now: int)
    requires rows != [] && rows[0].id.Some?
    ensures Started(rows, next, left) == Started(rows[1..], next, left)
    ensures Created(rows, next) == Created(rows[1..], next)
    ensures WithIds(rows, next, now) == [rows[0].(minted := false)] + WithIds(rows[1..], next, now)
  {
  }

  lemma StartOneMore(rows: seq<Row>, next: Id, left: nat)
    requires rows != [] && rows[0].id.None? && left > 0
    ensures Started(rows, next, left) == {next} + Started(rows[1..], next + 1, left - 1)
  {
  }

  lemma SaveOneMore(rows: seq<Row>, next: Id, now: int)
    requires rows != [] && rows[0].id.None?
    ensures WithIds(rows, next, now) ==
            [rows[0].(id := Some(next), createdAt := now, minted := false)] + WithIds(rows[1..], next + 1, now)
  {
  }

  lemma CreateOneMore(cluster: Cluster, rows: seq<Row>, next: Id)
    requires rows != [] && rows[0].id.None?
    ensures cluster[next := rows[0].credential] + Created(rows[1..], next + 1) == cluster + Created(rows, next)
  {
    CreatedIsNew(rows[1..], next + 1);
  }
}
