/** A save keeps the mirror and the cluster alike, and the account its Suite Cloud login. */
module CredentialTheorems {
  import opened Wrappers
  import opened Credentials

  // --- the mirror ----------------------------------------------------------------------------

  predicate DistinctIds(rows: seq<Row>) {
    forall i, j | 0 <= i < j < |rows| && rows[i].id.Some? :: rows[i].id != rows[j].id
  }

  predicate AllHaveIds(rows: seq<Row>) {
    forall i | 0 <= i < |rows| :: rows[i].id.Some?
  }

  /** The rows are the cluster's credentials, each once. */
  predicate Mirrors(rows: seq<Row>, cluster: Cluster) {
    && DistinctIds(rows) && AllHaveIds(rows)
    && Ids(rows) == cluster.Keys
    && forall i | 0 <= i < |rows| && rows[i].id.Some? && rows[i].id.value in cluster ::
        cluster[rows[i].id.value] == rows[i].credential
  }

  /** The edited rows: each is one of the previous ones, edited, or has no id yet. */
  predicate Edits(previous: map<Id, Row>, rows: seq<Row>) {
    DistinctIds(rows) && Ids(rows) <= previous.Keys
  }

  lemma IdsMore(rows: seq<Row>)
    requires rows != []
    ensures Ids(rows) == (if rows[0].id.Some? then {rows[0].id.value} else {}) + Ids(rows[1..])
    ensures Ids(rows) == Ids(rows[..|rows| - 1]) + if rows[|rows| - 1].id.Some? then {rows[|rows| - 1].id.value} else {}
  {
    var rest, front := rows[1..], rows[..|rows| - 1];
    assert forall i | 0 < i < |rows| :: rows[i] == rest[i - 1];
    forall id | id in Ids(rows) && !(rows[0].id == Some(id)) ensures id in Ids(rest) {
      var i :| 0 <= i < |rows| && rows[i].id == Some(id);
      assert rest[i - 1].id == Some(id);
    }
    forall id | id in Ids(rest) ensures id in Ids(rows) {
      var i :| 0 <= i < |rest| && rest[i].id == Some(id);
      assert rows[i + 1].id == Some(id);
    }
    forall id | id in Ids(rows) && !(rows[|rows| - 1].id == Some(id)) ensures id in Ids(front) {
      var i :| 0 <= i < |rows| && rows[i].id == Some(id);
      assert front[i].id == Some(id);
    }
    forall id | id in Ids(front) ensures id in Ids(rows) {
      var i :| 0 <= i < |front| && front[i].id == Some(id);
      assert rows[i].id == Some(id);
    }
  }

  lemma {:induction false} ByIdIs(rows: seq<Row>)
    ensures ById(rows).Keys == Ids(rows)
    ensures DistinctIds(rows) ==>
              forall i | 0 <= i < |rows| && rows[i].id.Some? ::
                rows[i].id.value in ById(rows) && ById(rows)[rows[i].id.value] == rows[i]
  {
    hide Ids;
    if rows == [] {
      assert Ids(rows) == {} by { NoIds(rows); }
    } else {
      var front := rows[..|rows| - 1];
      ByIdIs(front);
      IdsMore(rows);
      if DistinctIds(rows) {
        assert DistinctIds(front);
        forall i | 0 <= i < |rows| && rows[i].id.Some?
          ensures rows[i].id.value in ById(rows) && ById(rows)[rows[i].id.value] == rows[i]
        {
          assert i < |front| ==> front[i] == rows[i];
        }
      }
    }
  }

  lemma NoIds(rows: seq<Row>)
    requires rows == []
    ensures Ids(rows) == {}
  {
  }

  // --- ids given -----------------------------------------------------------------------------

  /** A row keeps its place, description and settings, and its id if it has one. */
  lemma {:induction false} SavedAt(rows: seq<Row>, next: Id, now: int, i: nat)
    requires i < |rows|
    ensures var saved := WithIds(rows, next, now);
            && |saved| == |rows| && saved[i].id.Some? && saved[i].credential == rows[i].credential
            && saved[i].createdAt == (if rows[i].id.None? then now else rows[i].createdAt) && !saved[i].minted
            && (rows[i].id.Some? ==> saved[i].id == rows[i].id)
            && (rows[i].id.None? ==>
                  && saved[i].id.value >= next && saved[i].id.value in Created(rows, next)
                  && Created(rows, next)[saved[i].id.value] == rows[i].credential)
  {
    var after := if rows[0].id.None? then next + 1 else next;
    SavedSize(rows, next, now);
    if i > 0 {
      SavedAt(rows[1..], after, now, i - 1);
    }
  }

  lemma {:induction false} SavedSize(rows: seq<Row>, next: Id, now: int)
    ensures |WithIds(rows, next, now)| == |rows|
  {
    if rows != [] {
      SavedSize(rows[1..], if rows[0].id.None? then next + 1 else next, now);
    }
  }

  lemma {:induction false} NewIdsDiffer(rows: seq<Row>, next: Id, now: int, i: nat, j: nat)
    requires i < j < |rows| && rows[i].id.None? && rows[j].id.None?
    ensures |WithIds(rows, next, now)| == |rows| && WithIds(rows, next, now)[i].id != WithIds(rows, next, now)[j].id
  {
    var after := if rows[0].id.None? then next + 1 else next;
    SavedSize(rows, next, now);
    if i > 0 {
      NewIdsDiffer(rows[1..], after, now, i - 1, j - 1);
    } else {
      SavedAt(rows[1..], after, now, j - 1);
    }
  }

  lemma {:induction false} CreatedFrom(rows: seq<Row>, next: Id, now: int, id: Id) returns (i: nat)
    requires id in Created(rows, next)
    ensures i < |rows| && rows[i].id.None? && |WithIds(rows, next, now)| == |rows|
        && WithIds(rows, next, now)[i].id == Some(id)
  {
    SavedSize(rows, next, now);
    if rows[0].id.None? && id == next {
      i := 0;
    } else {
      i := CreatedFrom(rows[1..], if rows[0].id.None? then next + 1 else next, now, id);
      i := i + 1;
    }
  }

  lemma {:induction false} UpdatedIs(previous: map<Id, Row>, rows: seq<Row>)
    requires DistinctIds(rows)
    ensures forall i | 0 <= i < |rows| && IsChanged(previous, rows[i]) ::
              && rows[i].id.value in Updated(previous, rows)
              && Updated(previous, rows)[rows[i].id.value] == rows[i].credential
    ensures forall id | id in Updated(previous, rows) ::
              id in previous && exists i | 0 <= i < |rows| :: IsChanged(previous, rows[i]) && rows[i].id == Some(id)
  {
    hide IsChanged;
    if rows != [] {
      var last := |rows| - 1;
      var front := rows[..last];
      UpdatedIs(previous, front);
      assert forall i | 0 <= i < last :: front[i] == rows[i];
      ChangedIsKnown(previous, rows[last]);
      forall i | 0 <= i < |rows| && IsChanged(previous, rows[i])
        ensures rows[i].id.Some? && rows[i].id.value in Updated(previous, rows)
            && Updated(previous, rows)[rows[i].id.value] == rows[i].credential
      {
        ChangedIsKnown(previous, rows[i]);
        if i < last {
          assert front[i] == rows[i];
        }
      }
    }
  }

  lemma ChangedIsKnown(previous: map<Id, Row>, row: Row)
    ensures IsChanged(previous, row) ==> row.id.Some? && row.id.value in previous
    ensures IsKnown(previous, row) && !IsChanged(previous, row) ==> previous[row.id.value].credential == row.credential
  {
  }

  // --- after the commit ------------------------------------------------------------------------

  lemma SavedIds(rows: seq<Row>, next: Id, now: int)
    ensures AllHaveIds(WithIds(rows, next, now))
    ensures Ids(WithIds(rows, next, now)) == Ids(rows) + Created(rows, next).Keys
  {
    hide WithIds, Created;
    var saved := WithIds(rows, next, now);
    SavedSize(rows, next, now);
    forall i | 0 <= i < |rows| ensures saved[i].id.Some? {
      SavedAt(rows, next, now, i);
    }
    forall id | id in Ids(saved) ensures id in Ids(rows) + Created(rows, next).Keys {
      var i :| 0 <= i < |saved| && saved[i].id == Some(id);
      SavedAt(rows, next, now, i);
      assert rows[i].id.Some? ==> rows[i].id == Some(id);
    }
    forall id | id in Ids(rows) ensures id in Ids(saved) {
      var i :| 0 <= i < |rows| && rows[i].id == Some(id);
      SavedAt(rows, next, now, i);
    }
    forall id | id in Created(rows, next) ensures id in Ids(saved) {
      var i := CreatedFrom(rows, next, now, id);
      assert saved[i].id == Some(id);
    }
  }

  lemma SavedDistinct(previous: map<Id, Row>, rows: seq<Row>, next: Id, now: int)
    requires Edits(previous, rows) && forall id | id in previous :: id < next
    ensures DistinctIds(WithIds(rows, next, now))
  {
    hide WithIds, Created;
    var saved := WithIds(rows, next, now);
    SavedSize(rows, next, now);
    forall i, j | 0 <= i < j < |saved| && saved[i].id.Some? ensures saved[i].id != saved[j].id {
      SavedAt(rows, next, now, i);
      SavedAt(rows, next, now, j);
      assert rows[i].id.Some? ==> rows[i].id.value in Ids(rows);
      assert rows[j].id.Some? ==> rows[j].id.value in Ids(rows);
      if rows[i].id.None? && rows[j].id.None? {
        NewIdsDiffer(rows, next, now, i, j);
      }
    }
  }

  lemma PushedKeys(before: seq<Row>, rows: seq<Row>, cluster: Cluster, next: Id)
    requires Mirrors(before, cluster) && Edits(ById(before), rows) && forall id | id in cluster :: id < next
    ensures Unrevoked(cluster, ById(before), rows, next).Keys == cluster.Keys + Created(rows, next).Keys
    ensures Pushed(cluster, ById(before), rows, next).Keys == Ids(rows) + Created(rows, next).Keys
  {
    hide Created, Updated, IsChanged, ById, Ids;
    var previous := ById(before);
    ByIdIs(before);
    UpdatedIs(previous, rows);
    CreatedIsNew(rows, next);
    assert Updated(previous, rows).Keys <= cluster.Keys;
  }

  /** Before the hook that revokes, the cluster holds the mirror and what was taken out, so nothing
      that worked stops working; after it the mirror exactly. */
  lemma CommitMirrors(before: seq<Row>, rows: seq<Row>, cluster: Cluster, next: Id, now: int)
    requires Mirrors(before, cluster) && Edits(ById(before), rows) && forall id | id in cluster :: id < next
    ensures Mirrors(WithIds(rows, next, now), Pushed(cluster, ById(before), rows, next))
    ensures Unrevoked(cluster, ById(before), rows, next).Keys == Ids(WithIds(rows, next, now)) + cluster.Keys
  {
    hide WithIds, Created, ById, Ids, Pushed, Unrevoked, DistinctIds, AllHaveIds;
    var previous, saved := ById(before), WithIds(rows, next, now);
    ByIdIs(before);
    SavedIds(rows, next, now);
    SavedDistinct(previous, rows, next, now);
    PushedKeys(before, rows, cluster, next);
    SavedSize(rows, next, now);
    var pushed := Pushed(cluster, previous, rows, next);
    forall i | 0 <= i < |saved| && saved[i].id.Some? && saved[i].id.value in pushed
      ensures pushed[saved[i].id.value] == saved[i].credential
    {
      SavedIsPushed(before, rows, cluster, next, now, i);
    }
  }

  lemma SavedIsPushed(before: seq<Row>, rows: seq<Row>, cluster: Cluster, next: Id, now: int, i: nat)
    requires Mirrors(before, cluster) && Edits(ById(before), rows) && (forall id | id in cluster :: id < next)
        && i < |rows|
    ensures var saved, pushed := WithIds(rows, next, now), Pushed(cluster, ById(before), rows, next);
            |saved| == |rows| && saved[i].id.Some? && saved[i].id.value in pushed
                && pushed[saved[i].id.value] == saved[i].credential
  {
    hide WithIds, Created, Updated, IsChanged, ById;
    var previous, row := ById(before), rows[i];
    ByIdIs(before);
    SavedAt(rows, next, now, i);
    UpdatedIs(previous, rows);
    CreatedIsNew(rows, next);
    ChangedIsKnown(previous, row);
    if row.id.Some? {
      var id := row.id.value;
      assert id in Ids(rows);
      assert id in previous && id < next && id !in Created(rows, next);
      if !IsChanged(previous, row) {
        UnchangedIsNotUpdated(previous, rows, i);
        var k :| 0 <= k < |before| && before[k].id == Some(id);
        assert previous[id] == before[k] && cluster[id] == before[k].credential;
      }
    } else {
      var id := WithIds(rows, next, now)[i].id.value;
      assert id !in Updated(previous, rows);
    }
  }

  lemma UnchangedIsNotUpdated(previous: map<Id, Row>, rows: seq<Row>, i: nat)
    requires DistinctIds(rows) && i < |rows| && rows[i].id.Some? && !IsChanged(previous, rows[i])
    ensures rows[i].id.value !in Updated(previous, rows)
  {
    hide IsChanged;
    UpdatedIs(previous, rows);
    forall k | 0 <= k < |rows| && IsChanged(previous, rows[k]) ensures rows[k].id != rows[i].id {
      assert k != i;
    }
  }

  // --- the login -----------------------------------------------------------------------------

  lemma {:induction false} LoginsAndOthers(rows: seq<Row>)
    ensures |Logins(rows)| + |Others(rows)| == |rows|
    ensures forall row :: row in rows <==> row in Logins(rows) || row in Others(rows)
    ensures (forall row | row in Logins(rows) :: row.IsLogin()) && forall row | row in Others(rows) :: !row.IsLogin()
  {
    if rows != [] {
      LoginsAndOthers(rows[1..]);
      assert rows == [rows[0]] + rows[1..];
    }
  }

  lemma {:induction false} NoRefusal(previous: map<Id, Row>, rows: seq<Row>, row: Row)
    requires FirstRefusal(previous, rows).None? && row in rows
    ensures Refusal(previous, row).None?
  {
    if row != rows[0] {
      NoRefusal(previous, rows[1..], row);
    }
  }

  lemma {:induction false} LoginsJoin(a: seq<Row>, b: seq<Row>)
    ensures Logins(a + b) == Logins(a) + Logins(b)
  {
    if a == [] {
      assert a + b == b;
    } else {
      assert (a + b)[0] == a[0] && (a + b)[1..] == a[1..] + b;
      LoginsJoin(a[1..], b);
      var first := if a[0].IsLogin() then [a[0]] else [];
      assert Logins(a) == first + Logins(a[1..]);
      assert Logins(a + b) == first + Logins(a[1..] + b);
    }
  }

  lemma {:induction false} MakeRoomKeepsLogins(rows: seq<Row>, limit: nat)
    ensures Logins(MakeRoom(rows, limit)) == Logins(rows)
    decreases |rows|
  {
    OldestIs(rows, 0);
    var oldest := OldestFrom(rows, 0);
    if limit > 0 && |rows| > limit && oldest.Some? {
      var k := oldest.value;
      MakeRoomKeepsLogins(RemoveAt(rows, k), limit);
      assert rows == rows[..k] + ([rows[k]] + rows[k + 1..]);
      LoginsJoin(rows[..k], [rows[k]] + rows[k + 1..]);
      LoginsJoin([rows[k]], rows[k + 1..]);
      LoginsJoin(rows[..k], rows[k + 1..]);
    }
  }

  lemma {:induction false} MakeRoomSize(rows: seq<Row>, limit: nat)
    ensures var kept := MakeRoom(rows, limit);
            && |kept| <= |rows| && (kept != rows ==> |kept| >= limit > 0)
            && (limit == 0 || |kept| <= limit || forall row | row in kept :: !MayGo(row))
    decreases |rows|
  {
    OldestIs(rows, 0);
    var oldest := OldestFrom(rows, 0);
    if limit > 0 && |rows| > limit && oldest.Some? {
      MakeRoomSize(RemoveAt(rows, oldest.value), limit);
    }
  }

  lemma WithoutOne(rows: seq<Row>, k: nat)
    requires k < |rows|
    ensures |RemoveAt(rows, k)| < |rows| && forall row :: row in rows <==> row in RemoveAt(rows, k) || row == rows[k]
  {
    assert rows == rows[..k] + [rows[k]] + rows[k + 1..];
  }

  /** Room is made by the oldest credentials, no more of them than needed, and never by the login. */
  lemma {:induction false} MakeRoomIs(rows: seq<Row>, limit: nat)
    ensures var kept := MakeRoom(rows, limit);
            && Logins(kept) == Logins(rows)
            && (forall row | row in kept :: row in rows)
            && (forall row | row in rows && row !in kept ::
                  MayGo(row) && forall other | other in kept && MayGo(other) :: row.createdAt <= other.createdAt)
            && |kept| <= |rows| && (kept != rows ==> |kept| >= limit > 0)
            && (limit == 0 || |kept| <= limit || forall row | row in kept :: !MayGo(row))
    decreases |rows|
  {
    hide Logins, RemoveAt, MayGo;
    MakeRoomKeepsLogins(rows, limit);
    MakeRoomSize(rows, limit);
    OldestIs(rows, 0);
    var oldest := OldestFrom(rows, 0);
    if limit > 0 && |rows| > limit && oldest.Some? {
      WithoutOne(rows, oldest.value);
      MakeRoomIs(RemoveAt(rows, oldest.value), limit);
    }
  }

  lemma LoginsOf(rows: seq<Row>)
    ensures Logins([MINTED]) == [MINTED]
    ensures Logins(rows + [MINTED]) == Logins(rows) + [MINTED]
  {
    LoginsJoin(rows, [MINTED]);
  }

  /** A save of an enabled account leaves exactly one login, the first row and within the limit, if the
      kind always has one; it is the login there was or one Suite Cloud mints now, never one a caller
      made up. The other rows stay, except the oldest ones when the login needed room. */
  lemma LoginIsPlaced(previous: map<Id, Row>, rows: seq<Row>, alwaysPresent: bool, limit: nat)
    requires Edits(previous, rows) && Validated(previous, rows, alwaysPresent, limit).Ok?
    requires forall row | row in rows :: row.minted ==> row == MINTED
    ensures var placed := Validated(previous, rows, alwaysPresent, limit).value;
            && (limit > 0 ==> |placed| <= limit)
            && |Logins(placed)| <= 1 && (alwaysPresent ==> |Logins(placed)| == 1)
            && (|Logins(placed)| == 1 ==> placed == Logins(placed) + Others(placed))
            && (forall row | row in placed && row.IsLogin() ::
                  row == MINTED || (IsKnown(previous, row) && previous[row.id.value].IsLogin()))
            && (forall row | row in placed :: row in rows || row == MINTED)
            && (forall row | row in rows && row !in placed ::
                  limit > 0 && |placed| == limit && MayGo(row)
                  && forall other | other in placed && MayGo(other) :: row.createdAt <= other.createdAt)
  {
    var placed := Validated(previous, rows, alwaysPresent, limit).value;
    LoginsAndOthers(rows);
    LoginIsGenuine(previous, rows);
    if |Logins(rows)| == 1 {
      FrontLogin(Logins(rows)[0], rows);
      assert Logins(rows) == [Logins(rows)[0]];
    } else if alwaysPresent {
      var kept := MakeRoom(rows + [MINTED], limit);
      MakeRoomIs(rows + [MINTED], limit);
      LoginsOf(rows);
      LoginsAndOthers(kept);
      assert Logins(kept) == [MINTED];
      FrontLogin(MINTED, kept);
      forall row | row in rows && row !in placed
        ensures limit > 0 && |placed| == limit && MayGo(row)
        ensures forall other | other in placed && MayGo(other) :: row.createdAt <= other.createdAt
      {
        assert row in rows + [MINTED] && row !in kept;
        assert kept != rows + [MINTED];
      }
    } else {
      assert Logins(rows) == [];
    }
  }

  lemma LoginIsGenuine(previous: map<Id, Row>, rows: seq<Row>)
    requires Edits(previous, rows) && FirstRefusal(previous, rows).None?
    requires forall row | row in rows :: row.minted ==> row == MINTED
    ensures forall row | row in rows && row.IsLogin() ::
              row == MINTED || (IsKnown(previous, row) && previous[row.id.value].IsLogin())
  {
    forall row | row in rows && row.IsLogin()
      ensures row == MINTED || (IsKnown(previous, row) && previous[row.id.value].IsLogin())
    {
      NoRefusal(previous, rows, row);
      assert row.id.Some? ==> row.id.value in Ids(rows);
    }
  }

  lemma FrontLogin(login: Row, rows: seq<Row>)
    requires Logins(rows) == [login]
    ensures var placed := [login] + Others(rows);
            && Logins(placed) == [login] && Others(placed) == Others(rows)
            && |placed| == |rows| && forall row :: row in placed <==> row in rows
  {
    LoginsAndOthers(rows);
    var placed := [login] + Others(rows);
    assert placed[1..] == Others(rows);
    assert login in Logins(rows);
    OthersAlone(Others(rows));
  }

  lemma {:induction false} OthersAlone(rows: seq<Row>)
    requires forall row | row in rows :: !row.IsLogin()
    ensures Logins(rows) == [] && Others(rows) == rows
  {
    if rows != [] {
      OthersAlone(rows[1..]);
    }
  }

  // --- what is refused -------------------------------------------------------------------------

  predicate IsNamed(row: Row) {
    row.credential.description == "Suite Cloud"
  }

  /** The credential that was the login comes back under another name. */
  predicate Renames(previous: map<Id, Row>, row: Row) {
    row.id.Some? && row.id.value in previous && IsNamed(previous[row.id.value]) && !IsNamed(row)
  }

  /** The login's name on a row that is new, or that was another credential; a row Suite Cloud mints aside. */
  predicate MakesUp(previous: map<Id, Row>, row: Row) {
    && IsNamed(row) && !row.minted
    && (row.id.None? || (row.id.value in previous && !IsNamed(previous[row.id.value])))
  }

  predicate IsBad(previous: map<Id, Row>, row: Row) {
    Renames(previous, row) || MakesUp(previous, row)
  }

  predicate HasLogin(rows: seq<Row>) {
    exists i :: 0 <= i < |rows| && IsNamed(rows[i])
  }

  predicate HasTwoLogins(rows: seq<Row>) {
    exists i, j :: 0 <= i < j < |rows| && IsNamed(rows[i]) && IsNamed(rows[j])
  }

  /** The rows that cannot make room: those that are not on the cluster yet. */
  function NewRows(rows: seq<Row>): set<nat> {
    set i: nat | i < |rows| && rows[i].id.None?
  }

  /** The rows, with a login where one is minted, do not fit the limit even once every credential on the
      cluster has made room for it. Room is made for a minted login only. */
  predicate IsTooMany(rows: seq<Row>, alwaysPresent: bool, limit: nat) {
    limit > 0 && if HasLogin(rows) || !alwaysPresent then |rows| > limit else |NewRows(rows)| + 1 > limit
  }

  /** The rows of an enabled account are refused for the first of them that renames or makes up the login,
      else for a second login, else for their number; otherwise they are accepted. */
  lemma RefusedExactly(previous: map<Id, Row>, rows: seq<Row>, alwaysPresent: bool, limit: nat)
    ensures var verdict := Validated(previous, rows, alwaysPresent, limit);
            && (forall i | 0 <= i < |rows| && IsBad(previous, rows[i])
                           && (forall j | 0 <= j < i :: !IsBad(previous, rows[j])) ::
                  verdict == Err(if Renames(previous, rows[i]) then LoginRenamed else LoginReserved))
            && ((forall i | 0 <= i < |rows| :: !IsBad(previous, rows[i])) ==>
                  && (verdict == Err(LoginListedTwice) <==> HasTwoLogins(rows))
                  && (verdict == Err(TooMany) <==> !HasTwoLogins(rows) && IsTooMany(rows, alwaysPresent, limit))
                  && (verdict.Ok? <==> !HasTwoLogins(rows) && !IsTooMany(rows, alwaysPresent, limit)))
  {
    hide Logins, Others, MakeRoom, IsBad, HasLogin, HasTwoLogins, FirstRefusal;
    if forall i | 0 <= i < |rows| :: !IsBad(previous, rows[i]) {
      FirstRefusalIs(previous, rows);
      LoginsAre(rows);
      LoginsAndOthers(rows);
      if Logins(rows) == [] && alwaysPresent {
        RoomIsMade(rows, limit);
      }
    } else {
      FirstRefusalIs(previous, rows);
    }
  }

  lemma RefusalIs(previous: map<Id, Row>, row: Row)
    ensures Refusal(previous, row) ==
            if Renames(previous, row) then Some(LoginRenamed)
            else if MakesUp(previous, row) then Some(LoginReserved) else None
  {
  }

  lemma {:induction false} FirstRefusalIs(previous: map<Id, Row>, rows: seq<Row>)
    ensures FirstRefusal(previous, rows).None? <==> forall i | 0 <= i < |rows| :: !IsBad(previous, rows[i])
    ensures forall i | 0 <= i < |rows| && IsBad(previous, rows[i])
                       && (forall j | 0 <= j < i :: !IsBad(previous, rows[j])) ::
              FirstRefusal(previous, rows) ==
              Some(if Renames(previous, rows[i]) then LoginRenamed else LoginReserved)
  {
    hide Refusal, Renames, MakesUp;
    if rows != [] {
      var rest := rows[1..];
      FirstRefusalIs(previous, rest);
      RefusalIs(previous, rows[0]);
      assert forall i | 1 <= i < |rows| :: rows[i] == rest[i - 1];
      assert forall i | 0 <= i < |rest| :: rest[i] == rows[i + 1];
      if !IsBad(previous, rows[0]) {
        forall i | 0 <= i < |rows| && IsBad(previous, rows[i]) && (forall j | 0 <= j < i :: !IsBad(previous, rows[j]))
          ensures FirstRefusal(previous, rows) ==
                  Some(if Renames(previous, rows[i]) then LoginRenamed else LoginReserved)
        {
          assert rest[i - 1] == rows[i];
          forall j | 0 <= j < i - 1 ensures !IsBad(previous, rest[j]) {
            assert rest[j] == rows[j + 1];
          }
        }
      }
    }
  }

  lemma {:induction false} LoginsAre(rows: seq<Row>)
    ensures Logins(rows) == [] <==> !HasLogin(rows)
    ensures |Logins(rows)| > 1 <==> HasTwoLogins(rows)
  {
    if rows != [] {
      var rest := rows[1..];
      LoginsAre(rest);
      assert forall i | 0 <= i < |rest| :: rest[i] == rows[i + 1];
      assert rows[0].IsLogin() <==> IsNamed(rows[0]);
      LoginsMore(rows);
    }
  }

  lemma LoginsMore(rows: seq<Row>)
    requires rows != []
    ensures HasLogin(rows) <==> IsNamed(rows[0]) || HasLogin(rows[1..])
    ensures HasTwoLogins(rows) <==> (IsNamed(rows[0]) && HasLogin(rows[1..])) || HasTwoLogins(rows[1..])
  {
    var rest := rows[1..];
    assert forall i | 1 <= i < |rows| :: rows[i] == rest[i - 1];
    assert forall i | 0 <= i < |rest| :: rest[i] == rows[i + 1];
    if HasLogin(rest) {
      var i :| 0 <= i < |rest| && IsNamed(rest[i]);
      assert IsNamed(rows[i + 1]);
    }
    if HasTwoLogins(rest) {
      var i, j :| 0 <= i < j < |rest| && IsNamed(rest[i]) && IsNamed(rest[j]);
      assert IsNamed(rows[i + 1]) && IsNamed(rows[j + 1]);
    }
  }

  /** The rows that stay whatever room is made. */
  function Fixed(rows: seq<Row>): nat {
    if rows == [] then 0 else (if MayGo(rows[0]) then 0 else 1) + Fixed(rows[1..])
  }

  lemma {:induction false} FixedJoins(a: seq<Row>, b: seq<Row>)
    ensures Fixed(a + b) == Fixed(a) + Fixed(b)
  {
    if a == [] {
      assert a + b == b;
    } else {
      assert (a + b)[0] == a[0] && (a + b)[1..] == a[1..] + b;
      FixedJoins(a[1..], b);
    }
  }

  lemma {:induction false} FixedBounds(rows: seq<Row>)
    ensures Fixed(rows) <= |rows|
    ensures (forall row | row in rows :: !MayGo(row)) ==> Fixed(rows) == |rows|
  {
    if rows != [] {
      FixedBounds(rows[1..]);
    }
  }

  lemma {:induction false} MakeRoomKeepsFixed(rows: seq<Row>, limit: nat)
    ensures Fixed(MakeRoom(rows, limit)) == Fixed(rows)
    decreases |rows|
  {
    OldestIs(rows, 0);
    var oldest := OldestFrom(rows, 0);
    if limit > 0 && |rows| > limit && oldest.Some? {
      var k := oldest.value;
      MakeRoomKeepsFixed(RemoveAt(rows, k), limit);
      assert rows == rows[..k] + ([rows[k]] + rows[k + 1..]);
      FixedJoins(rows[..k], [rows[k]] + rows[k + 1..]);
      FixedJoins([rows[k]], rows[k + 1..]);
      FixedJoins(rows[..k], rows[k + 1..]);
    }
  }

  lemma {:induction false} FixedIsNew(rows: seq<Row>)
    requires !HasLogin(rows)
    ensures Fixed(rows) == |NewRows(rows)|
  {
    if rows == [] {
      assert NewRows(rows) == {};
    } else {
      var last := |rows| - 1;
      var front := rows[..last];
      assert rows == front + [rows[last]];
      assert !IsNamed(rows[last]) && forall i | 0 <= i < |front| :: front[i] == rows[i] && !IsNamed(rows[i]);
      assert !HasLogin(front);
      FixedIsNew(front);
      FixedJoins(front, [rows[last]]);
      assert [rows[last]][1..] == [];
      assert rows[last].IsLogin() <==> IsNamed(rows[last]);
      assert NewRows(rows) == NewRows(front) + if rows[last].id.None? then {last as nat} else {};
    }
  }

  lemma RoomIsMade(rows: seq<Row>, limit: nat)
    requires Logins(rows) == []
    ensures var placed := [MINTED] + Others(MakeRoom(rows + [MINTED], limit));
            limit > 0 ==> (|placed| > limit <==> |NewRows(rows)| + 1 > limit)
  {
    hide Logins, Others, MakeRoom;
    var all := rows + [MINTED];
    var kept := MakeRoom(all, limit);
    LoginsAre(rows);
    LoginsOf(rows);
    MakeRoomIs(all, limit);
    LoginsAndOthers(kept);
    MakeRoomKeepsFixed(all, limit);
    FixedJoins(rows, [MINTED]);
    FixedIsNew(rows);
    FixedBounds(kept);
    assert [MINTED][1..] == [] && !MayGo(MINTED);
  }

  /** A login that is there comes first and nothing else moves; a minted one is put in front of rows that
      fit with it. */
  lemma PlacedWithoutRoom(previous: map<Id, Row>, rows: seq<Row>, alwaysPresent: bool, limit: nat)
    requires Validated(previous, rows, alwaysPresent, limit).Ok?
    ensures var placed := Validated(previous, rows, alwaysPresent, limit).value;
            && (forall k | 0 <= k < |rows| && IsNamed(rows[k]) :: placed == [rows[k]] + rows[..k] + rows[k + 1..])
            && (!HasLogin(rows) && !alwaysPresent ==> placed == rows)
            && (!HasLogin(rows) && alwaysPresent && (limit == 0 || |rows| < limit) ==>
                  placed == [Row(None, Credential("Suite Cloud", "", ""), 0, true)] + rows)
  {
    hide Logins, Others, MakeRoom, FirstRefusal;
    LoginsAre(rows);
    LoginsAndOthers(rows);
    if Logins(rows) != [] {
      forall k | 0 <= k < |rows| && IsNamed(rows[k])
        ensures Validated(previous, rows, alwaysPresent, limit).value == [rows[k]] + rows[..k] + rows[k + 1..]
      {
        OneLoginAt(rows, k);
      }
    } else if alwaysPresent && (limit == 0 || |rows| < limit) {
      NoRoomNeeded(rows, limit);
    }
  }

  lemma NoRoomNeeded(rows: seq<Row>, limit: nat)
    requires Logins(rows) == [] && (limit == 0 || |rows| < limit)
    ensures Others(MakeRoom(rows + [MINTED], limit)) == rows
  {
    LoginsAndOthers(rows);
    OthersJoin(rows, [MINTED]);
    OthersAlone(rows) by {
      LoginsAndOthers(rows);
    }
    assert [MINTED][1..] == [] && Others([MINTED]) == [];
  }

  lemma {:induction false} OthersJoin(a: seq<Row>, b: seq<Row>)
    ensures Others(a + b) == Others(a) + Others(b)
  {
    if a == [] {
      assert a + b == b;
    } else {
      assert (a + b)[0] == a[0] && (a + b)[1..] == a[1..] + b;
      OthersJoin(a[1..], b);
      var first := if a[0].IsLogin() then [] else [a[0]];
      assert Others(a) == first + Others(a[1..]);
      assert Others(a + b) == first + Others(a[1..] + b);
    }
  }

  lemma OneLoginAt(rows: seq<Row>, k: nat)
    requires |Logins(rows)| <= 1 && k < |rows| && IsNamed(rows[k])
    ensures Logins(rows) == [rows[k]] && Others(rows) == rows[..k] + rows[k + 1..]
  {
    hide Logins, Others;
    assert rows == rows[..k] + ([rows[k]] + rows[k + 1..]);
    LoginsJoin(rows[..k], [rows[k]] + rows[k + 1..]);
    LoginsJoin([rows[k]], rows[k + 1..]);
    OthersJoin(rows[..k], [rows[k]] + rows[k + 1..]);
    OthersJoin([rows[k]], rows[k + 1..]);
    OneLogin(rows[k]);
    LoginsAndOthers(rows[..k]);
    LoginsAndOthers(rows[k + 1..]);
    OthersAlone(rows[..k]);
    OthersAlone(rows[k + 1..]);
  }

  lemma OneLogin(row: Row)
    requires IsNamed(row)
    ensures Logins([row]) == [row] && Others([row]) == []
  {
    assert [row][1..] == [] && row.IsLogin();
  }

  predicate SameCredential(a: Row, b: Row) {
    && a.id == b.id && a.credential.description == b.credential.description
    && a.credential.expiresAt == b.credential.expiresAt && a.credential.allowedIps == b.credential.allowedIps
  }

  /** A disabled account's rows are accepted, as they are, if and only if each is one of the rows before in
      id, description, expiry and addresses, and each of those is still there. */
  lemma DisabledRefusedExactly(before: seq<Row>, rows: seq<Row>)
    ensures KeptMirror(before, rows) == (if KeepsCredentials(before, rows) then Ok(rows) else Err(AccountDisabled))
  {
    hide Fields, SameCredential;
    var now, was := set row | row in rows :: Fields(row), set row | row in before :: Fields(row);
    FieldsWithin(rows, before);
    FieldsWithin(before, rows);
    assert now == was <==> now <= was && was <= now;
  }

  lemma FieldsWithin(a: seq<Row>, b: seq<Row>)
    ensures (set row | row in a :: Fields(row)) <= (set row | row in b :: Fields(row))
            <==> forall row | row in a :: exists other | other in b :: SameCredential(row, other)
  {
    hide Fields, SameCredential;
    var some, all := set row | row in a :: Fields(row), set row | row in b :: Fields(row);
    if some <= all {
      forall row | row in a ensures exists other | other in b :: SameCredential(row, other) {
        assert Fields(row) in some;
        assert Fields(row) in all;
        var other :| other in b && Fields(other) == Fields(row);
        SameFields(row, other);
      }
    }
    if forall row | row in a :: exists other | other in b :: SameCredential(row, other) {
      forall fields | fields in some ensures fields in all {
        var row :| row in a && Fields(row) == fields;
        var other :| other in b && SameCredential(row, other);
        SameFields(row, other);
        assert Fields(other) in all;
      }
    }
  }

  predicate KeepsCredentials(before: seq<Row>, rows: seq<Row>) {
    && (forall row | row in rows :: exists other | other in before :: SameCredential(row, other))
    && forall row | row in before :: exists other | other in rows :: SameCredential(row, other)
  }

  lemma SameFields(a: Row, b: Row)
    ensures Fields(a) == Fields(b) <==> SameCredential(a, b)
  {
  }

  // --- a whole save --------------------------------------------------------------------------

  /** Placing the login keeps the rows' ids apart and known. */
  lemma PlacedStillEdits(previous: map<Id, Row>, rows: seq<Row>, alwaysPresent: bool, limit: nat)
    requires Edits(previous, rows) && Validated(previous, rows, alwaysPresent, limit).Ok?
    ensures Edits(previous, Validated(previous, rows, alwaysPresent, limit).value)
  {
    var placed := Validated(previous, rows, alwaysPresent, limit).value;
    LoginsAndOthers(rows);
    if |Logins(rows)| == 1 {
      FrontStillDistinct(rows);
      FrontLogin(Logins(rows)[0], rows);
      SameMembersIds(rows, placed);
    } else if alwaysPresent {
      var more := rows + [MINTED];
      var kept := MakeRoom(more, limit);
      MakeRoomIs(more, limit);
      MakeRoomDistinct(more, limit);
      LoginsOf(rows);
      assert Logins(kept) == [MINTED];
      FrontStillDistinct(kept);
      FrontLogin(MINTED, kept);
      SameMembersIds(more, placed);
      IdsMore(more);
      assert more[..|more| - 1] == rows;
    }
  }

  lemma SameMembersIds(rows: seq<Row>, fewer: seq<Row>)
    requires forall row | row in fewer :: row in rows
    ensures Ids(fewer) <= Ids(rows)
  {
    forall id | id in Ids(fewer) ensures id in Ids(rows) {
      var i :| 0 <= i < |fewer| && fewer[i].id == Some(id);
      assert fewer[i] in rows;
      var j :| 0 <= j < |rows| && rows[j] == fewer[i];
      assert rows[j].id == Some(id);
    }
  }

  lemma {:induction false} MakeRoomDistinct(rows: seq<Row>, limit: nat)
    requires DistinctIds(rows)
    ensures DistinctIds(MakeRoom(rows, limit))
    decreases |rows|
  {
    OldestIs(rows, 0);
    var oldest := OldestFrom(rows, 0);
    if limit > 0 && |rows| > limit && oldest.Some? {
      MakeRoomDistinct(RemoveAt(rows, oldest.value), limit);
    }
  }

  lemma {:induction false} OthersDistinct(rows: seq<Row>)
    requires DistinctIds(rows)
    ensures DistinctIds(Others(rows))
  {
    if rows != [] {
      assert DistinctIds(rows[1..]);
      OthersDistinct(rows[1..]);
      LoginsAndOthers(rows[1..]);
      var others := Others(rows[1..]);
      forall j | 0 <= j < |others| && rows[0].id.Some? ensures others[j].id != rows[0].id {
        assert others[j] in rows[1..];
        var k :| 0 <= k < |rows[1..]| && rows[1..][k] == others[j];
        assert rows[k + 1] == others[j];
      }
    }
  }

  lemma FrontStillDistinct(rows: seq<Row>)
    requires DistinctIds(rows) && |Logins(rows)| == 1
    ensures DistinctIds([Logins(rows)[0]] + Others(rows))
  {
    var login, others := Logins(rows)[0], Others(rows);
    LoginsAndOthers(rows);
    OthersDistinct(rows);
    assert login in Logins(rows);
    forall j | 0 <= j < |others| && login.id.Some? ensures others[j].id != login.id {
      assert others[j] in others && others[j] in rows && login in rows;
      var i :| 0 <= i < |rows| && rows[i] == login;
      var k :| 0 <= k < |rows| && rows[k] == others[j];
      assert i != k;
    }
  }

  /** The rows a save goes on with, or why it is refused. */
  function Accepted(before: seq<Row>, wasEnabled: bool, rows: seq<Row>, alwaysPresent: bool,
      limit: nat): Result<seq<Row>, Error> {
    if wasEnabled then Validated(ById(before), rows, alwaysPresent, limit) else KeptMirror(before, rows)
  }

  /** Nothing was created when no call was answered or no row lacks an id. */
  lemma {:induction false} NothingStarted(rows: seq<Row>, next: Id, calls: nat)
    ensures Started(rows, next, calls) == {} <==> calls == 0 || AllHaveIds(rows)
  {
    if rows != [] {
      var rest := rows[1..];
      assert forall i | 0 < i < |rows| :: rows[i] == rest[i - 1];
      if rows[0].id.Some? {
        NothingStarted(rest, next, calls);
      } else if calls > 0 {
        assert next in Started(rows, next, calls);
      }
    }
  }

  /** One save of an account whose mirror holds what the cluster holds. Refused, nothing changed.
      Rolled back, the mirror is as before, and the cluster's credential ids are if and only if the
      revoke of what was created went through or nothing had been created; else exactly those are left.
      Committed, mirror and cluster are alike again once the revoke went through, and an account that
      was enabled has its login. Until the commit no credential is revoked. A save rolls back where a call
      of its own fails, or anything after them: another kind's push, a password, the rest of the save. */
  method Save(account: Account, wasEnabled: bool, rows: seq<Row>, alwaysPresent: bool, limit: nat, now: int, calls: nat,
              completes: bool, revokes: bool)
    returns (result: Result<Outcome, Error>, ghost states: seq<Cluster>)
    requires account.Valid() && Mirrors(account.mirror, account.cluster) && Edits(ById(account.mirror), rows)
    requires forall row | row in rows :: row.minted ==> row == MINTED
    modifies account
    ensures account.Valid() && NeverShrinks(old(account.cluster), states)
    ensures result.Err? <==> Accepted(old(account.mirror), wasEnabled, rows, alwaysPresent, limit).Err?
    ensures result.Err? ==> account.mirror == old(account.mirror) && account.cluster == old(account.cluster)
    ensures result.Ok? ==>
              var placed := Accepted(old(account.mirror), wasEnabled, rows, alwaysPresent, limit).value;
              result.value.Committed? <==>
                completes && Creates(placed) + Updates(ById(old(account.mirror)), placed) <= calls
    ensures result.Ok? && result.value.RolledBack? ==>
              var placed := Accepted(old(account.mirror), wasEnabled, rows, alwaysPresent, limit).value;
              && account.mirror == old(account.mirror)
              && account.cluster.Keys == old(account.cluster).Keys +
                  Leftover(placed, old(account.nextId), calls, revokes)
              && (account.cluster.Keys == old(account.cluster).Keys <==> revokes || calls == 0 || AllHaveIds(placed))
    ensures result == Ok(Committed(true)) ==> Mirrors(account.mirror, account.cluster)
    ensures result == Ok(Committed(false)) ==>
              account.cluster.Keys == Ids(account.mirror) + old(account.cluster).Keys
    ensures result.Ok? && result.value.Committed? && wasEnabled ==>
              && (limit > 0 ==> |account.mirror| <= limit)
              && (alwaysPresent ==> account.mirror != [] && OnlyFirstIsLogin(account.mirror))
    ensures result.Ok? ==> result.value.revoked == revokes
  {
    hide WithIds, Pushed, Unrevoked, ById, Mirrors, Validated, KeptMirror, Started, Creates, Updates;
    ghost var before, cluster, next := account.mirror, account.cluster, account.nextId;
    var previous := ById(account.mirror);
    ByIdIs(before);
    MirrorKeys(before, cluster);
    var placed := account.Validate(Some((account.mirror, wasEnabled)), previous, rows, alwaysPresent, limit);
    if placed.Err? {
      return Err(placed.error), [];
    }
    if wasEnabled {
      PlacedStillEdits(previous, rows, alwaysPresent, limit);
      LoginIsPlaced(previous, rows, alwaysPresent, limit);
      if alwaysPresent {
        FirstIsLogin(placed.value);
      }
    } else {
      KeptMirrorIsRows(before, rows);
    }
    CommitMirrors(before, placed.value, cluster, next, now);
    SavedLikeRows(placed.value, next, now);
    NothingStarted(placed.value, next, calls);
    var outcome, pushing := account.Push(previous, placed.value, now, calls, completes, revokes);
    result, states := Ok(outcome), pushing;
  }

  const PHONE: Row := Row(None, Credential("Phone", "", ""), 0, false)

  /** A save whose login is created before the cluster stops answering: the rollback's revoke fails too,
      and a credential stays that no row mirrors. */
  method FailedRevokeLeavesCredential() returns (account: Account)
    ensures account.mirror == [] && account.cluster.Keys == {0}
  {
    account := new Account([], map[], 0);
    NewAccountSave();
    var result, states := Save(account, true, [PHONE], true, 0, 1, 1, true, false);
  }

  lemma NewAccountSave()
    ensures Mirrors([], map[]) && Edits(ById([]), [PHONE])
    ensures Accepted([], true, [PHONE], true, 0) == Ok([MINTED, PHONE])
    ensures Creates([MINTED, PHONE]) == 2 && Started([MINTED, PHONE], 0, 1) == {0}
  {
    PhoneIsNoLogin();
    PhoneIsCreated();
    PhoneIsAccepted();
  }

  lemma PhoneIsNoLogin()
    ensures !PHONE.IsLogin() && Logins([PHONE]) == [] && Others([PHONE]) == [PHONE]
  {
    assert |PHONE.credential.description| != |SITE_LOGIN|;
    OthersAlone([PHONE]);
  }

  lemma PhoneIsCreated()
    ensures Creates([MINTED, PHONE]) == 2 && Started([MINTED, PHONE], 0, 1) == {0}
  {
    assert [PHONE][1..] == [] && [MINTED, PHONE][1..] == [PHONE];
    assert Creates([PHONE]) == 1 + Creates([]);
    assert Started([PHONE], 1, 0) == {};
  }

  lemma PhoneIsAccepted()
    ensures Validated(ById([]), [PHONE], true, 0) == Ok([MINTED, PHONE])
  {
    hide Logins, Others;
    PhoneIsNoLogin();
    assert [PHONE][1..] == [];
    assert FirstRefusal(ById([]), [PHONE]) == FirstRefusal(ById([]), []);
    MakeRoomIs([PHONE] + [MINTED], 0);
    assert Refusal(ById([]), PHONE).None?;
    assert FirstRefusal(ById([]), []).None?;
    OthersOfTwo();
    assert [MINTED] + [PHONE] == [MINTED, PHONE];
    assert PlaceLogin([PHONE], true, 0) == Ok([MINTED, PHONE]);
  }

  lemma OthersOfTwo()
    ensures Others([PHONE] + [MINTED]) == [PHONE]
  {
    PhoneIsNoLogin();
    assert ([PHONE] + [MINTED])[1..] == [MINTED] && [MINTED][1..] == [];
    assert Others([MINTED]) == Others([]) == [];
  }

  lemma SavedLikeRows(rows: seq<Row>, next: Id, now: int)
    ensures var saved := WithIds(rows, next, now);
            |saved| == |rows| && forall i | 0 <= i < |rows| :: saved[i].IsLogin() <==> rows[i].IsLogin()
  {
    hide WithIds;
    SavedSize(rows, next, now);
    forall i | 0 <= i < |rows| ensures WithIds(rows, next, now)[i].IsLogin() <==> rows[i].IsLogin() {
      SavedAt(rows, next, now, i);
    }
  }

  lemma KeptMirrorIsRows(before: seq<Row>, rows: seq<Row>)
    ensures KeptMirror(before, rows).Ok? ==> KeptMirror(before, rows).value == rows
  {
  }

  lemma MirrorKeys(rows: seq<Row>, cluster: Cluster)
    requires Mirrors(rows, cluster)
    ensures Ids(rows) == cluster.Keys
  {
  }

  predicate OnlyFirstIsLogin(rows: seq<Row>) {
    forall i | 0 <= i < |rows| :: rows[i].IsLogin() <==> i == 0
  }

  lemma FirstIsLogin(placed: seq<Row>)
    requires |Logins(placed)| == 1 && placed == Logins(placed) + Others(placed)
    ensures OnlyFirstIsLogin(placed)
  {
    LoginsAndOthers(placed);
    assert placed[0] == Logins(placed)[0] && placed[0] in Logins(placed);
    forall i | 0 < i < |placed| ensures !placed[i].IsLogin() {
      assert placed[i] == Others(placed)[i - 1];
      assert Others(placed)[i - 1] in Others(placed);
    }
  }

  /** Enabling a disabled account mints nothing: it has a login afterwards if and only if it had one. */
  lemma EnablingMintsNothing(before: seq<Row>, rows: seq<Row>)
    requires KeptMirror(before, rows).Ok?
    ensures (exists row | row in rows :: row.IsLogin()) <==> exists row | row in before :: row.IsLogin()
  {
    var kept, had := set row | row in rows :: Fields(row), set row | row in before :: Fields(row);
    if row :| row in rows && row.IsLogin() {
      assert Fields(row) in kept;
      assert Fields(row) in had;
      var was :| was in before && Fields(was) == Fields(row);
      assert was.IsLogin();
    }
    if row :| row in before && row.IsLogin() {
      assert Fields(row) in had;
      assert Fields(row) in kept;
      var kin :| kin in rows && Fields(kin) == Fields(row);
      assert kin.IsLogin();
    }
  }

  // --- rotation ------------------------------------------------------------------------------

  /** `rotate_site_login`'s rows: every one but the login, and a minted one where none is placed. */
  function Rotated(rows: seq<Row>, alwaysPresent: bool): seq<Row> {
    if alwaysPresent then Others(rows) else Others(rows) + [MINTED]
  }

  lemma RotatedIsPlaced(previous: map<Id, Row>, rows: seq<Row>, alwaysPresent: bool, limit: nat)
    requires Validated(previous, rows, alwaysPresent, limit).Ok?
    requires Logins(rows) == if alwaysPresent then [] else [MINTED]
    ensures var placed := Validated(previous, rows, alwaysPresent, limit).value;
            Logins(placed) == [MINTED] && forall row | row in placed :: row in rows || row == MINTED
  {
    if alwaysPresent {
      var kept := MakeRoom(rows + [MINTED], limit);
      MakeRoomIs(rows + [MINTED], limit);
      LoginsOf(rows);
      assert [] + [MINTED] == [MINTED];
      FrontLogin(MINTED, kept);
    } else {
      FrontLogin(MINTED, rows);
    }
  }

  lemma RotatedRows(before: seq<Row>, alwaysPresent: bool)
    requires DistinctIds(before) && AllHaveIds(before)
    ensures var rows := Rotated(before, alwaysPresent);
            && Edits(ById(before), rows) && Logins(rows) == (if alwaysPresent then [] else [MINTED])
            && forall row | row in rows :: row == MINTED || (row in before && !row.IsLogin())
  {
    hide Logins, Others, ById, Ids, DistinctIds, AllHaveIds;
    var others := Others(before);
    LoginsAndOthers(before);
    OthersAlone(others);
    LoginsOf(others);
    ByIdIs(before);
    OthersDistinct(before);
    SameMembersIds(before, others);
    MintedHasNoId(others);
  }

  lemma MintedHasNoId(rows: seq<Row>)
    requires DistinctIds(rows)
    ensures DistinctIds(rows + [MINTED]) && Ids(rows + [MINTED]) == Ids(rows)
  {
    IdsMore(rows + [MINTED]);
    assert (rows + [MINTED])[..|rows|] == rows;
  }

  /** A rotation leaves one login with a new id. The one before it is on the cluster until the commit
      and gone once the hook ran; meanwhile the account holds more credentials than after. */
  lemma RotationReplacesLogin(before: seq<Row>, cluster: Cluster, alwaysPresent: bool, limit: nat, next: Id, now: int)
    requires Mirrors(before, cluster) && forall id | id in cluster :: id < next
    requires Validated(ById(before), Rotated(before, alwaysPresent), alwaysPresent, limit).Ok?
    ensures var previous := ById(before);
            var placed := Validated(previous, Rotated(before, alwaysPresent), alwaysPresent, limit).value;
            var saved, pushed := WithIds(placed, next, now), Pushed(cluster, previous, placed, next);
            && Mirrors(saved, pushed)
            && (exists row | row in saved :: row.IsLogin())
            && (forall row | row in saved && row.IsLogin() :: row.id.Some? && row.id.value !in cluster)
            && forall row | row in before && row.IsLogin() ::
                row.id.Some? && row.id.value in Unrevoked(cluster, previous, placed, next) && row.id.value !in pushed
  {
    hide Validated, WithIds, ById, Rotated, Pushed, Unrevoked, Ids, Logins, DistinctIds, AllHaveIds;
    var previous, rows := ById(before), Rotated(before, alwaysPresent);
    var placed := Validated(previous, rows, alwaysPresent, limit).value;
    var saved := WithIds(placed, next, now);
    RotatedSave(before, cluster, alwaysPresent, limit, next, now);
    MirrorKeys(saved, Pushed(cluster, previous, placed, next));
    forall row | row in before && row.IsLogin()
      ensures row.id.Some? && row.id.value in Unrevoked(cluster, previous, placed, next)
              && row.id.value !in Pushed(cluster, previous, placed, next)
    {
      OldLoginIsOut(before, cluster, placed, row, next, now);
      assert row.id.value in Ids(saved) + cluster.Keys;
    }
    SavedLogins(placed, cluster, next, now);
  }

  lemma RotatedSave(before: seq<Row>, cluster: Cluster, alwaysPresent: bool, limit: nat, next: Id, now: int)
    requires Mirrors(before, cluster) && forall id | id in cluster :: id < next
    requires Validated(ById(before), Rotated(before, alwaysPresent), alwaysPresent, limit).Ok?
    ensures var previous := ById(before);
            var placed := Validated(previous, Rotated(before, alwaysPresent), alwaysPresent, limit).value;
            var saved := WithIds(placed, next, now);
            && Mirrors(saved, Pushed(cluster, previous, placed, next))
            && Unrevoked(cluster, previous, placed, next).Keys == Ids(saved) + cluster.Keys
            && Logins(placed) == [MINTED]
            && forall row | row in placed :: row == MINTED || (row in before && !row.IsLogin())
  {
    hide Validated, WithIds, ById, Rotated, Pushed, Unrevoked, Ids, Logins;
    var previous, rows := ById(before), Rotated(before, alwaysPresent);
    RotatedRows(before, alwaysPresent);
    var placed := Validated(previous, rows, alwaysPresent, limit).value;
    RotatedIsPlaced(previous, rows, alwaysPresent, limit);
    PlacedStillEdits(previous, rows, alwaysPresent, limit);
    CommitMirrors(before, placed, cluster, next, now);
  }

  lemma SavedLogins(placed: seq<Row>, cluster: Cluster, next: Id, now: int)
    requires Logins(placed) == [MINTED] && forall id | id in cluster :: id < next
    ensures var saved := WithIds(placed, next, now);
            && (exists row | row in saved :: row.IsLogin())
            && forall row | row in saved && row.IsLogin() :: row.id.Some? && row.id.value !in cluster
  {
    hide WithIds, Created;
    LoginsAndOthers(placed);
    SavedSize(placed, next, now);
    var saved := WithIds(placed, next, now);
    assert MINTED in Logins(placed) && MINTED in placed;
    var m :| 0 <= m < |placed| && placed[m] == MINTED;
    SavedAt(placed, next, now, m);
    assert saved[m] in saved && saved[m].IsLogin();
    forall row | row in saved && row.IsLogin() ensures row.id.Some? && row.id.value !in cluster {
      var i :| 0 <= i < |saved| && saved[i] == row;
      SavedAt(placed, next, now, i);
      assert placed[i] in placed && placed[i] in Logins(placed);
    }
  }

  lemma OldLoginIsOut(before: seq<Row>, cluster: Cluster, placed: seq<Row>, row: Row, next: Id, now: int)
    requires Mirrors(before, cluster) && (forall id | id in cluster :: id < next) && row in before && row.IsLogin()
    requires forall other | other in placed :: other == MINTED || (other in before && !other.IsLogin())
    ensures row.id.Some? && row.id.value in cluster && row.id.value !in Ids(WithIds(placed, next, now))
  {
    hide WithIds, Created;
    var saved := WithIds(placed, next, now);
    SavedSize(placed, next, now);
    var k :| 0 <= k < |before| && before[k] == row;
    assert row.id.value in Ids(before);
    forall i | 0 <= i < |saved| ensures saved[i].id != row.id {
      SavedAt(placed, next, now, i);
      if placed[i].id.Some? {
        assert placed[i] in placed;
        var j :| 0 <= j < |before| && before[j] == placed[i];
        assert j != k;
      }
    }
  }
}
