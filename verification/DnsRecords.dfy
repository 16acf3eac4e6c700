/** DNS Records owned by documents, and the provider's records they are pushed to. Owners may share a
    record: each keeps its own row. */
module DnsRecords {
  import opened Wrappers
  import opened Strings

  // --- values --------------------------------------------------------------------------------

  /** The value without quotes, a trailing dot and case: what the comparison with the provider ignores. */
  function NormalizeValue(value: string): string {
    Lower(StripRight(StripRight(StripLeft(Strip(value), {'"'}), {'"'}), {'.'}))
  }

  // --- rows and provider records ---------------------------------------------------------------

  datatype Key = Key(zone: string, host: string, kind: string, value: string)

  datatype Owner = Owner(doctype: string, name: string)

  datatype Desired = Desired(zone: string, host: string, kind: string, value: string, ttl: int)

  datatype Row = Row(owner: Owner, key: Key, ttl: int, verified: bool)

  type Name = nat

  datatype ProviderRecord = ProviderRecord(zone: string, host: string, kind: string, content: string, ttl: int)

  /** What a provider tells records apart by. */
  datatype Place = Place(zone: string, host: string, kind: string, value: string)

  function PlaceOf(key: Key): Place {
    Place(key.zone, key.host, key.kind, NormalizeValue(key.value))
  }

  function PlaceAt(record: ProviderRecord): Place {
    Place(record.zone, record.host, record.kind, NormalizeValue(record.content))
  }

  type Provider = seq<ProviderRecord>

  function Places(provider: Provider): set<Place> {
    set i | 0 <= i < |provider| :: PlaceAt(provider[i])
  }

  function Find(provider: Provider, place: Place): Option<ProviderRecord> {
    if provider == [] then None
    else if PlaceAt(provider[0]) == place then Some(provider[0])
    else Find(provider[1..], place)
  }

  function Without(provider: Provider, gone: set<Place>): Provider {
    if provider == [] then []
    else (if PlaceAt(provider[0]) in gone then [] else [provider[0]]) + Without(provider[1..], gone)
  }

  function RecordOf(key: Key, ttl: int): ProviderRecord {
    ProviderRecord(key.zone, key.host, key.kind, key.value, ttl)
  }

  /** How the provider answers a push: the list, the delete of a record with another TTL, whose failure
      is swallowed, and the create, which may be refused or raise; `arrived`: it raised, but created. */
  datatype Answer =
    | Unread
    | Raised(deleted: bool, arrived: bool)
    | Refused(deleted: bool)
    | Created(deleted: bool)

  predicate IsThere(provider: Provider, key: Key, ttl: int) {
    Find(provider, PlaceOf(key)).Some? && Find(provider, PlaceOf(key)).value.ttl == ttl
  }

  /** What the removal of a row's record comes to: the delete goes through, or fails, which is swallowed;
      or the list before it raises. */
  datatype Removal = Deleted | Kept | Raises

  predicate Creates(answer: Answer) {
    answer.Created? || (answer.Raised? && answer.arrived)
  }

  /** The record stands at the provider when the push ends. */
  predicate Stands(provider: Provider, key: Key, ttl: int, answer: Answer) {
    !answer.Unread? && (IsThere(provider, key, ttl) || Creates(answer))
  }

  /** The push reports that it does. */
  predicate Succeeds(provider: Provider, key: Key, ttl: int, answer: Answer) {
    !answer.Unread? && (IsThere(provider, key, ttl) || answer.Created?)
  }

  /** A record with another TTL is deleted, and the create after it does not go through. */
  predicate Breaks(provider: Provider, key: Key, ttl: int, answer: Answer) {
    && !answer.Unread? && !Creates(answer)
    && PlaceOf(key) in Places(provider) && !IsThere(provider, key, ttl) && answer.deleted
  }

  /** `ensure_dns_record`: the provider after its requests. */
  function Ensured(provider: Provider, key: Key, ttl: int, answer: Answer): Provider {
    if answer.Unread? || IsThere(provider, key, ttl) then provider
    else
      var cleared :=
        if Find(provider, PlaceOf(key)).Some? && answer.deleted then Without(provider, {PlaceOf(key)}) else provider;
      if Creates(answer) then cleared + [RecordOf(key, ttl)] else cleared
  }

  lemma {:induction false} FindIs(provider: Provider, place: Place)
    ensures Find(provider, place).Some? <==> place in Places(provider)
    ensures Find(provider, place).Some? ==>
              Find(provider, place).value in provider && PlaceAt(Find(provider, place).value) == place
  {
    if provider != [] {
      FindIs(provider[1..], place);
      forall i | 0 < i < |provider| ensures provider[i] == provider[1..][i - 1] {
      }
      if place in Places(provider) && PlaceAt(provider[0]) != place {
        var i :| 0 <= i < |provider| && PlaceAt(provider[i]) == place;
        assert PlaceAt(provider[1..][i - 1]) == place;
      }
      if place in Places(provider[1..]) {
        var i :| 0 <= i < |provider[1..]| && PlaceAt(provider[1..][i]) == place;
        assert PlaceAt(provider[i + 1]) == place;
      }
    }
  }

  lemma {:induction false} WithoutHas(provider: Provider, gone: set<Place>, record: ProviderRecord)
    ensures record in Without(provider, gone) <==> record in provider && PlaceAt(record) !in gone
  {
    if provider != [] {
      WithoutHas(provider[1..], gone, record);
      assert provider == [provider[0]] + provider[1..];
    }
  }

  lemma WithoutPlaces(provider: Provider, gone: set<Place>)
    ensures Places(Without(provider, gone)) == Places(provider) - gone
  {
    forall place ensures place in Places(Without(provider, gone)) <==> place in Places(provider) - gone {
      if place in Places(Without(provider, gone)) {
        var i :| 0 <= i < |Without(provider, gone)| && PlaceAt(Without(provider, gone)[i]) == place;
        WithoutHas(provider, gone, Without(provider, gone)[i]);
      }
      if place in Places(provider) - gone {
        var i :| 0 <= i < |provider| && PlaceAt(provider[i]) == place;
        WithoutHas(provider, gone, provider[i]);
      }
    }
  }

  lemma {:induction false} WithoutMore(provider: Provider, gone: set<Place>, more: set<Place>)
    ensures Without(Without(provider, gone), more) == Without(provider, gone + more)
  {
    hide PlaceAt;
    if provider != [] {
      WithoutMore(provider[1..], gone, more);
      var rest := Without(provider[1..], gone);
      if PlaceAt(provider[0]) in gone {
        assert Without(provider, gone) == rest;
      } else {
        assert Without(provider, gone) == [provider[0]] + rest;
        assert ([provider[0]] + rest)[1..] == rest;
      }
    }
  }

  lemma {:induction false} WithoutNone(provider: Provider)
    ensures Without(provider, {}) == provider
  {
    if provider != [] {
      WithoutNone(provider[1..]);
    }
  }

  /** A push that finds the record or creates it leaves it at the provider, with the row's TTL; one that
      breaks off between its delete and its create takes it away; any other leaves the places as they are.
      Records of other places are never touched. */
  lemma EnsuredIs(provider: Provider, key: Key, ttl: int, answer: Answer)
    ensures var after := Ensured(provider, key, ttl, answer);
            && Places(after) == (if Stands(provider, key, ttl, answer) then Places(provider) + {PlaceOf(key)}
                                 else if Breaks(provider, key, ttl, answer) then Places(provider) - {PlaceOf(key)}
                                 else Places(provider))
            && (Stands(provider, key, ttl, answer) ==>
                  exists record | record in after :: PlaceAt(record) == PlaceOf(key) && record.ttl == ttl)
            && forall record | PlaceAt(record) != PlaceOf(key) :: record in after <==> record in provider
  {
    hide NormalizeValue, Find;
    var place, added, after := PlaceOf(key), RecordOf(key, ttl), Ensured(provider, key, ttl, answer);
    FindIs(provider, place);
    WithoutPlaces(provider, {place});
    forall record ensures record in Without(provider, {place}) <==> record in provider && PlaceAt(record) != place {
      WithoutHas(provider, {place}, record);
    }
    AddedPlaces(Without(provider, {place}), added);
    AddedPlaces(provider, added);
    var found := Find(provider, place);
    if Stands(provider, key, ttl, answer) {
      assert (if IsThere(provider, key, ttl) then found.value else added) in after;
    }
  }

  lemma AddedPlaces(provider: Provider, record: ProviderRecord)
    ensures Places(provider + [record]) == Places(provider) + {PlaceAt(record)}
  {
    var after := provider + [record];
    assert after[|provider|] == record;
    forall place ensures place in Places(after) <==> place in Places(provider) + {PlaceAt(record)} {
      if place in Places(provider) {
        var i :| 0 <= i < |provider| && PlaceAt(provider[i]) == place;
        assert PlaceAt(after[i]) == place;
      }
    }
  }

  // --- state ---------------------------------------------------------------------------------

  /** `queue` holds the rows whose push waits, `failed` those whose push did not go through. `missing` are
      the places that lost a record to a push that broke off or to a removal that was rolled back, and did
      not get it back; `orphaned` those whose record stayed when their last row went; `managed` every place
      a row was ever inserted for. */
  datatype State = State(rows: map<Name, Row>, nextName: Name, queue: set<Name>, failed: set<Name>,
                         provider: Provider, missing: set<Place>, orphaned: set<Place>, managed: set<Place>)

  function RowPlaces(rows: map<Name, Row>): set<Place> {
    set name | name in rows :: PlaceOf(rows[name].key)
  }

  predicate OnePerOwner(rows: map<Name, Row>) {
    forall a, b | a in rows && b in rows && a != b :: SameRecord(rows, a, b)
  }

  predicate SameRecord(rows: map<Name, Row>, a: Name, b: Name)
    requires a in rows && b in rows
  {
    rows[a].owner == rows[b].owner ==> rows[a].key != rows[b].key
  }

  predicate StoreOk(s: State) {
    && (forall name | name in s.rows :: name < s.nextName && Strip(s.rows[name].key.value) == s.rows[name].key.value)
    && OnePerOwner(s.rows)
  }

  /** Another row wants the very same record. */
  predicate StillWanted(rows: map<Name, Row>, name: Name)
    requires name in rows
  {
    exists other | other in rows && other != name :: rows[other].key == rows[name].key
  }

  /** The places given up with the removed rows. */
  function Dropped(rows: map<Name, Row>, removed: set<Name>): set<Place> {
    set name | name in removed && name in rows && !StillWanted(rows, name) :: PlaceOf(rows[name].key)
  }

  function KeyOf(row: Desired): Key {
    Key(row.zone, Lower(row.host), row.kind, Strip(row.value))
  }

  /** A later row of the same key replaces an earlier one. */
  function Wanted(desired: seq<Desired>): map<Key, int> {
    if desired == [] then map[]
    else Wanted(desired[..|desired| - 1])[KeyOf(desired[|desired| - 1]) := desired[|desired| - 1].ttl]
  }

  /** The hosts a caller gives are the relative hosts of validated names. */
  predicate Trimmed(desired: seq<Desired>) {
    forall i | 0 <= i < |desired| :: Strip(desired[i].host) == desired[i].host
  }

  function Stale(s: State, owner: Owner, wanted: map<Key, int>): set<Name> {
    set name | name in s.rows && s.rows[name].owner == owner && s.rows[name].key !in wanted
  }

  /** The rows before that are still there are exactly those of other owners and the owner's wanted
      ones, untouched. */
  predicate KeepsRows(s: State, owner: Owner, wanted: map<Key, int>, t: State) {
    forall name | name in s.rows ::
      && (name in t.rows <==> name !in Stale(s, owner, wanted))
      && (name in t.rows ==> t.rows[name] == s.rows[name])
  }

  predicate NewRow(s: State, owner: Owner, wanted: map<Key, int>, t: State, name: Name)
    requires name in t.rows
  {
    var row := t.rows[name];
    name >= s.nextName && row.owner == owner && row.key in wanted && row.ttl == wanted[row.key] && !row.verified
  }

  predicate HasRow(rows: map<Name, Row>, owner: Owner, key: Key) {
    exists name | name in rows :: rows[name].owner == owner && rows[name].key == key
  }

  /** The places whose record goes with the removed rows, those in `kept` excepted. */
  function Taken(s: State, removed: set<Name>, kept: set<Name>): set<Place> {
    Dropped(s.rows, removed - kept)
  }

  /** The places no row wants any more, and whose record is still there. */
  function Orphaned(s: State, removed: set<Name>, kept: set<Name>, t: State): set<Place> {
    (s.orphaned + Dropped(s.rows, removed * kept)) * Places(t.provider) - RowPlaces(t.rows)
  }

  /** What one reconciliation of an owner does when it commits. `kept` are the rows whose delete at the
      provider failed. */
  predicate Reconciles(s: State, owner: Owner, wanted: map<Key, int>, kept: set<Name>, t: State) {
    && StoreOk(t)
    && s.nextName <= t.nextName
    && KeepsRows(s, owner, wanted, t)
    && (forall name | name in t.rows && name !in s.rows :: NewRow(s, owner, wanted, t, name))
    && (forall key | key in wanted :: HasRow(t.rows, owner, key))
    && t.queue == s.queue + (t.rows.Keys - s.rows.Keys)
    && t.failed == s.failed && t.missing == s.missing
    && t.provider == Without(s.provider, Taken(s, Stale(s, owner, wanted), kept))
    && t.orphaned == Orphaned(s, Stale(s, owner, wanted), kept, t)
    && t.managed == s.managed + NewPlaces(s, t)
  }

  /** What is left of one that rolls back: the rows are as they were, the deletes that went through are not
      undone. `gone` are the rows whose delete did. */
  predicate RolledBack(s: State, owner: Owner, wanted: map<Key, int>, gone: set<Name>, t: State) {
    && gone <= Stale(s, owner, wanted)
    && t == s.(provider := Without(s.provider, Dropped(s.rows, gone)),
               missing := s.missing + Dropped(s.rows, gone) * Places(s.provider))
  }

  /** The removal asks the provider, and its list raises. */
  predicate Fails(rows: map<Name, Row>, name: Name, answers: Name -> Removal)
    requires name in rows
  {
    !StillWanted(rows, name) && answers(name).Raises?
  }

  function KeptRows(names: set<Name>, answers: Name -> Removal): set<Name> {
    set name | name in names && answers(name).Kept?
  }

  // --- the DNS Record table --------------------------------------------------------------------

  lemma WantedUpTo(desired: seq<Desired>, i: nat)
    requires i < |desired|
    ensures Wanted(desired[..i + 1]) == Wanted(desired[..i])[KeyOf(desired[i]) := desired[i].ttl]
  {
    assert desired[..i + 1][..i] == desired[..i];
  }

  lemma {:induction false} WantedComesFrom(desired: seq<Desired>, key: Key)
    requires key in Wanted(desired)
    ensures exists i | 0 <= i < |desired| :: KeyOf(desired[i]) == key
  {
    var last := |desired| - 1;
    if KeyOf(desired[last]) != key {
      WantedComesFrom(desired[..last], key);
      var i :| 0 <= i < last && KeyOf(desired[..last][i]) == key;
      assert KeyOf(desired[i]) == key;
    }
  }

  lemma WantedIsStripped(desired: seq<Desired>, key: Key)
    requires key in Wanted(desired)
    ensures Strip(key.value) == key.value
  {
    WantedComesFrom(desired, key);
    var i :| 0 <= i < |desired| && KeyOf(desired[i]) == key;
    StripTwice(desired[i].value);
  }

  lemma DroppedOneMore(s: State, owner: Owner, removed: set<Name>, gone: set<Name>, name: Name)
    requires OnePerOwner(s.rows) && removed <= s.rows.Keys && name in s.rows && name !in removed && gone <= removed
    requires s.rows[name].owner == owner && forall other | other in removed :: s.rows[other].owner == owner
    ensures StillWanted(s.rows - removed, name) <==> StillWanted(s.rows, name)
    ensures Dropped(s.rows, gone + {name}) ==
            Dropped(s.rows, gone) + if StillWanted(s.rows, name) then {} else {PlaceOf(s.rows[name].key)}
  {
    if StillWanted(s.rows, name) {
      var other :| other in s.rows && other != name && s.rows[other].key == s.rows[name].key;
      assert SameRecord(s.rows, other, name);
      assert other in s.rows - removed;
    }
    if StillWanted(s.rows - removed, name) {
      var other :| other in s.rows - removed && other != name && s.rows[other].key == s.rows[name].key;
      assert other in s.rows;
    }
  }

  /** Where no removal fails, the deletes that went through are all those not kept. */
  lemma TakenIs(s: State, removed: set<Name>, gone: set<Name>, answers: Name -> Removal)
    requires removed <= s.rows.Keys && forall name | name in removed :: !Fails(s.rows, name, answers)
    requires gone == (set name | name in removed && answers(name).Deleted?)
    ensures Dropped(s.rows, gone) == Taken(s, removed, KeptRows(removed, answers))
  {
    hide StillWanted, PlaceOf;
    forall name | name in removed && !StillWanted(s.rows, name)
      ensures name in gone <==> name in removed - KeptRows(removed, answers)
    {
    }
  }

  /** `s` without the removed rows, and without the records of those whose delete went through. */
  function Deleting(s: State, removed: set<Name>, gone: set<Name>): State {
    s.(rows := s.rows - removed, provider := Without(s.provider, Dropped(s.rows, gone)))
  }

  function RowDeleted(s: State, name: Name, answer: Removal): State
    requires name in s.rows
  {
    s.(rows := s.rows - {name},
       provider := if StillWanted(s.rows, name) || !answer.Deleted? then s.provider
                   else Without(s.provider, {PlaceOf(s.rows[name].key)}))
  }

  function Gone(gone: set<Name>, name: Name, answer: Removal): set<Name> {
    if answer.Deleted? then gone + {name} else gone
  }

  lemma DeletingOneMore(s: State, owner: Owner, removed: set<Name>, gone: set<Name>, name: Name, answer: Removal)
    requires OnePerOwner(s.rows) && removed <= s.rows.Keys && name in s.rows && name !in removed && gone <= removed
    requires s.rows[name].owner == owner && forall other | other in removed :: s.rows[other].owner == owner
    ensures RowDeleted(Deleting(s, removed, gone), name, answer)
            == Deleting(s, removed + {name}, Gone(gone, name, answer))
    ensures StillWanted(Deleting(s, removed, gone).rows, name) <==> StillWanted(s.rows, name)
  {
    hide StillWanted, Dropped, Without, OnePerOwner, PlaceOf;
    DroppedOneMore(s, owner, removed, gone, name);
    WithoutMore(s.provider, Dropped(s.rows, gone), {PlaceOf(s.rows[name].key)});
    assert s.rows - (removed + {name}) == s.rows - removed - {name};
    assert Dropped(s.rows, gone) + {} == Dropped(s.rows, gone);
  }

  lemma DeletingNone(s: State)
    ensures Deleting(s, {}, {}) == s
  {
    NoneDropped(s.rows);
    WithoutNone(s.provider);
  }

  lemma DeletingRows(s: State, removed: set<Name>, gone: set<Name>)
    ensures Deleting(s, removed, gone).rows == s.rows - removed
  {
  }

  /** The owner's rows outside `todo` have been visited, and none of their removals failed. */
  ghost predicate Visiting(s: State, owner: Owner, full: map<Key, int>, answers: Name -> Removal, todo: set<Name>,
                     wanted: map<Key, int>, removed: set<Name>, gone: set<Name>)
  {
    var mine := OwnRows(s, owner);
    && todo <= mine && StoreOk(s)
    && removed == (set name | name in mine - todo && s.rows[name].key !in full)
    && gone == (set name | name in removed && answers(name).Deleted?)
    && (forall name | name in removed :: !Fails(s.rows, name, answers))
    && (forall key :: key in wanted <==> key in full && !HasRowIn(s.rows, mine - todo, key))
    && forall key | key in wanted :: wanted[key] == full[key]
  }

  function OwnRows(s: State, owner: Owner): set<Name> {
    set name | name in s.rows && s.rows[name].owner == owner
  }

  lemma VisitNone(s: State, owner: Owner, full: map<Key, int>, answers: Name -> Removal)
    requires StoreOk(s)
    ensures Visiting(s, owner, full, answers, OwnRows(s, owner), full, {}, {})
  {
    assert OwnRows(s, owner) - OwnRows(s, owner) == {};
  }

  lemma VisitNext(s: State, owner: Owner, full: map<Key, int>, answers: Name -> Removal, todo: set<Name>,
                  wanted: map<Key, int>, removed: set<Name>, gone: set<Name>, name: Name)
    requires Visiting(s, owner, full, answers, todo, wanted, removed, gone) && name in todo
    ensures name in s.rows && name !in removed
    ensures var key := s.rows[name].key;
            if key in wanted then Visiting(s, owner, full, answers, todo - {name}, wanted - {key}, removed, gone)
            else if Fails(s.rows, name, answers) then
              && answers(name).Raises? && !StillWanted(Deleting(s, removed, gone).rows, name)
              && removed <= Stale(s, owner, full) && name in Stale(s, owner, full)
              && gone <= removed && forall other | other in gone :: answers(other).Deleted?
            else
              && !(answers(name).Raises? && !StillWanted(Deleting(s, removed, gone).rows, name))
              && Visiting(s, owner, full, answers, todo - {name}, wanted, removed + {name},
                          Gone(gone, name, answers(name)))
              && RowDeleted(Deleting(s, removed, gone), name, answers(name))
                 == Deleting(s, removed + {name}, Gone(gone, name, answers(name)))
  {
    hide StillWanted, Deleting, RowDeleted, Dropped, Without, HasRowIn;
    var mine := OwnRows(s, owner);
    OnlyOneRow(s.rows, mine, todo, name);
    HasOneMore(s.rows, mine, todo, name);
    DeletingOneMore(s, owner, removed, gone, name, answers(name));
  }

  lemma VisitedAll(s: State, owner: Owner, full: map<Key, int>, answers: Name -> Removal,
                   wanted: map<Key, int>, removed: set<Name>, gone: set<Name>)
    requires Visiting(s, owner, full, answers, {}, wanted, removed, gone)
    ensures removed == Stale(s, owner, full) && gone <= removed
    ensures forall name | name in gone :: answers(name).Deleted?
    ensures forall name | name in removed :: !Fails(s.rows, name, answers)
    ensures Dropped(s.rows, gone) == Taken(s, removed, KeptRows(removed, answers))
    ensures forall key :: key in wanted <==> key in full && !HasRow(s.rows, owner, key)
    ensures forall key | key in wanted :: wanted[key] == full[key]
  {
    hide Dropped, Fails, KeptRows, Taken;
    var mine := OwnRows(s, owner);
    assert mine - {} == mine;
    assert removed == Stale(s, owner, full);
    TakenIs(s, removed, gone, answers);
    forall key ensures HasRowIn(s.rows, mine, key) <==> HasRow(s.rows, owner, key) {
    }
  }

  lemma DeletingIs(s: State, removed: set<Name>, gone: set<Name>)
    ensures Deleting(s, removed, gone)
            == s.(rows := s.rows - removed, provider := Without(s.provider, Dropped(s.rows, gone)))
  {
  }

  class DnsTable {
    var rows: map<Name, Row>
    var nextName: Name
    var queue: set<Name>
    var failed: set<Name>
    var provider: Provider
    ghost var missing: set<Place>
    ghost var orphaned: set<Place>
    ghost var managed: set<Place>

    ghost function Abstract(): State
      reads this
    {
      State(rows, nextName, queue, failed, provider, missing, orphaned, managed)
    }

    /** `on_trash` and the delete: the provider's records of the place go only with the last row that wants
        the very same record, and only if its delete goes through; no other record does. The row goes
        unless the provider's list raises. */
    method DeleteRow(name: Name, answer: Removal) returns (raised: bool)
      requires name in rows
      modifies this
      ensures raised <==> answer.Raises? && !StillWanted(old(rows), name)
      ensures forall other :: other in rows <==> other in old(rows) && (other != name || raised)
      ensures forall record :: record in provider <==>
                record in old(provider)
                && (PlaceAt(record) != PlaceOf(old(rows)[name].key) || StillWanted(old(rows), name) || !answer.Deleted?)
      ensures Abstract() == if raised then old(Abstract()) else RowDeleted(old(Abstract()), name, answer)
    {
      var stillWanted := StillWanted(rows, name);
      forall record ensures record in Without(provider, {PlaceOf(rows[name].key)}) <==>
                            record in provider && PlaceAt(record) != PlaceOf(rows[name].key)
      {
        WithoutHas(provider, {PlaceOf(rows[name].key)}, record);
      }
      if !stillWanted {
        match answer
        case Deleted => provider := Without(provider, {PlaceOf(rows[name].key)});
        case Kept =>
        case Raises => return true;
      }
      raised := false;
      rows := rows - {name};
    }

    /** `insert`; the row's push is queued for after the commit. */
    method InsertRow(owner: Owner, key: Key, ttl: int) returns (name: Name)
      modifies this
      ensures name == old(nextName)
      ensures Abstract() == State(old(rows)[name := Row(owner, key, ttl, false)], name + 1, old(queue) + {name},
                                  old(failed), old(provider), old(missing), old(orphaned),
                                  old(managed) + {PlaceOf(key)})
    {
      name := nextName;
      rows := rows[name := Row(owner, key, ttl, false)];
      queue := queue + {name};
      managed := managed + {PlaceOf(key)};
      nextName := nextName + 1;
    }

    /** The caller's transaction: it rolls back when a removal raises or, unless it `completes`, later. */
    method ReconcileManagedRecords(owner: Owner, desired: seq<Desired>, answers: Name -> Removal, completes: bool)
      returns (committed: bool, ghost gone: set<Name>)
      requires StoreOk(Abstract()) && Trimmed(desired)
      modifies this
      ensures var s, stale := old(Abstract()), Stale(old(Abstract()), owner, Wanted(desired));
              && (committed <==> completes && forall name | name in stale :: !Fails(s.rows, name, answers))
              && (committed ==> Reconciles(s, owner, Wanted(desired), KeptRows(stale, answers), Abstract()))
              && (!committed ==>
                    && RolledBack(s, owner, Wanted(desired), gone, Abstract())
                    && forall name | name in gone :: answers(name).Deleted?)
    {
      hide Without, StillWanted, Dropped, RowPlaces, StoreOk, Fails, Deleting, Inserting, Reconciles, Stale, Taken,
        Orphaned, KeptRows;
      ghost var s, full := Abstract(), Wanted(desired);
      var rows0, nextName0, queue0 := rows, nextName, queue;
      var wanted := WantedRows(desired);
      ghost var removed: set<Name>;
      committed, wanted, removed, gone := DeleteStale(owner, wanted, answers);
      ghost var kept := KeptRows(Stale(s, owner, full), answers);
      DeletingIs(s, removed, gone);
      if committed {
        InsertStarts(s, owner, desired, kept, wanted, Abstract());
        InsertMissing(s, owner, full, kept, wanted);
        InsertEnds(s, owner, full, kept, Abstract());
        orphaned := Orphaned(s, Stale(s, owner, full), kept, Abstract());
        committed := completes;
      }
      if !committed {
        rows, nextName, queue, orphaned, managed := rows0, nextName0, queue0, s.orphaned, s.managed;
        missing := s.missing + Dropped(s.rows, gone) * Places(s.provider);
      }
    }

    method WantedRows(desired: seq<Desired>) returns (wanted: map<Key, int>)
      ensures wanted == Wanted(desired)
    {
      wanted := map[];
      for i := 0 to |desired|
        invariant wanted == Wanted(desired[..i])
      {
        WantedUpTo(desired, i);
        wanted := wanted[KeyOf(desired[i]) := desired[i].ttl];
      }
      assert desired[..|desired|] == desired;
    }

    /** Pops the keys that have a row; the rest of the owner's rows go, until one of them raises. */
    method DeleteStale(owner: Owner, full: map<Key, int>, answers: Name -> Removal)
      returns (done: bool, wanted: map<Key, int>, ghost removed: set<Name>, ghost gone: set<Name>)
      requires StoreOk(Abstract())
      modifies this
      ensures var s, stale := old(Abstract()), Stale(old(Abstract()), owner, full);
              && Abstract() == Deleting(s, removed, gone)
              && gone <= stale && (forall name | name in gone :: answers(name).Deleted?)
              && (done <==> forall name | name in stale :: !Fails(s.rows, name, answers))
              && (done ==>
                    && removed == stale && Dropped(s.rows, gone) == Taken(s, stale, KeptRows(stale, answers))
                    && (forall key :: key in wanted <==> key in full && !HasRow(s.rows, owner, key))
                    && (forall key | key in wanted :: wanted[key] == full[key]))
    {
      hide Lower, Strip, NormalizeValue, Without, StillWanted, Dropped, OnePerOwner, Deleting, RowDeleted, Visiting,
        Stale, Taken, KeptRows, HasRow, StoreOk;
      ghost var s := Abstract();
      done, wanted, removed, gone := true, full, {}, {};
      var todo := set name | name in rows && rows[name].owner == owner;
      DeletingNone(s);
      VisitNone(s, owner, full, answers);
      while todo != {}
        invariant Visiting(s, owner, full, answers, todo, wanted, removed, gone)
        invariant Abstract() == Deleting(s, removed, gone)
        decreases todo
      {
        var name :| name in todo;
        DeletingRows(s, removed, gone);
        VisitNext(s, owner, full, answers, todo, wanted, removed, gone, name);
        if rows[name].key in wanted {
          wanted := wanted - {rows[name].key};
        } else {
          var raised := DeleteRow(name, answers(name));
          if raised {
            done := false;
            return;
          }
          removed, gone := removed + {name}, Gone(gone, name, answers(name));
        }
        todo := todo - {name};
      }
      VisitedAll(s, owner, full, answers, wanted, removed, gone);
    }

    /** The rows of the wanted keys that have none. */
    method InsertMissing(ghost s: State, owner: Owner, ghost full: map<Key, int>, ghost kept: set<Name>,
                         missingKeys: map<Key, int>)
      requires Inserting(s, owner, full, kept, missingKeys, Abstract())
      modifies this
      ensures Inserting(s, owner, full, kept, map[], Abstract()) && provider == old(provider) && failed == old(failed)
    {
      hide Inserting;
      var wanted := missingKeys;
      while wanted != map[]
        invariant Inserting(s, owner, full, kept, wanted, Abstract())
        invariant provider == old(provider) && failed == old(failed)
        decreases |wanted|
      {
        var key :| key in wanted;
        InsertKeeps(s, owner, full, kept, wanted, Abstract(), key);
        var name := InsertRow(owner, key, wanted[key]);
        wanted := wanted - {key};
      }
    }

    /** `ensure_dns_record`, request by request. */
    method EnsureDnsRecord(key: Key, ttl: int, answer: Answer) returns (raised: bool, result: bool)
      modifies this`provider
      ensures provider == Ensured(old(provider), key, ttl, answer)
      ensures raised <==> answer.Unread? || (answer.Raised? && !IsThere(old(provider), key, ttl))
      ensures result <==> Succeeds(old(provider), key, ttl, answer)
    {
      raised, result := false, false;
      if answer.Unread? {
        return true, false;
      }
      var found := Find(provider, PlaceOf(key));
      if found.Some? {
        if found.value.ttl == ttl {
          return false, true;
        }
        if answer.deleted {
          provider := Without(provider, {PlaceOf(key)});
        }
      }
      match answer
      case Raised(_, arrived) =>
        if arrived {
          provider := provider + [RecordOf(key, ttl)];
        }
        raised := true;
      case Refused(_) => result := false;
      case Created(_) =>
        provider := provider + [RecordOf(key, ttl)];
        result := true;
      case Unread =>
    }

    /** A queued job: the row may be gone by then. An error leaves its confirmation as it was; otherwise the
        row is confirmed if and only if the record was there or is created, and then it is there. Every
        other row stays. */
    method PushToProvider(name: Name, answer: Answer)
      requires name in queue
      modifies this
      ensures ConfirmsOnly(old(Abstract()), name, answer, Abstract())
      ensures Abstract() == Pushed(old(Abstract()), name, answer)
    {
      hide ConfirmsOnly;
      PushedConfirms(Abstract(), name, answer);
      queue := queue - {name};
      if name in rows {
        var row := rows[name];
        ghost var before := provider;
        var raised, result := EnsureDnsRecord(row.key, row.ttl, answer);
        if !raised {
          rows := rows[name := row.(verified := result)];
        }
        failed := if result then failed - {name} else failed + {name};
        missing := if Stands(before, row.key, row.ttl, answer) then missing - {PlaceOf(row.key)}
                   else if Breaks(before, row.key, row.ttl, answer) then missing + {PlaceOf(row.key)} else missing;
      }
    }
  }

  /** The row's confirmation is what the push found, or as it was where the push raised; no other row
      changes. */
  predicate ConfirmsOnly(s: State, name: Name, answer: Answer, t: State) {
    && t.rows.Keys == s.rows.Keys
    && (forall other | other in t.rows && other != name :: t.rows[other] == s.rows[other])
    && (name in s.rows ==>
          var row := s.rows[name];
          var there := IsThere(s.provider, row.key, row.ttl);
          if answer.Unread? || (answer.Raised? && !there) then t.rows[name] == row
          else
            && t.rows[name] == row.(verified := there || answer.Created?)
            && (t.rows[name].verified ==> HasRecord(t.provider, row)))
  }

  lemma PushedConfirms(s: State, name: Name, answer: Answer)
    ensures ConfirmsOnly(s, name, answer, Pushed(s, name, answer))
  {
    hide IsThere, Ensured, PlaceOf, PlaceAt;
    if name in s.rows {
      EnsuredIs(s.provider, s.rows[name].key, s.rows[name].ttl, answer);
    }
  }

  predicate HasRecord(provider: Provider, row: Row) {
    exists record | record in provider :: PlaceAt(record) == PlaceOf(row.key) && record.ttl == row.ttl
  }

  function Pushed(s: State, name: Name, answer: Answer): State {
    if name !in s.rows then s.(queue := s.queue - {name})
    else
      var row := s.rows[name];
      var place := PlaceOf(row.key);
      var result := Succeeds(s.provider, row.key, row.ttl, answer);
      var raised := answer.Unread? || (answer.Raised? && !result);
      s.(queue := s.queue - {name},
         rows := if raised then s.rows else s.rows[name := row.(verified := result)],
         failed := if result then s.failed - {name} else s.failed + {name},
         provider := Ensured(s.provider, row.key, row.ttl, answer),
         missing := if Stands(s.provider, row.key, row.ttl, answer) then s.missing - {place}
                    else if Breaks(s.provider, row.key, row.ttl, answer) then s.missing + {place} else s.missing)
  }

  /** Some wanted keys have no row yet; all else of a reconciliation is done. */
  predicate Inserting(s: State, owner: Owner, full: map<Key, int>, kept: set<Name>, wanted: map<Key, int>, t: State) {
    && (forall key | key in wanted :: key in full && wanted[key] == full[key] && Strip(key.value) == key.value)
    && StoreOk(t) && s.nextName <= t.nextName
    && (forall name | name in s.rows :: name < s.nextName)
    && KeepsRows(s, owner, full, t)
    && (forall name | name in t.rows && name !in s.rows :: NewRow(s, owner, full, t, name))
    && (forall key | key in full :: key in wanted <==> !HasRow(t.rows, owner, key))
    && t.queue == s.queue + (t.rows.Keys - s.rows.Keys)
    && t.failed == s.failed && t.missing == s.missing && t.orphaned == s.orphaned
    && t.provider == Without(s.provider, Taken(s, Stale(s, owner, full), kept))
    && t.managed == s.managed + NewPlaces(s, t)
  }

  function NewPlaces(s: State, t: State): set<Place> {
    set name | name in t.rows && name !in s.rows :: PlaceOf(t.rows[name].key)
  }

  function Inserted(t: State, owner: Owner, key: Key, ttl: int): State {
    t.(rows := t.rows[t.nextName := Row(owner, key, ttl, false)], nextName := t.nextName + 1,
       queue := t.queue + {t.nextName}, managed := t.managed + {PlaceOf(key)})
  }

  lemma InsertStarts(s: State, owner: Owner, desired: seq<Desired>, kept: set<Name>, missing: map<Key, int>, t: State)
    requires var full := Wanted(desired);
             && StoreOk(s) && t == s.(rows := s.rows - Stale(s, owner, full),
                  provider := Without(s.provider, Taken(s, Stale(s, owner, full), kept)))
             && (forall key :: key in missing <==> key in full && !HasRow(s.rows, owner, key))
             && forall key | key in missing :: missing[key] == full[key]
    ensures Inserting(s, owner, Wanted(desired), kept, missing, t)
  {
    hide Strip, PlaceOf, Without, Dropped, OnePerOwner, HasRow, Wanted;
    OneStays(s, owner, Wanted(desired));
    forall key | key in missing ensures Strip(key.value) == key.value {
      WantedIsStripped(desired, key);
    }
    assert t.rows.Keys - s.rows.Keys == {};
    assert NewPlaces(s, t) == {};
  }

  lemma InsertKeeps(s: State, owner: Owner, full: map<Key, int>, kept: set<Name>, wanted: map<Key, int>, t: State,
                    key: Key)
    requires Inserting(s, owner, full, kept, wanted, t) && key in wanted
    ensures Inserting(s, owner, full, kept, wanted - {key}, Inserted(t, owner, key, wanted[key]))
  {
    hide Strip, PlaceOf, Without, Dropped, OnePerOwner, HasRow, Stale;
    var row, u := Row(owner, key, wanted[key], false), Inserted(t, owner, key, wanted[key]);
    OneAdded(t.rows, t.nextName, row);
    assert u.rows.Keys == t.rows.Keys + {t.nextName};
    assert t.nextName !in s.rows;
    forall other | other in full ensures other in wanted - {key} <==> !HasRow(u.rows, owner, other) {
      HasRowAfter(t.rows, t.nextName, row, owner, other);
    }
    NewPlacesGrow(s, t, owner, key, wanted[key]);
  }

  lemma NewPlacesGrow(s: State, t: State, owner: Owner, key: Key, ttl: int)
    requires t.nextName !in t.rows && t.nextName !in s.rows
    ensures NewPlaces(s, Inserted(t, owner, key, ttl)) == NewPlaces(s, t) + {PlaceOf(key)}
  {
    hide PlaceOf;
    var u := Inserted(t, owner, key, ttl);
    assert u.rows[t.nextName].key == key;
    forall place | place in NewPlaces(s, t) ensures place in NewPlaces(s, u) {
      var name :| name in t.rows && name !in s.rows && PlaceOf(t.rows[name].key) == place;
      assert u.rows[name] == t.rows[name];
    }
  }

  lemma InsertEnds(s: State, owner: Owner, full: map<Key, int>, kept: set<Name>, t: State)
    requires Inserting(s, owner, full, kept, map[], t)
    ensures Reconciles(s, owner, full, kept, t.(orphaned := Orphaned(s, Stale(s, owner, full), kept, t)))
  {
    hide Strip, PlaceOf, Without, Dropped, OnePerOwner, HasRow, Stale;
  }

  // --- steps of the proofs above -----------------------------------------------------------------

  predicate HasRowIn(rows: map<Name, Row>, names: set<Name>, key: Key) {
    exists name | name in names && name in rows :: rows[name].key == key
  }

  lemma NoneDropped(rows: map<Name, Row>)
    ensures Dropped(rows, {}) == {}
  {
  }

  lemma OnlyOneRow(rows: map<Name, Row>, mine: set<Name>, todo: set<Name>, name: Name)
    requires OnePerOwner(rows) && mine <= rows.Keys && todo <= mine && name in todo
    requires forall a, b | a in mine && b in mine :: rows[a].owner == rows[b].owner
    ensures !HasRowIn(rows, mine - todo, rows[name].key)
  {
    forall other | other in mine - todo ensures rows[other].key != rows[name].key {
      assert SameRecord(rows, other, name);
    }
  }

  lemma HasOneMore(rows: map<Name, Row>, mine: set<Name>, todo: set<Name>, name: Name)
    requires mine <= rows.Keys && todo <= mine && name in todo
    ensures forall key :: HasRowIn(rows, mine - (todo - {name}), key) <==>
                          key == rows[name].key || HasRowIn(rows, mine - todo, key)
  {
    var more := mine - (todo - {name});
    forall key ensures HasRowIn(rows, more, key) <==> key == rows[name].key || HasRowIn(rows, mine - todo, key) {
      if HasRowIn(rows, mine - todo, key) {
        var other :| other in mine - todo && other in rows && rows[other].key == key;
        assert other in more;
      }
      if key == rows[name].key {
        assert name in more;
      }
    }
  }

  lemma OneStays(s: State, owner: Owner, full: map<Key, int>)
    requires StoreOk(s)
    ensures var t := s.(rows := s.rows - Stale(s, owner, full));
            && OnePerOwner(t.rows) && KeepsRows(s, owner, full, t)
            && forall key | key in full :: HasRow(s.rows, owner, key) <==> HasRow(t.rows, owner, key)
  {
    var rows := s.rows - Stale(s, owner, full);
    forall a, b | a in rows && b in rows && a != b ensures SameRecord(rows, a, b) {
      assert SameRecord(s.rows, a, b);
    }
    forall key | key in full && HasRow(s.rows, owner, key) ensures HasRow(rows, owner, key) {
      var name :| name in s.rows && s.rows[name].owner == owner && s.rows[name].key == key;
      assert name in rows;
    }
  }

  lemma OneAdded(rows: map<Name, Row>, name: Name, row: Row)
    requires OnePerOwner(rows) && name !in rows && !HasRow(rows, row.owner, row.key)
    ensures OnePerOwner(rows[name := row])
  {
    var more := rows[name := row];
    forall a, b | a in more && b in more && a != b ensures SameRecord(more, a, b) {
      if a != name && b != name {
        assert SameRecord(rows, a, b);
      }
    }
  }

  lemma HasRowAfter(rows: map<Name, Row>, name: Name, row: Row, owner: Owner, key: Key)
    requires name !in rows
    ensures HasRow(rows[name := row], owner, key) <==>
            (row.owner == owner && row.key == key) || HasRow(rows, owner, key)
  {
    var more := rows[name := row];
    if HasRow(rows, owner, key) {
      var other :| other in rows && rows[other].owner == owner && rows[other].key == key;
      assert other in more && more[other] == rows[other];
    }
    assert more[name] == row;
  }
}
