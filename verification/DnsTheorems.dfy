/** What the DNS Records of all owners make of the provider's records. */
module DnsTheorems {
  import opened Wrappers
  import opened Strings
  import opened DnsRecords

  // --- one reconciliation ----------------------------------------------------------------------

  /** An owner's record keys are exactly the desired ones, and no other owner's row changes. */
  lemma OwnerHasExactlyDesired(s: State, owner: Owner, wanted: map<Key, int>, kept: set<Name>, t: State)
    requires Reconciles(s, owner, wanted, kept, t)
    ensures forall key :: HasRow(t.rows, owner, key) <==> key in wanted
    ensures forall name ::
      name in t.rows && t.rows[name].owner != owner <==> name in s.rows && s.rows[name].owner != owner
    ensures forall name | name in s.rows && s.rows[name].owner != owner :: t.rows[name] == s.rows[name]
  {
    hide PlaceOf, Without, Dropped, OnePerOwner;
    forall key | HasRow(t.rows, owner, key) ensures key in wanted {
      var name :| name in t.rows && t.rows[name].owner == owner && t.rows[name].key == key;
      assert name in s.rows || NewRow(s, owner, wanted, t, name);
    }
    forall name | name in t.rows && name !in s.rows ensures t.rows[name].owner == owner {
      assert NewRow(s, owner, wanted, t, name);
    }
  }

  /** Reconciling the same records again changes nothing, also where a record of the first could not be
      deleted: nothing asks for it again. */
  lemma SecondReconcileChangesNothing(s: State, owner: Owner, wanted: map<Key, int>, kept: set<Name>, t: State,
                                      again: set<Name>, u: State)
    requires Reconciles(s, owner, wanted, kept, t) && Reconciles(t, owner, wanted, again, u)
    ensures u == t.(nextName := u.nextName)
  {
    hide PlaceOf, Without, OnePerOwner, NewRow, HasRow;
    NothingStale(s, owner, wanted, kept, t);
    NothingToRemove(t, again);
    WithoutNone(t.provider);
    NothingNew(t, owner, wanted, again, u);
    assert u.rows == t.rows;
    assert u.rows.Keys - t.rows.Keys == {};
    assert NewPlaces(t, u) == {};
  }

  lemma NothingStale(s: State, owner: Owner, wanted: map<Key, int>, kept: set<Name>, t: State)
    requires Reconciles(s, owner, wanted, kept, t)
    ensures Stale(t, owner, wanted) == {} && forall key | key in wanted :: HasRow(t.rows, owner, key)
  {
    hide PlaceOf, Without, OnePerOwner;
    OwnerHasExactlyDesired(s, owner, wanted, kept, t);
    forall name | name in t.rows ensures name !in Stale(t, owner, wanted) {
      assert t.rows[name].owner == owner ==> HasRow(t.rows, owner, t.rows[name].key);
    }
  }

  lemma NothingNew(t: State, owner: Owner, wanted: map<Key, int>, kept: set<Name>, u: State)
    requires Reconciles(t, owner, wanted, kept, u) && Stale(t, owner, wanted) == {}
    requires forall key | key in wanted :: HasRow(t.rows, owner, key)
    ensures forall name | name in u.rows :: name in t.rows
  {
    hide PlaceOf, Without, OnePerOwner, Orphaned, Taken;
    forall name | name in u.rows ensures name in t.rows {
      if name !in t.rows {
        assert NewRow(t, owner, wanted, u, name);
        var key := u.rows[name].key;
        assert HasRow(t.rows, owner, key);
        var first :| first in t.rows && t.rows[first].owner == owner && t.rows[first].key == key;
        OneRowOnly(u.rows, first, name);
        assert false;
      }
    }
  }

  lemma OneRowOnly(rows: map<Name, Row>, a: Name, b: Name)
    requires OnePerOwner(rows) && a in rows && b in rows && rows[a].owner == rows[b].owner && rows[a].key == rows[b].key
    ensures a == b
  {
    assert a != b ==> SameRecord(rows, a, b);
  }

  /** What a provider takes for one record: the same zone, host, type and normalized value. */
  predicate IsOneRecord(a: Key, b: Key) {
    a.zone == b.zone && a.host == b.host && a.kind == b.kind && NormalizeValue(a.value) == NormalizeValue(b.value)
  }

  lemma OneRecordIs(a: Key, b: Key)
    ensures IsOneRecord(a, b) <==> PlaceOf(a) == PlaceOf(b)
  {
  }

  /** A row that stays keeps its provider record if and only if every row removed for good, with its record
      deleted, is told apart from it by the provider. */
  lemma KeptRowStaysPublished(s: State, owner: Owner, wanted: map<Key, int>, kept: set<Name>, t: State, name: Name)
    requires Reconciles(s, owner, wanted, kept, t) && name in s.rows && name in t.rows
    requires PlaceOf(s.rows[name].key) in Places(s.provider)
    ensures PlaceOf(t.rows[name].key) in Places(t.provider) <==>
            forall gone | gone in Stale(s, owner, wanted) - kept && !StillWanted(s.rows, gone) ::
              !IsOneRecord(s.rows[gone].key, s.rows[name].key)
  {
    WithoutPlaces(s.provider, Taken(s, Stale(s, owner, wanted), kept));
  }

  /** Two values the provider takes for one: the first owner's removal takes the second's record. */
  lemma SharedPlaceIsLost() returns (s: State, owner: Owner, t: State)
    ensures StoreOk(s) && Reconciles(s, owner, map[], {}, t)
    ensures exists name | name in t.rows ::
              && t.rows[name].verified && name !in t.queue
              && PlaceOf(t.rows[name].key) in Places(s.provider)
              && PlaceOf(t.rows[name].key) !in Places(t.provider)
  {
    hide NormalizeValue, Strip, Lower;
    owner := Owner("Mail Domain", "a.test");
    var other := Owner("Mail Domain", "b.test");
    var dotted, bare := Key("z", "h", "CNAME", "a."), Key("z", "h", "CNAME", "a");
    SamePlace();
    var first, second := Row(owner, dotted, 60, true), Row(other, bare, 60, true);
    s := State(map[0 := first, 1 := second], 2, {}, {}, [RecordOf(dotted, 60)], {}, {}, {PlaceOf(bare)});
    t := s.(rows := map[1 := second], provider := []);
    assert s.rows[0] == first && s.rows[1] == second;
    assert Stale(s, owner, map[]) == {0};
    assert !StillWanted(s.rows, 0) by {
      assert s.rows[0].key != s.rows[1].key;
    }
    assert Dropped(s.rows, {0}) == {PlaceOf(bare)};
    OnlyRecordGoes(s.provider[0]);
    assert PlaceAt(s.provider[0]) == PlaceOf(bare);
    assert t.rows.Keys - s.rows.Keys == {};
    assert NewPlaces(s, t) == {};
    NothingToRemove(s, {});
    assert {0} - {} == {0} && {0} * {} == {};
    assert t.rows[1].verified;
  }

  lemma OnlyRecordGoes(record: ProviderRecord)
    ensures Without([record], {PlaceAt(record)}) == [] && Places([record]) == {PlaceAt(record)} && Places([]) == {}
  {
    hide PlaceAt;
    assert PlaceAt([record][0]) in Places([record]);
  }

  lemma NothingToRemove(s: State, kept: set<Name>)
    ensures {} - kept == {} && {} * kept == {} && Dropped(s.rows, {}) == {}
  {
  }

  lemma SamePlace()
    ensures NormalizeValue("a.") == NormalizeValue("a") == "a"
    ensures Strip("a.") == "a." && Strip("a") == "a"
  {
    assert Strip("a.") == "a." && Strip("a") == "a";
    assert StripLeft("a.", {'"'}) == "a." && StripRight("a.", {'"'}) == "a.";
    assert "a."[..1] == "a";
    assert StripRight("a", {'.'}) == "a" && StripRight("a.", {'.'}) == StripRight("a."[..1], {'.'});
    assert StripLeft("a", {'"'}) == "a" && StripRight("a", {'"'}) == "a";
    assert Lower("a") == "a";
  }

  // --- runs ----------------------------------------------------------------------------------

  datatype Event =
    | Reconcile(owner: Owner, wanted: map<Key, int>, kept: set<Name>)
    | RollBack(owner: Owner, wanted: map<Key, int>, gone: set<Name>)
    | Push(name: Name, answer: Answer)
    | Requeue(name: Name)

  /** No two of the keys are one record to the provider. */
  predicate DistinctPlaces(keys: set<Key>) {
    forall a, b | a in keys && b in keys && IsOneRecord(a, b) :: a == b
  }

  predicate Step(s: State, event: Event, t: State, keys: set<Key>) {
    match event
    case Reconcile(owner, wanted, kept) => wanted.Keys <= keys && Reconciles(s, owner, wanted, kept, t)
    case RollBack(owner, wanted, gone) => RolledBack(s, owner, wanted, gone, t)
    case Push(name, answer) => name in s.queue && t == Pushed(s, name, answer)
    case Requeue(name) => name in s.rows && t == s.(queue := s.queue + {name})
  }

  predicate IsRun(states: seq<State>, events: seq<Event>, keys: set<Key>) {
    && |states| == |events| + 1
    && forall i | 0 <= i < |events| :: Step(states[i], events[i], states[i + 1], keys)
  }

  predicate Initial(s: State) {
    s.rows == map[] && s.queue == {} && s.failed == {} && s.missing == {} && s.orphaned == {} && s.managed == {}
  }

  predicate RowsOk(s: State, keys: set<Key>) {
    forall name | name in s.rows ::
      && s.rows[name].key in keys
      && (s.rows[name].verified ==> PlaceOf(s.rows[name].key) in Places(s.provider) + s.missing)
      && (!s.rows[name].verified ==> name in s.queue || name in s.failed)
  }

  /** `foreign` is what the provider held before. */
  predicate ProviderOk(s: State, foreign: set<Place>) {
    && Places(s.provider) <= s.managed + foreign
    && foreign - s.managed <= Places(s.provider)
    && RowPlaces(s.rows) <= s.managed
    && s.orphaned == Places(s.provider) * s.managed - RowPlaces(s.rows)
    && s.missing !! Places(s.provider)
  }

  predicate Inv(s: State, keys: set<Key>, foreign: set<Place>) {
    StoreOk(s) && RowsOk(s, keys) && ProviderOk(s, foreign)
  }

  /** A row that stays is not among the places given up. */
  lemma StaysUndropped(s: State, owner: Owner, wanted: map<Key, int>, name: Name, keys: set<Key>)
    requires DistinctPlaces(keys) && forall row | row in s.rows :: s.rows[row].key in keys
    requires name in s.rows && name !in Stale(s, owner, wanted)
    ensures PlaceOf(s.rows[name].key) !in Dropped(s.rows, Stale(s, owner, wanted))
  {
    hide PlaceOf;
    forall gone | gone in Stale(s, owner, wanted) && !StillWanted(s.rows, gone)
      ensures PlaceOf(s.rows[gone].key) != PlaceOf(s.rows[name].key)
    {
      OneRecordIs(s.rows[gone].key, s.rows[name].key);
    }
  }

  /** A place that is not given up still has a row, of another owner if the owner's went. */
  lemma UndroppedHasRow(s: State, owner: Owner, wanted: map<Key, int>, t: State, name: Name)
    requires StoreOk(s) && KeepsRows(s, owner, wanted, t) && name in s.rows
    requires PlaceOf(s.rows[name].key) !in Dropped(s.rows, Stale(s, owner, wanted))
    ensures PlaceOf(s.rows[name].key) in RowPlaces(t.rows)
  {
    hide PlaceOf;
    if name in t.rows {
      assert t.rows[name].key == s.rows[name].key;
    } else {
      assert StillWanted(s.rows, name);
      var other :| other in s.rows && other != name && s.rows[other].key == s.rows[name].key;
      assert SameRecord(s.rows, other, name);
      assert other in t.rows && t.rows[other].key == s.rows[name].key;
    }
  }

  /** The places given up, and those whose record is deleted or stays. */
  lemma DroppedSplits(s: State, removed: set<Name>, kept: set<Name>)
    ensures Dropped(s.rows, removed) == Taken(s, removed, kept) + Dropped(s.rows, removed * kept)
    ensures Dropped(s.rows, removed) <= RowPlaces(s.rows)
  {
    hide PlaceOf, StillWanted;
    forall place | place in Dropped(s.rows, removed)
      ensures place in Taken(s, removed, kept) + Dropped(s.rows, removed * kept) && place in RowPlaces(s.rows)
    {
      var name :| name in removed && name in s.rows && !StillWanted(s.rows, name) && PlaceOf(s.rows[name].key) == place;
      assert name in removed * kept || name in removed - kept;
    }
  }

  lemma ReconcileKeepsRows(s: State, owner: Owner, wanted: map<Key, int>, kept: set<Name>, t: State, keys: set<Key>)
    requires DistinctPlaces(keys) && StoreOk(s) && RowsOk(s, keys) && wanted.Keys <= keys
        && Reconciles(s, owner, wanted, kept, t)
    ensures RowsOk(t, keys)
  {
    hide PlaceOf, OnePerOwner, Dropped, DistinctPlaces;
    DroppedSplits(s, Stale(s, owner, wanted), kept);
    WithoutPlaces(s.provider, Taken(s, Stale(s, owner, wanted), kept));
    forall name | name in t.rows
      ensures t.rows[name].key in keys
      ensures t.rows[name].verified ==> PlaceOf(t.rows[name].key) in Places(t.provider) + t.missing
      ensures !t.rows[name].verified ==> name in t.queue || name in t.failed
    {
      if name in s.rows {
        StaysUndropped(s, owner, wanted, name, keys);
      } else {
        assert NewRow(s, owner, wanted, t, name);
      }
    }
  }

  lemma ReconcileKeepsProvider(s: State, owner: Owner, wanted: map<Key, int>, kept: set<Name>, t: State,
                               foreign: set<Place>)
    requires StoreOk(s) && ProviderOk(s, foreign) && Reconciles(s, owner, wanted, kept, t)
    ensures ProviderOk(t, foreign)
  {
    hide PlaceOf, OnePerOwner, HasRow, Dropped, RowPlaces, Places, NewPlaces, StoreOk, KeepsRows;
    var stale := Stale(s, owner, wanted);
    WithoutPlaces(s.provider, Taken(s, stale, kept));
    DroppedSplits(s, stale, kept);
    RowsAfter(s, owner, wanted, kept, t);
  }

  /** The rows after: the new ones and those that are not given up. */
  lemma RowsAfter(s: State, owner: Owner, wanted: map<Key, int>, kept: set<Name>, t: State)
    requires StoreOk(s) && Reconciles(s, owner, wanted, kept, t)
    ensures RowPlaces(t.rows) <= RowPlaces(s.rows) + NewPlaces(s, t)
    ensures NewPlaces(s, t) <= RowPlaces(t.rows)
    ensures RowPlaces(s.rows) - Dropped(s.rows, Stale(s, owner, wanted)) <= RowPlaces(t.rows)
  {
    hide PlaceOf, OnePerOwner, HasRow, Dropped, Orphaned, Taken, Stale;
    NewPlacesAreRows(s, t);
    forall place | place in RowPlaces(s.rows) - Dropped(s.rows, Stale(s, owner, wanted))
      ensures place in RowPlaces(t.rows)
    {
      var name :| name in s.rows && PlaceOf(s.rows[name].key) == place;
      UndroppedHasRow(s, owner, wanted, t, name);
    }
    forall place | place in RowPlaces(t.rows) ensures place in RowPlaces(s.rows) + NewPlaces(s, t) {
      var name :| name in t.rows && PlaceOf(t.rows[name].key) == place;
      assert name in s.rows ==> PlaceOf(s.rows[name].key) == place;
    }
  }

  lemma RollBackKeepsInv(s: State, owner: Owner, wanted: map<Key, int>, gone: set<Name>, t: State, keys: set<Key>,
                         foreign: set<Place>)
    requires Inv(s, keys, foreign) && RolledBack(s, owner, wanted, gone, t)
    ensures Inv(t, keys, foreign)
  {
    hide PlaceOf, Dropped, Places, RowPlaces, OnePerOwner;
    WithoutPlaces(s.provider, Dropped(s.rows, gone));
    DroppedSplits(s, gone, {});
  }

  lemma NewPlacesAreRows(s: State, t: State)
    ensures NewPlaces(s, t) <= RowPlaces(t.rows)
  {
  }

  lemma PushKeepsInv(s: State, name: Name, answer: Answer, keys: set<Key>, foreign: set<Place>)
    requires Inv(s, keys, foreign)
    ensures Inv(Pushed(s, name, answer), keys, foreign)
  {
    hide Pushed, StoreOk, RowsOk, ProviderOk;
    PushKeepsStore(s, name, answer);
    PushKeepsRows(s, name, answer, keys, foreign);
    PushKeepsProvider(s, name, answer, foreign);
  }

  lemma PushKeepsStore(s: State, name: Name, answer: Answer)
    requires StoreOk(s)
    ensures StoreOk(Pushed(s, name, answer))
  {
    hide PlaceOf, Ensured, Succeeds, Breaks;
    var t := Pushed(s, name, answer);
    forall a, b | a in t.rows && b in t.rows && a != b ensures SameRecord(t.rows, a, b) {
      assert SameRecord(s.rows, a, b);
    }
  }

  lemma PushKeepsRows(s: State, name: Name, answer: Answer, keys: set<Key>, foreign: set<Place>)
    requires RowsOk(s, keys) && ProviderOk(s, foreign)
    ensures RowsOk(Pushed(s, name, answer), keys)
  {
    hide PlaceOf, Ensured, Places, RowPlaces, IsThere;
    if name in s.rows {
      EnsuredIs(s.provider, s.rows[name].key, s.rows[name].ttl, answer);
    }
  }

  lemma PushKeepsProvider(s: State, name: Name, answer: Answer, foreign: set<Place>)
    requires ProviderOk(s, foreign)
    ensures ProviderOk(Pushed(s, name, answer), foreign)
  {
    hide PlaceOf, Ensured, Places, RowPlaces, IsThere;
    var t := Pushed(s, name, answer);
    if name in s.rows {
      EnsuredIs(s.provider, s.rows[name].key, s.rows[name].ttl, answer);
      assert forall other | other in t.rows :: other in s.rows && t.rows[other].key == s.rows[other].key;
      assert forall other | other in s.rows :: other in t.rows;
      SameKeysSamePlaces(s.rows, t.rows);
      RowHasPlace(s.rows, name);
    }
  }

  lemma RowHasPlace(rows: map<Name, Row>, name: Name)
    requires name in rows
    ensures PlaceOf(rows[name].key) in RowPlaces(rows)
  {
  }

  lemma SameKeysSamePlaces(a: map<Name, Row>, b: map<Name, Row>)
    requires a.Keys == b.Keys && forall name | name in a :: a[name].key == b[name].key
    ensures RowPlaces(a) == RowPlaces(b)
  {
    hide PlaceOf;
    assert forall name | name in b :: name in a;
    forall place ensures place in RowPlaces(a) <==> place in RowPlaces(b) {
      if place in RowPlaces(a) {
        var name :| name in a && PlaceOf(a[name].key) == place;
        assert name in b;
      }
    }
  }

  lemma StepKeepsInv(s: State, event: Event, t: State, keys: set<Key>, foreign: set<Place>)
    requires DistinctPlaces(keys) && Inv(s, keys, foreign) && Step(s, event, t, keys)
    ensures Inv(t, keys, foreign)
  {
    hide DistinctPlaces, RowsOk, ProviderOk, Pushed, RolledBack;
    match event
    case Reconcile(owner, wanted, kept) =>
      ReconcileKeepsRows(s, owner, wanted, kept, t, keys);
      ReconcileKeepsProvider(s, owner, wanted, kept, t, foreign);
    case RollBack(owner, wanted, gone) =>
      RollBackKeepsInv(s, owner, wanted, gone, t, keys, foreign);
    case Push(name, answer) =>
      PushKeepsInv(s, name, answer, keys, foreign);
    case Requeue(name) =>
      RequeueKeepsInv(s, name, keys, foreign);
  }

  lemma RequeueKeepsInv(s: State, name: Name, keys: set<Key>, foreign: set<Place>)
    requires Inv(s, keys, foreign)
    ensures Inv(s.(queue := s.queue + {name}), keys, foreign)
  {
  }

  lemma {:induction false} RunKeepsInv(states: seq<State>, events: seq<Event>, keys: set<Key>, foreign: set<Place>)
    requires DistinctPlaces(keys) && IsRun(states, events, keys) && Inv(states[0], keys, foreign)
    ensures Inv(states[|states| - 1], keys, foreign)
    decreases |events|
  {
    hide DistinctPlaces, Inv, Step;
    if events != [] {
      var last := |events| - 1;
      assert Step(states[last], events[last], states[last + 1], keys);
      RunKeepsInv(states[..|states| - 1], events[..last], keys, foreign);
      StepKeepsInv(states[last], events[last], states[last + 1], keys, foreign);
    }
  }

  /** No row's push waits or failed. */
  predicate AllPushed(s: State) {
    forall name | name in s.rows :: name !in s.queue && name !in s.failed
  }

  /** Over any run of reconciliations and pushes by any owners, with keys the provider tells apart, with any
      request of a push or a removal failing and any reconciliation rolled back: the foreign records no row
      was ever for all stay; a managed record no row wants is there exactly where a delete failed when its
      last row went; a confirmed row's record is there exactly unless a push that broke off or a rolled back
      removal took it; and once the queued pushes went through, the provider holds exactly what the rows of
      all owners want, less the missing and with the orphaned. */
  lemma ProviderHoldsTheUnion(states: seq<State>, events: seq<Event>, keys: set<Key>)
    requires DistinctPlaces(keys) && IsRun(states, events, keys) && Initial(states[0])
    ensures var t, foreign := states[|states| - 1], Places(states[0].provider);
            && foreign - t.managed <= Places(t.provider) <= RowPlaces(t.rows) + (foreign - t.managed) + t.orphaned
            && Places(t.provider) * t.managed - RowPlaces(t.rows) == t.orphaned
            && (forall name | name in t.rows && t.rows[name].verified ::
                  PlaceOf(t.rows[name].key) in Places(t.provider) <==> PlaceOf(t.rows[name].key) !in t.missing)
            && (AllPushed(t) ==>
                  Places(t.provider) == (RowPlaces(t.rows) - t.missing) + (foreign - t.managed) + t.orphaned)
  {
    hide DistinctPlaces, Step;
    var t, foreign := states[|states| - 1], Places(states[0].provider);
    NoRowPlaces(states[0].rows);
    assert Inv(states[0], keys, foreign);
    RunKeepsInv(states, events, keys, foreign);
    if AllPushed(t) {
      UnionHeld(t, keys, foreign);
    }
  }

  lemma NoRowPlaces(rows: map<Name, Row>)
    requires rows == map[]
    ensures RowPlaces(rows) == {}
  {
  }

  lemma UnionHeld(t: State, keys: set<Key>, foreign: set<Place>)
    requires Inv(t, keys, foreign) && AllPushed(t)
    ensures Places(t.provider) == (RowPlaces(t.rows) - t.missing) + (foreign - t.managed) + t.orphaned
  {
    hide PlaceOf, Places;
    forall place | place in RowPlaces(t.rows) - t.missing ensures place in Places(t.provider) {
      var name :| name in t.rows && PlaceOf(t.rows[name].key) == place;
      assert t.rows[name].verified;
    }
  }

  /** A push takes a confirmed row's record away if and only if it is for the same record with another
      TTL, its delete goes through and its create does not. */
  lemma ConfirmedGoesMissing(s: State, name: Name, answer: Answer, confirmed: Name, keys: set<Key>, foreign: set<Place>)
    requires Inv(s, keys, foreign) && DistinctPlaces(keys) && name in s.rows
    requires confirmed in s.rows && PlaceOf(s.rows[confirmed].key) in Places(s.provider)
    ensures PlaceOf(s.rows[confirmed].key) !in Places(Pushed(s, name, answer).provider) <==>
            s.rows[name].key == s.rows[confirmed].key && Breaks(s.provider, s.rows[name].key, s.rows[name].ttl, answer)
  {
    hide PlaceOf, Places, Ensured;
    EnsuredIs(s.provider, s.rows[name].key, s.rows[name].ttl, answer);
    OneRecordIs(s.rows[name].key, s.rows[confirmed].key);
  }

  // --- runs that go wrong --------------------------------------------------------------------------

  const SHARED: Key := Key("z", "h", "A", "1")
  const ONE: Owner := Owner("Stalwart Node", "one")
  const TWO: Owner := Owner("Egress Gateway", "two")
  const FIRST: Row := Row(ONE, SHARED, 300, false)
  const CONFIRMED: Row := Row(ONE, SHARED, 300, true)
  const SECOND: Row := Row(TWO, SHARED, 60, false)
  const RECORD: ProviderRecord := ProviderRecord("z", "h", "A", "1", 300)

  const EMPTY: State := State(map[], 0, {}, {}, [], {}, {}, {})
  const QUEUED: State := State(map[0 := FIRST], 1, {0}, {}, [], {}, {}, {PlaceOf(SHARED)})
  const PUBLISHED: State := State(map[0 := CONFIRMED], 1, {}, {}, [RECORD], {}, {}, {PlaceOf(SHARED)})

  lemma StripsToItself()
    ensures Strip("1") == "1"
  {
  }

  lemma RecordIsThere()
    ensures Places([RECORD]) == {PlaceOf(SHARED)} && Places([]) == {}
    ensures Find([RECORD], PlaceOf(SHARED)) == Some(RECORD)
    ensures Without([RECORD], {PlaceOf(SHARED)}) == [] && Without([RECORD], {}) == [RECORD]
  {
    hide NormalizeValue;
    assert PlaceAt(RECORD) == PlaceOf(SHARED);
    assert PlaceAt([RECORD][0]) in Places([RECORD]);
  }

  /** One owner's record, inserted, pushed and confirmed. */
  lemma Publishes(keys: set<Key>)
    requires keys == {SHARED}
    ensures Initial(EMPTY) && DistinctPlaces(keys)
    ensures Step(EMPTY, Reconcile(ONE, map[SHARED := 300], {}), QUEUED, keys)
    ensures Step(QUEUED, Push(0, Created(true)), PUBLISHED, keys)
  {
    hide PlaceOf, Strip;
    StripsToItself();
    RecordIsThere();
    NothingToRemove(EMPTY, {});
    assert QUEUED.rows[0] == FIRST;
    assert Stale(EMPTY, ONE, map[SHARED := 300]) == {};
    assert NewPlaces(EMPTY, QUEUED) == {PlaceOf(SHARED)};
    assert map[0 := FIRST][0 := CONFIRMED] == map[0 := CONFIRMED];
  }

  /** Two owners want one record with different TTLs: the second push deletes it and its create raises,
      and the first row stays confirmed without a record. */
  lemma ConfirmedWithoutRecord() returns (states: seq<State>, events: seq<Event>)
    ensures IsRun(states, events, {SHARED}) && DistinctPlaces({SHARED}) && Initial(states[0])
    ensures var t := states[|states| - 1];
            0 in t.rows && t.rows[0].verified && PlaceOf(t.rows[0].key) !in Places(t.provider)
  {
    hide PlaceOf, Reconciles, Pushed;
    var s3 := PUBLISHED.(rows := map[0 := CONFIRMED, 1 := SECOND], nextName := 2, queue := {1});
    var s4 := Pushed(s3, 1, Raised(true, false));
    Publishes({SHARED});
    SecondReconcile(s3);
    BrokenPush(s3);
    states := [EMPTY, QUEUED, PUBLISHED, s3, s4];
    events := [Reconcile(ONE, map[SHARED := 300], {}), Push(0, Created(true)), Reconcile(TWO, map[SHARED := 60], {}),
        Push(1, Raised(true, false))];
    forall i | 0 <= i < 4 ensures Step(states[i], events[i], states[i + 1], {SHARED}) {
    }
  }

  lemma SecondReconcile(t: State)
    requires t == PUBLISHED.(rows := map[0 := CONFIRMED, 1 := SECOND], nextName := 2, queue := {1})
    ensures Reconciles(PUBLISHED, TWO, map[SHARED := 60], {}, t)
  {
    hide PlaceOf, Strip;
    StripsToItself();
    RecordIsThere();
    NothingToRemove(PUBLISHED, {});
    assert t.rows[0] == CONFIRMED && t.rows[1] == SECOND;
    assert Stale(PUBLISHED, TWO, map[SHARED := 60]) == {};
    assert NewPlaces(PUBLISHED, t) == {PlaceOf(SHARED)};
  }

  lemma BrokenPush(s: State)
    requires 1 in s.rows && s.rows[1] == SECOND && 0 in s.rows && s.rows[0] == CONFIRMED && s.provider == [RECORD]
    ensures var t := Pushed(s, 1, Raised(true, false));
            t.rows == s.rows && t.provider == [] && Places(t.provider) == {}
  {
    hide NormalizeValue, PlaceOf;
    RecordIsThere();
  }

  /** The delete of the last row's record fails: no row is left, the record stays, and no later step knows
      of it. */
  lemma RecordIsOrphaned() returns (states: seq<State>, events: seq<Event>)
    ensures IsRun(states, events, {SHARED}) && DistinctPlaces({SHARED}) && Initial(states[0])
    ensures var t := states[|states| - 1];
            states[0].provider == [] && t.rows == map[] && t.queue == {} && Places(t.provider) == {PlaceOf(SHARED)}
  {
    hide PlaceOf, Reconciles, Pushed;
    var left := PUBLISHED.(rows := map[], orphaned := {PlaceOf(SHARED)});
    Publishes({SHARED});
    RecordIsThere();
    KeptReconcile(left);
    states := [EMPTY, QUEUED, PUBLISHED, left];
    events := [Reconcile(ONE, map[SHARED := 300], {}), Push(0, Created(true)), Reconcile(ONE, map[], {0})];
    forall i | 0 <= i < 3 ensures Step(states[i], events[i], states[i + 1], {SHARED}) {
    }
  }

  lemma KeptReconcile(t: State)
    requires t == PUBLISHED.(rows := map[], orphaned := {PlaceOf(SHARED)})
    ensures Reconciles(PUBLISHED, ONE, map[], {0}, t)
  {
    hide PlaceOf, Strip;
    StripsToItself();
    RecordIsThere();
    PublishedRow();
    assert {0} - {0} == {} && {0} * {0} == {0} && Dropped(PUBLISHED.rows, {}) == {};
    assert RowPlaces(map[]) == {} && NewPlaces(PUBLISHED, t) == {};
  }

  lemma PublishedRow()
    ensures Stale(PUBLISHED, ONE, map[]) == {0} && Dropped(PUBLISHED.rows, {0}) == {PlaceOf(SHARED)}
  {
    hide PlaceOf;
    assert PUBLISHED.rows[0] == CONFIRMED && !StillWanted(PUBLISHED.rows, 0);
  }

  /** The record is deleted and the reconciliation rolled back: the row is there again, confirmed, with no
      push waiting or failed, and without its record. */
  lemma RecordIsLostByRollback() returns (states: seq<State>, events: seq<Event>)
    ensures IsRun(states, events, {SHARED}) && DistinctPlaces({SHARED}) && Initial(states[0])
    ensures var t := states[|states| - 1];
            && 0 in t.rows && t.rows[0].verified && AllPushed(t) && t.queue == {}
            && PlaceOf(t.rows[0].key) !in Places(t.provider)
  {
    hide PlaceOf, Reconciles, Pushed;
    var lost := PUBLISHED.(provider := [], missing := {PlaceOf(SHARED)});
    Publishes({SHARED});
    RecordIsThere();
    PublishedRow();
    states := [EMPTY, QUEUED, PUBLISHED, lost];
    events := [Reconcile(ONE, map[SHARED := 300], {}), Push(0, Created(true)), RollBack(ONE, map[], {0})];
    forall i | 0 <= i < 3 ensures Step(states[i], events[i], states[i + 1], {SHARED}) {
    }
  }

  // --- what the provider tells apart -------------------------------------------------------------

  /** Case does not tell two values apart, nor do the quotes around one, nor a dot at the end of one that is
      not quoted. */
  lemma NormalizeIgnores(value: string)
    ensures NormalizeValue(Lower(value)) == NormalizeValue(value)
    ensures Strip(value) == value ==> NormalizeValue(['"'] + value + ['"']) == NormalizeValue(value)
    ensures Strip(value) == value && value != "" && value[|value| - 1] != '"' ==>
              NormalizeValue(value + ['.']) == NormalizeValue(value)
  {
    hide StripLeft, StripRight, Lower, Strip;
    NormalizeIgnoresCase(value);
    if Strip(value) == value {
      NormalizeIgnoresQuotes(value);
      if value != "" && value[|value| - 1] != '"' {
        NormalizeIgnoresDot(value);
      }
    }
  }

  lemma NormalizeIgnoresCase(value: string)
    ensures NormalizeValue(Lower(value)) == NormalizeValue(value)
  {
    hide StripLeft, StripRight, Lower;
    var left := StripLeft(value, SPACES);
    StripLeftLower(value, SPACES);
    StripRightLower(left, SPACES);
    var stripped := Strip(value);
    StripLeftLower(stripped, {'"'});
    StripRightLower(StripLeft(stripped, {'"'}), {'"'});
    var bare := StripRight(StripLeft(stripped, {'"'}), {'"'});
    StripRightLower(bare, {'.'});
    LowerTwice(StripRight(bare, {'.'}));
  }

  lemma NormalizeIgnoresQuotes(value: string)
    requires Strip(value) == value
    ensures NormalizeValue(['"'] + value + ['"']) == NormalizeValue(value)
  {
    hide StripRight, Lower, Strip;
    var quoted := ['"'] + value + ['"'];
    StripNone(quoted);
    assert quoted[1..] == value + ['"'];
    StripLeftOne(value, '"', {'"'});
    StripRightOne(StripLeft(value, {'"'}), '"', {'"'});
    NothingToStrip({'"'});
  }

  lemma NothingToStrip(chars: set<char>)
    ensures StripRight("", chars) == ""
  {
  }

  lemma NormalizeIgnoresDot(value: string)
    requires Strip(value) == value && value != "" && value[|value| - 1] != '"'
    ensures NormalizeValue(value + ['.']) == NormalizeValue(value)
  {
    hide StripLeft, StripRight, Lower;
    var left := StripLeft(value, {'"'});
    StartsUnblank(value);
    StripNone(value + ['.']);
    LeftKeepsEnd(value, {'"'});
    StripLeftOne(value, '.', {'"'});
    StripRightOne(left, '.', {'"'});
    StripRightOne(left, '.', {'.'});
    StripRightNone(left, {'"'});
  }

  lemma StartsUnblank(s: string)
    requires Strip(s) == s && s != ""
    ensures !IsBlank(s[0])
  {
    var before, after := StripMeans(s);
  }

  lemma {:induction false} LeftKeepsEnd(s: string, chars: set<char>)
    requires s != "" && s[|s| - 1] !in chars
    ensures var left := StripLeft(s, chars); left != "" && left[|left| - 1] == s[|s| - 1]
  {
    if s[0] in chars {
      LeftKeepsEnd(s[1..], chars);
    }
  }

  /** Nothing else is ignored: a value in small letters, without whitespace, quotes or a dot at its ends, is
      told apart from any other. */
  lemma NormalizeKeeps(value: string)
    requires Strip(value) == value && Lower(value) == value
    requires value != "" ==> value[0] != '"' && value[|value| - 1] !in {'"', '.'}
    ensures NormalizeValue(value) == value
  {
    hide Lower, Strip;
    StripRightNone(value, {'"'});
    StripRightNone(value, {'.'});
  }

  // --- the desired records -----------------------------------------------------------------------

  /** The record a caller asks for: the host in small letters, the value without surrounding whitespace. */
  predicate Asks(desired: Desired, key: Key) {
    && desired.zone == key.zone && desired.kind == key.kind
    && Lower(desired.host) == key.host && Strip(desired.value) == key.value
  }

  /** A committed reconciliation leaves the owner exactly the records it asks for; a new one has the TTL of
      the last row that asks for it. */
  lemma OwnerHasExactlyAsked(s: State, owner: Owner, desired: seq<Desired>, kept: set<Name>, t: State, key: Key)
    requires Reconciles(s, owner, Wanted(desired), kept, t)
    ensures HasRow(t.rows, owner, key) <==> exists i | 0 <= i < |desired| :: Asks(desired[i], key)
    ensures forall name, i | name in t.rows && name !in s.rows && t.rows[name].key == key
                             && 0 <= i < |desired| && Asks(desired[i], key)
                             && (forall j | i < j < |desired| :: !Asks(desired[j], key)) ::
              t.rows[name].owner == owner && t.rows[name].ttl == desired[i].ttl && !t.rows[name].verified
  {
    hide Reconciles, Asks, Lower, Strip;
    OwnerHasExactlyDesired(s, owner, Wanted(desired), kept, t);
    WantedIsAsked(desired, key);
    forall name | name in t.rows && name !in s.rows ensures NewRow(s, owner, Wanted(desired), t, name) {
      NewRowsAreNew(s, owner, Wanted(desired), kept, t, name);
    }
  }

  lemma NewRowsAreNew(s: State, owner: Owner, wanted: map<Key, int>, kept: set<Name>, t: State, name: Name)
    requires Reconciles(s, owner, wanted, kept, t) && name in t.rows && name !in s.rows
    ensures NewRow(s, owner, wanted, t, name)
  {
  }

  lemma {:induction false} WantedIsAsked(desired: seq<Desired>, key: Key)
    ensures key in Wanted(desired) <==> exists i | 0 <= i < |desired| :: Asks(desired[i], key)
    ensures forall i | 0 <= i < |desired| && Asks(desired[i], key)
                       && (forall j | i < j < |desired| :: !Asks(desired[j], key)) ::
              key in Wanted(desired) && Wanted(desired)[key] == desired[i].ttl
  {
    hide Asks;
    if desired != [] {
      var last := |desired| - 1;
      var front := desired[..last];
      WantedIsAsked(front, key);
      AsksIs(desired[last], key);
      assert forall i | 0 <= i < last :: front[i] == desired[i];
      if Asks(desired[last], key) {
        assert KeyOf(desired[last]) == key;
      } else {
        forall i | 0 <= i < |desired| && Asks(desired[i], key)
                   && (forall j | i < j < |desired| :: !Asks(desired[j], key))
          ensures key in Wanted(desired) && Wanted(desired)[key] == desired[i].ttl
        {
          assert front[i] == desired[i];
        }
      }
    }
  }

  lemma AsksIs(desired: Desired, key: Key)
    ensures Asks(desired, key) <==> KeyOf(desired) == key
  {
  }
}
