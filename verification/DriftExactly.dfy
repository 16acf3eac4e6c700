/** The drift report says exactly what differs: what it finds missing, which properties it reports, and
    which changes of the next apply it cannot see. */
module DriftExactly {
  import opened Wrappers
  import opened Json
  import opened Paths
  import opened PlanApplier
  import opened Convergence
  import opened PlanRuns
  import opened PlanTheorems
  import opened Delivery
  import opened Drift

  /** A property that is compared and does not agree with what is shown. */
  ghost predicate Disagrees(shown: Props, wanted: Props, key: string) {
    key in wanted && key != "@type" && !HidesSecret(key, wanted[key]) && !Agrees(Look(shown, key), wanted[key])
  }

  function KeysOf(op: Operation): seq<string>
    requires op.Upsert?
  {
    if op.matchOn == [] then ["name"] else op.matchOn
  }

  /** A value no object is shown for, or a property of the first object that is shown for it. */
  ghost predicate IsEntryDifference(op: Operation, server: Server, m: nat, d: Difference)
    requires op.Upsert? && m < |op.entries|
  {
    var objects := CollectionOf(server, op.kind);
    match d
    case Missing(of, ref) =>
      of == op.kind && ref == op.entries[m].ref && IsUnmatched(objects, KeysOf(op), op.entries[m].props)
    case Differs(of, key, ref) =>
      of == op.kind && ref == Some(op.entries[m].ref) && exists i: nat | i < |objects| ::
        IsFirstMatch(objects, KeysOf(op), op.entries[m].props, i)
        && Disagrees(StripProps(objects[i].props), op.entries[m].props, key)
  }

  ghost predicate IsDifference(op: Operation, server: Server, d: Difference) {
    match op
    case Upsert(_, create, _, entries) =>
      !create && exists m: nat | m < |entries| :: IsEntryDifference(op, server, m, d)
    case UpdateOne(kind, id, props) =>
      id == "" && d.Differs? && d.kind == kind && d.ofRef == None
      && Disagrees(StripProps(SingletonOf(server, kind)), props, d.property)
    case _ => false
  }

  lemma HasDriftedIs(shown: Props, wanted: Props, key: string)
    ensures key in wanted && HasDrifted(shown, wanted, key) <==> Disagrees(shown, wanted, key)
  {
    if key in wanted {
      WriteOnlyHides(key, wanted[key]);
      SameValueExactly(Get(shown, key), wanted[key]);
      assert Get(shown, key) == Look(shown, key);
    }
  }

  lemma DriftedIs(kind: string, shown: Props, wanted: Props, ref: Option<string>, d: Difference)
    ensures d in Drifted(kind, shown, wanted, ref) <==>
            d.Differs? && d.kind == kind && d.ofRef == ref && Disagrees(shown, wanted, d.property)
  {
    hide Agrees, HidesSecret, HasDrifted;
    if d.Differs? {
      HasDriftedIs(shown, wanted, d.property);
    }
  }

  lemma EntryDriftIs(op: Operation, server: Server, m: nat, d: Difference)
    requires op.Upsert? && m < |op.entries|
    ensures d in EntryDrift(op.kind, MatchKeys(op.matchOn), Read(CollectionOf(server, op.kind)), op.entries[m])
            <==> IsEntryDifference(op, server, m, d)
  {
    hide Drifted, Disagrees, IsUnmatched, StripProps;
    var objects, keys, entry := CollectionOf(server, op.kind), KeysOf(op), op.entries[m];
    MatchIs(objects, keys, entry.props);
    var i := FirstMatch(Read(objects), keys, entry.props);
    if i < |objects| {
      MatchedIsMatched(objects, keys, entry.props, i);
      DriftedIs(op.kind, Read(objects)[i].props, entry.props, Some(entry.ref), d);
      forall j: nat | IsFirstMatch(objects, keys, entry.props, j) ensures j == i {
        OnlyOneFirst(objects, keys, entry.props, i, j);
      }
    } else {
      forall j: nat | IsFirstMatch(objects, keys, entry.props, j) ensures false {
        MatchedIsMatched(objects, keys, entry.props, j);
      }
    }
  }

  lemma {:induction false} EntriesDriftHas(kind: string, keys: seq<string>, existing: Collection, entries: seq<Entry>,
                                           d: Difference)
    ensures d in EntriesDrift(kind, keys, existing, entries) <==>
            exists m: nat | m < |entries| :: d in EntryDrift(kind, keys, existing, entries[m])
  {
    hide EntryDrift;
    if entries != [] {
      var rest := entries[1..];
      EntriesDriftHas(kind, keys, existing, rest, d);
      assert forall m | 1 <= m < |entries| :: entries[m] == rest[m - 1];
      if m: nat :| m < |rest| && d in EntryDrift(kind, keys, existing, rest[m]) {
        assert entries[m + 1] == rest[m];
      }
    }
  }

  lemma OperationDriftIs(op: Operation, server: Server, d: Difference)
    ensures d in OperationDrift(op, server) <==> IsDifference(op, server, d)
  {
    hide EntryDrift, Drifted, Disagrees, IsEntryDifference, MatchKeys, KeysOf;
    match op
    case Upsert(kind, create, matchOn, entries) =>
      EntriesDriftHas(kind, MatchKeys(matchOn), Read(CollectionOf(server, kind)), entries, d);
      forall m: nat | m < |entries|
        ensures d in EntryDrift(kind, MatchKeys(matchOn), Read(CollectionOf(server, kind)), entries[m])
                <==> IsEntryDifference(op, server, m, d)
      {
        EntryDriftIs(op, server, m, d);
      }
    case UpdateOne(kind, _, props) => DriftedIs(kind, StripProps(SingletonOf(server, kind)), props, None, d);
    case _ =>
  }

  /** The report holds a difference if and only if an operation of the plan has it: an upserted value that
      matches no object, a property of the first object it matches, or a property of a singleton, that is
      no secret and does not agree, place by place, with what is shown. */
  lemma {:induction false} DriftIsExactly(plan: Plan, server: Server, d: Difference)
    ensures d in DriftOf(plan, server) <==> exists n: nat | n < |plan| :: IsDifference(plan[n], server, d)
  {
    hide IsDifference, OperationDrift;
    if plan != [] {
      var rest := plan[1..];
      OperationDriftIs(plan[0], server, d);
      DriftIsExactly(rest, server, d);
      assert forall n | 1 <= n < |plan| :: plan[n] == rest[n - 1];
      if n: nat :| n < |rest| && IsDifference(rest[n], server, d) {
        assert plan[n + 1] == rest[n];
      }
    }
  }

  // --- what the next apply changes unreported -----------------------------------------------------

  /** A property the next apply sends because it looks changed is one that is shown differently from the
      resolved value. The report has it if and only if the two disagree; it misses it if and only if they
      agree everywhere and something is hidden at some place: a reference shown with another id, a key
      beyond the wanted ones, or a secret. */
  lemma ChangeIsReportedExactly(objects: Collection, keys: seq<string>, props: Props, ids: Ids, i: nat, key: string)
    requires Plain(Obj(props)) && Resolvable(Obj(props), ids) && NonEmptyIds(ids)
    requires forall k | k in keys :: NoRefs(Get(props, k))
    requires IsFirstMatch(objects, keys, props, i)
    requires key in props && key !in keys && key != "@type" && !HidesSecret(key, props[key])
    ensures IsFirstMatch(objects, keys, ResolveProps(props, ids), i)
    ensures key in ResolveProps(props, ids)
    ensures var shown, value := StripProps(objects[i].props), ResolveProps(props, ids);
            var looks := LooksChanged(shown, keys, value, key);
            && (Disagrees(shown, props, key) ==> looks)
            && (looks && !Disagrees(shown, props, key) <==>
                  Agrees(Look(shown, key), props[key]) && !ShowsAll(Look(shown, key), props[key], ids))
  {
    hide Agrees, ShowsAll, Resolvable, Resolve, HidesSecret, StripProps, NoRefs;
    var shown, value := StripProps(objects[i].props), ResolveProps(props, ids);
    PlainIsTopPlain(props);
    ResolvePlainFields(props, ids);
    PlainField(props, key);
    ResolvedMatches(objects, keys, props, ids, i);
    WriteOnlyHides(key, props[key]);
    WriteOnlyHides(key, value[key]);
    ResolveKeepsWriteOnly(key, props[key], ids);
    ShownIsShown(objects[i].props, key);
    IsResolvedExactly(Look(shown, key), props[key], ids);
    CredentialsAreSecret(key, props[key]);
  }

  lemma CredentialsAreSecret(key: string, value: Json)
    requires !HidesSecret(key, value)
    ensures key != "credentials"
  {
  }

  lemma ShownIsShown(props: Props, key: string)
    ensures Strip(Look(StripProps(props), key)) == Look(StripProps(props), key)
  {
    if key in StripProps(props) {
      StripIsIdempotent(props[key]);
    }
  }

  lemma ResolvedMatches(objects: Collection, keys: seq<string>, props: Props, ids: Ids, i: nat)
    requires TopPlain(props) && Resolvable(Obj(props), ids)
    requires forall k | k in keys :: NoRefs(Get(props, k))
    requires IsFirstMatch(objects, keys, props, i)
    ensures IsFirstMatch(objects, keys, ResolveProps(props, ids), i)
  {
    hide Resolvable, Resolve, StripProps, NoRefs;
    forall k | k in keys ensures Look(ResolveProps(props, ids), k) == Look(props, k) {
      ResolvedKey(props, ids, k);
      assert Get(props, k) == Look(props, k) && Get(ResolveProps(props, ids), k) == Look(ResolveProps(props, ids), k);
    }
  }
}
