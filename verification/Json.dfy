/** JSON trees as the Stalwart API exchanges them, what a read of the server leaves out of them, and
    the comparison the drift check makes. */
module Json {

  /** A Python dict compares without order, so an object is a map. */
  datatype Json =
    | Null
    | Bool(b: bool)
    | Num(n: int)
    | Str(s: string)
    | List(items: seq<Json>)
    | Obj(fields: Props)

  type Props = map<string, Json>

  /** `dict.get`: a missing key reads as None. */
  function Get(props: Props, key: string): Json {
    if key in props then props[key] else Null
  }

  // --- secrets ---------------------------------------------------------------------------

  const WRITE_ONLY_KEYS: set<string> :=
    {"credentials", "secret", "authSecret", "secretKey", "secretAccessKey", "apiKey", "licenseKey"}

  predicate IsWriteOnly(key: string, value: Json) {
    || key in WRITE_ONLY_KEYS
    || (value.Obj? && Get(value.fields, "@type") == Str("Value") && "secret" in value.fields)
  }

  /** What a read returns of a stored tree: every write-only value is left out, at any depth. */
  function Strip(j: Json): Json {
    match j
    case List(items) => List(seq(|items|, i requires 0 <= i < |items| => Strip(items[i])))
    case Obj(fields) => Obj(map k | k in fields && !IsWriteOnly(k, fields[k]) :: Strip(fields[k]))
    case _ => j
  }

  function StripProps(props: Props): Props {
    Strip(Obj(props)).fields
  }

  /** Reading what was read changes nothing. */
  lemma {:induction false} StripIsIdempotent(j: Json)
    ensures Strip(Strip(j)) == Strip(j)
  {
    match j
    case List(items) =>
      forall i | 0 <= i < |items| ensures Strip(Strip(items[i])) == Strip(items[i]) {
        StripIsIdempotent(items[i]);
      }
    case Obj(fields) =>
      forall k | k in fields
        ensures Strip(Strip(fields[k])) == Strip(fields[k])
        ensures !IsWriteOnly(k, fields[k]) ==> !IsWriteOnly(k, Strip(fields[k]))
      {
        StripIsIdempotent(fields[k]);
      }
    case _ =>
  }

  // --- references ------------------------------------------------------------------------

  type Ids = map<string, string>

  predicate IsRef(s: string) {
    |s| > 0 && s[0] == '#'
  }

  function ResolveText(s: string, ids: Ids): string
    requires IsRef(s) ==> s[1..] in ids
  {
    if IsRef(s) then ids[s[1..]] else s
  }

  /** Every `#ref`, as a value or as a key, names an earlier operation, and no two keys of one
      object become the same. */
  predicate Resolvable(j: Json, ids: Ids) {
    match j
    case Str(s) => IsRef(s) ==> s[1..] in ids
    case List(items) => forall i | 0 <= i < |items| :: Resolvable(items[i], ids)
    case Obj(fields) =>
      && (forall k | k in fields :: (IsRef(k) ==> k[1..] in ids) && Resolvable(fields[k], ids))
      && DistinctKeys(fields.Keys, ids)
    case _ => true
  }

  predicate DistinctKeys(keys: set<string>, ids: Ids)
    requires forall k | k in keys :: IsRef(k) ==> k[1..] in ids
  {
    forall k, l | k in keys && l in keys && ResolveText(k, ids) == ResolveText(l, ids) :: k == l
  }

  function ResolvedKeys(keys: set<string>, ids: Ids): set<string>
    requires forall k | k in keys :: IsRef(k) ==> k[1..] in ids
  {
    set k | k in keys :: ResolveText(k, ids)
  }

  /** The key of the plan that became `key`. */
  function SourceKey(keys: set<string>, ids: Ids, key: string): (source: string)
    requires forall k | k in keys :: IsRef(k) ==> k[1..] in ids
    requires DistinctKeys(keys, ids) && key in ResolvedKeys(keys, ids)
    ensures source in keys && ResolveText(source, ids) == key
  {
    var k :| k in keys && ResolveText(k, ids) == key;
    k
  }

  function Resolve(j: Json, ids: Ids): Json
    requires Resolvable(j, ids)
  {
    match j
    case Str(s) => Str(ResolveText(s, ids))
    case List(items) => List(seq(|items|, i requires 0 <= i < |items| => Resolve(items[i], ids)))
    case Obj(fields) =>
      Obj(map k | k in ResolvedKeys(fields.Keys, ids) :: Resolve(fields[SourceKey(fields.Keys, ids, k)], ids))
    case _ => j
  }

  function ResolveProps(props: Props, ids: Ids): Props
    requires Resolvable(Obj(props), ids)
  {
    Resolve(Obj(props), ids).fields
  }

  /** No property name is a reference. */
  predicate TopPlain(props: Props) {
    forall k | k in props :: !IsRef(k)
  }

  /** No reference stands as a key or as an object's `@type`. */
  predicate Plain(j: Json) {
    match j
    case List(items) => forall i | 0 <= i < |items| :: Plain(items[i])
    case Obj(fields) =>
      && (forall k | k in fields :: !IsRef(k) && Plain(fields[k]))
      && !(Get(fields, "@type").Str? && IsRef(Get(fields, "@type").s))
    case _ => true
  }

  predicate NoRefs(j: Json) {
    match j
    case Str(s) => !IsRef(s)
    case List(items) => forall i | 0 <= i < |items| :: NoRefs(items[i])
    case Obj(fields) => forall k | k in fields :: !IsRef(k) && NoRefs(fields[k])
    case _ => true
  }

  lemma ResolvePlainFields(props: Props, ids: Ids)
    requires TopPlain(props) && Resolvable(Obj(props), ids)
    ensures ResolveProps(props, ids).Keys == props.Keys
    ensures forall k | k in props :: Resolvable(props[k], ids) && ResolveProps(props, ids)[k] == Resolve(props[k], ids)
  {
    var resolved := ResolveProps(props, ids);
    forall k | k in props ensures k in resolved && resolved[k] == Resolve(props[k], ids) {
      assert ResolveText(k, ids) == k;
    }
  }

  predicate Extends(more: Ids, ids: Ids) {
    forall ref | ref in ids :: ref in more && more[ref] == ids[ref]
  }

  lemma KeysExtend(keys: set<string>, ids: Ids, more: Ids)
    requires (forall k | k in keys :: IsRef(k) ==> k[1..] in ids) && DistinctKeys(keys, ids) && Extends(more, ids)
    ensures (forall k | k in keys :: IsRef(k) ==> k[1..] in more) && DistinctKeys(keys, more)
    ensures ResolvedKeys(keys, more) == ResolvedKeys(keys, ids)
    ensures forall key | key in ResolvedKeys(keys, ids) :: SourceKey(keys, more, key) == SourceKey(keys, ids, key)
  {
    assert forall k | k in keys :: ResolveText(k, more) == ResolveText(k, ids);
  }

  lemma ObjectExtends(fields: Props, ids: Ids, more: Ids)
    requires Resolvable(Obj(fields), ids) && Extends(more, ids)
    requires forall k | k in fields ::
               Resolvable(fields[k], more) && Resolve(fields[k], more) == Resolve(fields[k], ids)
    ensures Resolvable(Obj(fields), more) && Resolve(Obj(fields), more) == Resolve(Obj(fields), ids)
  {
    hide DistinctKeys, ResolvedKeys, SourceKey, Extends;
    KeysExtend(fields.Keys, ids, more);
    var a, b := Resolve(Obj(fields), ids).fields, Resolve(Obj(fields), more).fields;
    assert a.Keys == b.Keys;
    forall key | key in a ensures a[key] == b[key] {
      var source := SourceKey(fields.Keys, ids, key);
      assert source in fields;
    }
    assert a == b;
  }

  /** Labels bound later change nothing of what resolved before. */
  lemma {:induction false} ResolveExtends(j: Json, ids: Ids, more: Ids)
    requires Resolvable(j, ids) && Extends(more, ids)
    ensures Resolvable(j, more) && Resolve(j, more) == Resolve(j, ids)
  {
    match j
    case List(items) =>
      forall i | 0 <= i < |items|
        ensures Resolvable(items[i], more) && Resolve(items[i], more) == Resolve(items[i], ids)
      {
        ResolveExtends(items[i], ids, more);
      }
    case Obj(fields) =>
      forall k | k in fields
        ensures Resolvable(fields[k], more) && Resolve(fields[k], more) == Resolve(fields[k], ids)
      {
        ResolveExtends(fields[k], ids, more);
      }
      ObjectExtends(fields, ids, more);
    case _ =>
  }

  lemma {:induction false} ResolveWithoutRefs(j: Json, ids: Ids)
    requires NoRefs(j) && Resolvable(j, ids)
    ensures Resolve(j, ids) == j
  {
    match j
    case List(items) =>
      forall i | 0 <= i < |items| ensures Resolve(items[i], ids) == items[i] {
        ResolveWithoutRefs(items[i], ids);
      }
    case Obj(fields) =>
      NoRefsIsPlain(j);
      ResolvePlainFields(fields, ids);
      forall k | k in fields ensures Resolve(fields[k], ids) == fields[k] {
        ResolveWithoutRefs(fields[k], ids);
      }
    case _ =>
  }

  lemma {:induction false} NoRefsIsPlain(j: Json)
    requires NoRefs(j)
    ensures Plain(j)
  {
    match j
    case List(items) => forall i | 0 <= i < |items| ensures Plain(items[i]) { NoRefsIsPlain(items[i]); }
    case Obj(fields) => forall k | k in fields ensures Plain(fields[k]) { NoRefsIsPlain(fields[k]); }
    case _ =>
  }

  /** Resolving keeps a plain value on its side of the secret test. */
  lemma ResolveKeepsWriteOnly(key: string, j: Json, ids: Ids)
    requires Plain(j) && Resolvable(j, ids)
    ensures IsWriteOnly(key, Resolve(j, ids)) <==> IsWriteOnly(key, j)
  {
    if j.Obj? {
      ResolvePlainFields(j.fields, ids);
    }
  }

  /** A plain tree a read leaves whole is still whole once its references are resolved. */
  lemma {:induction false} ResolveKeepsWhole(j: Json, ids: Ids)
    requires Plain(j) && Resolvable(j, ids)
    ensures Strip(Resolve(j, ids)) == Resolve(j, ids) <==> Strip(j) == j
  {
    match j
    case List(items) =>
      var resolved := Resolve(j, ids);
      forall i | 0 <= i < |items|
        ensures Strip(resolved.items[i]) == resolved.items[i] <==> Strip(items[i]) == items[i]
      {
        ResolveKeepsWhole(items[i], ids);
      }
      assert Strip(j) == j <==> forall i | 0 <= i < |items| :: Strip(j).items[i] == items[i];
      assert Strip(resolved) == resolved <==>
        forall i | 0 <= i < |items| :: Strip(resolved).items[i] == resolved.items[i];
    case Obj(fields) =>
      ResolvePlainFields(fields, ids);
      var resolved := Resolve(j, ids).fields;
      forall k | k in fields
        ensures Strip(resolved[k]) == resolved[k] <==> Strip(fields[k]) == fields[k]
        ensures IsWriteOnly(k, resolved[k]) <==> IsWriteOnly(k, fields[k])
      {
        ResolveKeepsWhole(fields[k], ids);
        ResolveKeepsWriteOnly(k, fields[k], ids);
      }
      WholeObject(fields);
      WholeObject(resolved);
    case _ =>
  }

  lemma WholeObject(props: Props)
    ensures Strip(Obj(props)) == Obj(props) <==>
      forall k | k in props :: !IsWriteOnly(k, props[k]) && Strip(props[k]) == props[k]
  {
    var read := StripProps(props);
    if Strip(Obj(props)) == Obj(props) {
      assert read == props;
      forall k | k in props ensures !IsWriteOnly(k, props[k]) && Strip(props[k]) == props[k] {
        assert k in read;
      }
    }
    if forall k | k in props :: !IsWriteOnly(k, props[k]) && Strip(props[k]) == props[k] {
      assert read == props;
    }
  }

  // --- drift -----------------------------------------------------------------------------

  /** How the drift check compares: any non-empty text is a reference's id, an object may show more than
      the plan names, and a secret is skipped on either side. */
  predicate SameValue(live: Json, wanted: Json)
    decreases wanted
  {
    match wanted
    case Str(s) => if IsRef(s) then live.Str? && live.s != "" else live == wanted
    case Obj(fields) =>
      live.Obj? && forall k | k in fields :: IsWriteOnly(k, fields[k]) || SameValue(Get(live.fields, k), fields[k])
    case List(items) =>
      live.List? && |live.items| == |items| && forall i | 0 <= i < |items| :: SameValue(live.items[i], items[i])
    case _ => live == wanted
  }

  predicate NonEmptyIds(ids: Ids) {
    forall ref | ref in ids :: ids[ref] != ""
  }

  /** What the server shows of a value the applier sent is the same value to the drift check. */
  lemma {:induction false} SentValueIsSame(j: Json, ids: Ids)
    requires Plain(j) && Resolvable(j, ids) && NonEmptyIds(ids)
    ensures SameValue(Strip(Resolve(j, ids)), j)
  {
    match j
    case List(items) =>
      forall i | 0 <= i < |items| ensures SameValue(Strip(Resolve(items[i], ids)), items[i]) {
        SentValueIsSame(items[i], ids);
      }
    case Obj(fields) =>
      ResolvePlainFields(fields, ids);
      var live := Strip(Resolve(j, ids));
      forall k | k in fields
        ensures IsWriteOnly(k, fields[k]) || SameValue(Get(live.fields, k), fields[k])
      {
        ResolveKeepsWriteOnly(k, fields[k], ids);
        SentValueIsSame(fields[k], ids);
      }
    case _ =>
  }
}
