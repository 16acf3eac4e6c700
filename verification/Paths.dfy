/** JSON trees path by path: what a read shows, what resolving replaces and what the drift check
    compares, each said of single places of a tree. */
module Paths {
  import opened Wrappers
  import opened Json

  datatype Part = Field(key: string) | Item(index: nat)

  type Path = seq<Part>

  /** What stands at the path, if the path is there. */
  function Reach(j: Json, path: Path): Option<Json> {
    if path == [] then Some(j)
    else
      match path[0]
      case Field(key) => if j.Obj? && key in j.fields then Reach(j.fields[key], path[1..]) else None
      case Item(i) => if j.List? && i < |j.items| then Reach(j.items[i], path[1..]) else None
  }

  /** The same, where a missing key of an object reads as None. */
  function Shown(j: Json, path: Path): Option<Json>
    decreases |path|
  {
    if path == [] then Some(j)
    else
      match path[0]
      case Field(key) =>
        if j.Obj? then Shown(if key in j.fields then j.fields[key] else Null, path[1..]) else None
      case Item(i) => if j.List? && i < |j.items| then Shown(j.items[i], path[1..]) else None
  }

  predicate HidesSecret(key: string, value: Json) {
    || key in {"credentials", "secret", "authSecret", "secretKey", "secretAccessKey", "apiKey", "licenseKey"}
    || (value.Obj? && "@type" in value.fields && value.fields["@type"] == Str("Value") && "secret" in value.fields)
  }

  lemma WriteOnlyHides(key: string, value: Json)
    ensures IsWriteOnly(key, value) <==> HidesSecret(key, value)
  {
  }

  /** What stands at a path that leads through no secret. */
  function Asked(j: Json, path: Path): Option<Json> {
    if path == [] then Some(j)
    else
      match path[0]
      case Field(key) =>
        if j.Obj? && key in j.fields && !HidesSecret(key, j.fields[key]) then Asked(j.fields[key], path[1..]) else None
      case Item(i) => if j.List? && i < |j.items| then Asked(j.items[i], path[1..]) else None
  }

  // --- what a read shows -----------------------------------------------------------------------

  /** The place itself, apart from what is below it: the value of a leaf, the length of a list. */
  predicate SameLeaf(a: Json, b: Json) {
    match b
    case List(items) => a.List? && |a.items| == |items|
    case Obj(fields) => a.Obj?
    case _ => a == b
  }

  /** A read shows exactly the places no secret leads to, as they are. */
  lemma {:induction false} ReadShowsExactly(j: Json, path: Path)
    ensures Reach(Strip(j), path).Some? <==> Asked(j, path).Some?
    ensures Asked(j, path).Some? ==> SameLeaf(Reach(Strip(j), path).value, Asked(j, path).value)
    decreases |path|
  {
    if path != [] {
      match path[0]
      case Field(key) =>
        if j.Obj? && key in j.fields {
          WriteOnlyHides(key, j.fields[key]);
          ReadShowsExactly(j.fields[key], path[1..]);
        }
      case Item(i) =>
        if j.List? && i < |j.items| {
          ReadShowsExactly(j.items[i], path[1..]);
        }
    }
  }

  // --- what resolving replaces -------------------------------------------------------------------

  /** A reference became the id of its label; anything else is as it was. */
  predicate IsResolved(a: Json, b: Json, ids: Ids) {
    match b
    case Str(s) => if s != "" && s[0] == '#' then s[1..] in ids && a == Str(ids[s[1..]]) else a == b
    case Obj(fields) => a.Obj? && a.fields.Keys == fields.Keys
    case List(items) => a.List? && |a.items| == |items|
    case _ => a == b
  }

  /** In a tree whose keys are no references, resolving replaces each reference by its label's id and
      nothing else. */
  lemma {:induction false} ResolvesExactly(j: Json, ids: Ids, path: Path)
    requires Plain(j) && Resolvable(j, ids)
    ensures Reach(Resolve(j, ids), path).Some? <==> Reach(j, path).Some?
    ensures Reach(j, path).Some? ==> IsResolved(Reach(Resolve(j, ids), path).value, Reach(j, path).value, ids)
    decreases |path|
  {
    if j.Obj? {
      ResolvePlainFields(j.fields, ids);
    }
    if path != [] {
      match path[0]
      case Field(key) =>
        if j.Obj? && key in j.fields {
          ResolvesExactly(j.fields[key], ids, path[1..]);
        }
      case Item(i) =>
        if j.List? && i < |j.items| {
          ResolvesExactly(j.items[i], ids, path[1..]);
        }
    }
  }

  /** Every reference in the tree names a bound label. */
  ghost predicate AllBound(j: Json, ids: Ids) {
    forall path: Path | Reach(j, path).Some? && Reach(j, path).value.Str? ::
      var text := Reach(j, path).value.s; text != "" && text[0] == '#' ==> text[1..] in ids
  }

  lemma BoundBelow(j: Json, ids: Ids, part: Part)
    requires AllBound(j, ids) && Reach(j, [part]).Some?
    ensures AllBound(Reach(j, [part]).value, ids)
  {
    var below := Reach(j, [part]).value;
    forall path: Path | Reach(below, path).Some? && Reach(below, path).value.Str?
      ensures var text := Reach(below, path).value.s; text != "" && text[0] == '#' ==> text[1..] in ids
    {
      assert ([part] + path)[1..] == path && [part][1..] == [];
      assert Reach(j, [part] + path) == Reach(below, path);
    }
  }

  /** A tree whose keys are no references resolves if and only if all its references are bound. */
  lemma {:induction false} ResolvableExactly(j: Json, ids: Ids)
    requires Plain(j)
    ensures Resolvable(j, ids) <==> AllBound(j, ids)
  {
    if Resolvable(j, ids) {
      forall path: Path | Reach(j, path).Some? && Reach(j, path).value.Str?
        ensures var text := Reach(j, path).value.s; text != "" && text[0] == '#' ==> text[1..] in ids
      {
        ResolvesExactly(j, ids, path);
      }
    }
    if AllBound(j, ids) {
      BoundIsResolvable(j, ids);
    }
  }

  lemma {:induction false} BoundIsResolvable(j: Json, ids: Ids)
    requires Plain(j) && AllBound(j, ids)
    ensures Resolvable(j, ids)
    decreases j
  {
    match j
    case Str(s) => assert Reach(j, []) == Some(j);
    case Obj(fields) =>
      forall k | k in fields ensures Resolvable(fields[k], ids) {
        assert [Field(k)][1..] == [];
        BoundBelow(j, ids, Field(k));
        BoundIsResolvable(fields[k], ids);
      }
    case List(items) =>
      forall i | 0 <= i < |items| ensures Resolvable(items[i], ids) {
        assert [Item(i)][1..] == [];
        BoundBelow(j, ids, Item(i));
        BoundIsResolvable(items[i], ids);
      }
    case _ =>
  }

  /** The label's id where the text is a reference. */
  predicate IsIdOf(id: string, text: string, ids: Ids) {
    if text != "" && text[0] == '#' then text[1..] in ids && id == ids[text[1..]] else id == text
  }

  /** A key that is a reference becomes its label's id too, and keeps its value; there are no other keys. */
  lemma KeyResolves(fields: Props, ids: Ids, key: string, id: string)
    requires Resolvable(Obj(fields), ids) && key in fields && IsIdOf(id, key, ids)
    ensures Resolvable(fields[key], ids)
    ensures id in ResolveProps(fields, ids) && ResolveProps(fields, ids)[id] == Resolve(fields[key], ids)
  {
    hide Resolve;
    assert ResolveText(key, ids) == id && id in ResolvedKeys(fields.Keys, ids);
    var source := SourceKey(fields.Keys, ids, id);
    assert source == key;
    FieldOfResolved(fields, ids, id);
  }

  lemma FieldOfResolved(fields: Props, ids: Ids, id: string)
    requires Resolvable(Obj(fields), ids)
    ensures id in ResolveProps(fields, ids) <==> id in ResolvedKeys(fields.Keys, ids)
    ensures id in ResolvedKeys(fields.Keys, ids) ==>
              ResolveProps(fields, ids)[id] == Resolve(fields[SourceKey(fields.Keys, ids, id)], ids)
  {
  }

  // --- what the drift check compares ---------------------------------------------------------------

  /** A reference stands for any id; other texts and leaves are equal, lists as long, objects objects. */
  predicate Fits(live: Option<Json>, wanted: Json) {
    live.Some? &&
    match wanted
    case Str(s) => if s != "" && s[0] == '#' then live.value.Str? && live.value.s != "" else live.value == wanted
    case List(items) => live.value.List? && |live.value.items| == |items|
    case Obj(_) => live.value.Obj?
    case _ => live.value == wanted
  }

  /** At every place of the wanted value that no secret leads to. */
  ghost predicate Agrees(live: Json, wanted: Json) {
    forall path: Path | Asked(wanted, path).Some? :: Fits(Shown(live, path), Asked(wanted, path).value)
  }

  lemma AgreesAt(live: Json, wanted: Json, path: Path)
    requires Agrees(live, wanted) && Asked(wanted, path).Some?
    ensures Fits(Shown(live, path), Asked(wanted, path).value)
  {
  }

  lemma AgreesBelow(live: Json, wanted: Json, part: Part)
    requires Agrees(live, wanted) && Asked(wanted, [part]).Some? && Shown(live, [part]).Some?
    ensures Agrees(Shown(live, [part]).value, Asked(wanted, [part]).value)
  {
    forall path: Path | Asked(Asked(wanted, [part]).value, path).Some?
      ensures Fits(Shown(Shown(live, [part]).value, path), Asked(Asked(wanted, [part]).value, path).value)
    {
      assert ([part] + path)[1..] == path && [part][1..] == [];
      AgreesAt(live, wanted, [part] + path);
    }
  }

  /** The drift check's comparison holds if and only if the values agree place by place. */
  lemma {:induction false} SameValueExactly(live: Json, wanted: Json)
    ensures SameValue(live, wanted) <==> Agrees(live, wanted)
    decreases wanted
  {
    if SameValue(live, wanted) {
      forall path: Path | Asked(wanted, path).Some? ensures Fits(Shown(live, path), Asked(wanted, path).value) {
        SameValueFits(live, wanted, path);
      }
    }
    if Agrees(live, wanted) {
      AgreesIsSame(live, wanted);
    }
  }

  lemma {:induction false} SameValueFits(live: Json, wanted: Json, path: Path)
    requires SameValue(live, wanted) && Asked(wanted, path).Some?
    ensures Fits(Shown(live, path), Asked(wanted, path).value)
    decreases |path|
  {
    if path != [] {
      match path[0]
      case Field(key) =>
        WriteOnlyHides(key, wanted.fields[key]);
        SameValueFits(Get(live.fields, key), wanted.fields[key], path[1..]);
      case Item(i) => SameValueFits(live.items[i], wanted.items[i], path[1..]);
    }
  }

  lemma {:induction false} AgreesIsSame(live: Json, wanted: Json)
    requires Agrees(live, wanted)
    ensures SameValue(live, wanted)
    decreases wanted
  {
    AgreesAt(live, wanted, []);
    match wanted
    case Obj(fields) =>
      forall k | k in fields ensures IsWriteOnly(k, fields[k]) || SameValue(Get(live.fields, k), fields[k]) {
        WriteOnlyHides(k, fields[k]);
        if !HidesSecret(k, fields[k]) {
          assert [Field(k)][1..] == [];
          AgreesBelow(live, wanted, Field(k));
          AgreesIsSame(Get(live.fields, k), fields[k]);
        }
      }
    case List(items) =>
      forall i | 0 <= i < |items| ensures SameValue(live.items[i], items[i]) {
        assert [Item(i)][1..] == [];
        AgreesBelow(live, wanted, Item(i));
        AgreesIsSame(live.items[i], items[i]);
      }
    case _ =>
  }

  // --- what it cannot see ----------------------------------------------------------------------

  /** Nothing to hide at this place: a reference shows its own id, an object has the wanted keys and none
      of them is a secret. */
  predicate Exact(live: Option<Json>, wanted: Json, ids: Ids) {
    live.Some? &&
    match wanted
    case Str(s) => s != "" && s[0] == '#' ==> s[1..] in ids && live.value == Str(ids[s[1..]])
    case Obj(fields) =>
      live.value.Obj? && live.value.fields.Keys == fields.Keys && forall k | k in fields :: !HidesSecret(k, fields[k])
    case _ => true
  }

  ghost predicate ShowsAll(live: Json, wanted: Json, ids: Ids) {
    forall path: Path | Asked(wanted, path).Some? :: Exact(Shown(live, path), Asked(wanted, path).value, ids)
  }

  lemma ShowsAllAt(live: Json, wanted: Json, ids: Ids, path: Path)
    requires ShowsAll(live, wanted, ids) && Asked(wanted, path).Some?
    ensures Exact(Shown(live, path), Asked(wanted, path).value, ids)
  {
  }

  lemma ShowsAllBelow(live: Json, wanted: Json, ids: Ids, part: Part)
    requires ShowsAll(live, wanted, ids) && Asked(wanted, [part]).Some? && Shown(live, [part]).Some?
    ensures ShowsAll(Shown(live, [part]).value, Asked(wanted, [part]).value, ids)
  {
    forall path: Path | Asked(Asked(wanted, [part]).value, path).Some?
      ensures Exact(Shown(Shown(live, [part]).value, path), Asked(Asked(wanted, [part]).value, path).value, ids)
    {
      assert ([part] + path)[1..] == path && [part][1..] == [];
      ShowsAllAt(live, wanted, ids, [part] + path);
    }
  }

  /** A shown value is the resolved one if and only if the drift check takes it for the wanted one and
      nothing is hidden from it at any place: no reference to another id, no key beyond the wanted ones
      and no secret. */
  lemma IsResolvedExactly(live: Json, wanted: Json, ids: Ids)
    requires Plain(wanted) && Resolvable(wanted, ids) && NonEmptyIds(ids) && Strip(live) == live
    ensures live == Resolve(wanted, ids) <==> Agrees(live, wanted) && ShowsAll(live, wanted, ids)
  {
    if live == Resolve(wanted, ids) {
      SentValueIsSame(wanted, ids);
      SameValueExactly(live, wanted);
      ResolveKeepsWhole(wanted, ids);
      forall path: Path | Asked(wanted, path).Some?
        ensures Exact(Shown(live, path), Asked(wanted, path).value, ids)
      {
        ResolvedShowsAll(wanted, ids, path);
      }
    }
    if Agrees(live, wanted) && ShowsAll(live, wanted, ids) {
      ShowsAllIsResolved(live, wanted, ids);
    }
  }

  lemma {:induction false} ResolvedShowsAll(wanted: Json, ids: Ids, path: Path)
    requires Plain(wanted) && Resolvable(wanted, ids) && Strip(wanted) == wanted && Asked(wanted, path).Some?
    ensures Exact(Shown(Resolve(wanted, ids), path), Asked(wanted, path).value, ids)
    decreases |path|
  {
    if wanted.Obj? {
      ResolvePlainFields(wanted.fields, ids);
      WholeObject(wanted.fields);
      forall k | k in wanted.fields ensures !HidesSecret(k, wanted.fields[k]) {
        WriteOnlyHides(k, wanted.fields[k]);
      }
    }
    if path != [] {
      match path[0]
      case Field(key) => ResolvedShowsAll(wanted.fields[key], ids, path[1..]);
      case Item(i) =>
        assert Strip(wanted).items[i] == wanted.items[i];
        ResolvedShowsAll(wanted.items[i], ids, path[1..]);
    }
  }

  lemma {:induction false} ShowsAllIsResolved(live: Json, wanted: Json, ids: Ids)
    requires Plain(wanted) && Resolvable(wanted, ids)
    requires Agrees(live, wanted) && ShowsAll(live, wanted, ids)
    ensures live == Resolve(wanted, ids)
    decreases wanted
  {
    AgreesAt(live, wanted, []);
    ShowsAllAt(live, wanted, ids, []);
    match wanted
    case Obj(fields) =>
      forall k | k in fields ensures Resolvable(fields[k], ids) && live.fields[k] == Resolve(fields[k], ids) {
        assert [Field(k)][1..] == [];
        AgreesBelow(live, wanted, Field(k));
        ShowsAllBelow(live, wanted, ids, Field(k));
        ShowsAllIsResolved(live.fields[k], fields[k], ids);
      }
      FieldsAreResolved(live.fields, fields, ids);
    case List(items) =>
      forall i | 0 <= i < |items| ensures live.items[i] == Resolve(items[i], ids) {
        assert [Item(i)][1..] == [];
        AgreesBelow(live, wanted, Item(i));
        ShowsAllBelow(live, wanted, ids, Item(i));
        ShowsAllIsResolved(live.items[i], items[i], ids);
      }
    case _ =>
  }

  lemma FieldsAreResolved(live: Props, fields: Props, ids: Ids)
    requires TopPlain(fields) && Resolvable(Obj(fields), ids) && live.Keys == fields.Keys
    requires forall k | k in fields :: Resolvable(fields[k], ids) && live[k] == Resolve(fields[k], ids)
    ensures live == ResolveProps(fields, ids)
  {
    ResolvePlainFields(fields, ids);
  }
}
