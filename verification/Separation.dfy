/** A value without secrets on the objects of a server: when a later value leaves it as it is. */
module Separation {
  import opened Json
  import opened PlanApplier
  import opened Convergence

  predicate Whole(value: Props) {
    Strip(Obj(value)) == Obj(value)
  }

  lemma WholeField(value: Props, k: string)
    requires Whole(value) && k in value
    ensures !IsWriteOnly(k, value[k]) && Strip(value[k]) == value[k] && k != "credentials"
  {
    WholeObject(value);
    assert !IsWriteOnly(k, value[k]);
  }

  lemma WholeHasNoSecrets(value: Props)
    requires Whole(value)
    ensures Secrets(value) == map[]
  {
    forall k | k in value ensures k !in Secrets(value) {
      WholeField(value, k);
    }
  }

  lemma WholePatch(value: Props, keys: seq<string>, held: Props, k: string)
    requires Whole(value)
    ensures k in PatchOf(value, keys, held) <==> k in value && k !in keys && Get(held, k) != value[k]
    ensures k in PatchOf(value, keys, held) ==> PatchOf(value, keys, held)[k] == value[k]
  {
    WholeHasNoSecrets(value);
    if k in value {
      WholeField(value, k);
    }
  }

  /** What an object shows once a whole value was written to it. */
  lemma ReadAfter(held: Props, keys: seq<string>, value: Props, k: string)
    requires Whole(value)
    ensures Get(StripProps(held + PatchOf(value, keys, StripProps(held))), k) ==
            if k in value && k !in keys then value[k] else Get(StripProps(held), k)
  {
    var patch := PatchOf(value, keys, StripProps(held));
    WholePatch(value, keys, StripProps(held), k);
    if k in patch {
      WholeField(value, k);
    } else if k in held {
      assert (held + patch)[k] == held[k];
    }
  }

  /** A whole value is settled on an object that shows every property of it. */
  lemma SettledShows(objects: Collection, keys: seq<string>, value: Props)
    requires Whole(value)
    ensures Settled(objects, keys, value) <==>
            var i := FirstMatch(Read(objects), keys, value);
            i < |objects| && forall k | k in value && k !in keys :: Get(StripProps(objects[i].props), k) == value[k]
  {
    var i := FirstMatch(Read(objects), keys, value);
    if i < |objects| {
      var held := objects[i].props;
      var patch := PatchOf(value, keys, StripProps(held));
      if held + patch == held {
        forall k | k in value && k !in keys ensures Get(StripProps(held), k) == value[k] {
          WholePatch(value, keys, StripProps(held), k);
          WholeField(value, k);
        }
      }
      if forall k | k in value && k !in keys :: Get(StripProps(held), k) == value[k] {
        forall k ensures k !in patch {
          WholePatch(value, keys, StripProps(held), k);
        }
        assert patch == map[];
      }
    }
  }

  lemma MatchesKey(held: Props, keys: seq<string>, value: Props, k: string)
    requires Matches(held, keys, value) && k in keys
    ensures Get(held, k) == Get(value, k)
  {
  }

  /** An object before `x`'s that `y` is written to does not come to match `x`. */
  lemma EarlierStaysOff(held: Props, x: Props, kx: seq<string>, y: Props, ky: seq<string>)
    requires Whole(y) && !Steals(x, kx, y, ky)
    requires Matches(StripProps(held), ky, y) && !Matches(StripProps(held), kx, x)
    ensures !Matches(StripProps(held + PatchOf(y, ky, StripProps(held))), kx, x)
  {
    hide StripProps, PatchOf;
    var after := StripProps(held + PatchOf(y, ky, StripProps(held)));
    if Matches(after, kx, x) {
      forall k | k in kx ensures k in ky ==> Get(x, k) == Get(y, k)
                         ensures k in y && k !in ky ==> y[k] == Get(x, k)
      {
        ReadAfter(held, ky, y, k);
        MatchesKey(after, kx, x, k);
      }
      forall k | k in kx ensures Get(StripProps(held), k) == Get(x, k) {
        ReadAfter(held, ky, y, k);
        MatchesKey(after, kx, x, k);
      }
    }
  }

  /** Where both are on one object, what `y` sends is what `x` left there. */
  lemma SharedAgrees(held: Props, x: Props, kx: seq<string>, y: Props, ky: seq<string>, k: string)
    requires !Overwrites(x, kx, y, ky)
    requires Matches(held, kx, x) && Matches(held, ky, y)
    requires forall p | p in x && p !in kx :: Get(held, p) == x[p]
    ensures k in y && k !in ky && (k in kx || k in x) ==> y[k] == Get(x, k)
  {
    forall p | p in kx && p in ky ensures Get(x, p) == Get(y, p) {
      MatchesKey(held, kx, x, p);
      MatchesKey(held, ky, y, p);
    }
    forall p | p in ky && p in x && p !in kx ensures x[p] == Get(y, p) {
      MatchesKey(held, ky, y, p);
    }
  }

  lemma SameObjectStays(held: Props, x: Props, kx: seq<string>, y: Props, ky: seq<string>)
    requires Whole(y) && !Overwrites(x, kx, y, ky)
    requires Matches(StripProps(held), kx, x) && Matches(StripProps(held), ky, y)
    requires forall k | k in x && k !in kx :: Get(StripProps(held), k) == x[k]
    ensures var after := StripProps(held + PatchOf(y, ky, StripProps(held)));
            Matches(after, kx, x) && forall k | k in x && k !in kx :: Get(after, k) == x[k]
  {
    hide StripProps, PatchOf, Overwrites;
    var shown := StripProps(held);
    var after := StripProps(held + PatchOf(y, ky, shown));
    forall k | k in kx ensures Get(after, k) == Get(x, k) {
      ReadAfter(held, ky, y, k);
      SharedAgrees(shown, x, kx, y, ky, k);
      MatchesKey(shown, kx, x, k);
    }
    forall k | k in x && k !in kx ensures Get(after, k) == x[k] {
      ReadAfter(held, ky, y, k);
      SharedAgrees(shown, x, kx, y, ky, k);
    }
  }

  /** A value that does not disturb a settled one leaves it settled, on the same object. */
  lemma UndisturbedStaysSettled(objects: Collection, kx: seq<string>, x: Props, ky: seq<string>, y: Props)
    requires Whole(x) && Whole(y) && !Disturbs(x, kx, y, ky)
    requires Settled(objects, kx, x)
    ensures var after := Place(objects, ky, y);
            Settled(after, kx, x) && PlacedId(after, kx, x) == PlacedId(objects, kx, x)
  {
    hide StripProps, PatchOf, Steals, Overwrites, Matches, Whole, Settled;
    var i := FirstMatch(Read(objects), kx, x);
    var o := FirstMatch(Read(objects), ky, y);
    var after := Place(objects, ky, y);
    SettledShows(objects, kx, x);
    if o < i {
      EarlierStaysOff(objects[o].props, x, kx, y, ky);
    } else if o == i {
      SameObjectStays(objects[i].props, x, kx, y, ky);
    }
    forall j | 0 <= j <= i ensures Matches(Read(after)[j].props, kx, x) <==> Matches(Read(objects)[j].props, kx, x) {
      if j != o {
        assert after[j] == objects[j];
      }
    }
    FirstMatchIs(Read(after), kx, x, i);
    SettledShows(after, kx, x);
  }
}
