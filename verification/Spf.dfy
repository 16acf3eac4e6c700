/** The SPF texts of a cluster: one while it fits a TXT string, else a parent that includes numbered
    children, filled greedily. */
module Spf {
  import opened Wrappers
  import opened IndexedList
  import Strings

  // --- texts ---------------------------------------------------------------------------------

  /** The longest a character string of a TXT record can be. */
  const SPF_TEXT_LIMIT: nat := 255

  function Text(mechanisms: seq<string>): string {
    Strings.Join(["v=spf1"] + mechanisms + ["-all"])
  }

  predicate Fits(mechanisms: seq<string>) {
    |Text(mechanisms)| <= SPF_TEXT_LIMIT
  }

  function Mechanism(ip: string): string {
    (if ':' in ip then "ip6:" else "ip4:") + ip
  }

  function Mechanisms(ips: seq<string>): seq<string> {
    seq(|ips|, i requires 0 <= i < |ips| => Mechanism(ips[i]))
  }

  // --- the split -----------------------------------------------------------------------------

  type Chunk = seq<string>

  datatype SpfError = NoZone | TooManyAddresses

  type Records = seq<(string, string)>

  /** Where the greedy loop takes its open chunk and the mechanisms still to place. */
  function Fill(open: Chunk, rest: seq<string>): seq<Chunk>
    decreases |rest|
  {
    if rest == [] then [open]
    else if open != [] && !Fits(open + [rest[0]]) then [open] + Fill([rest[0]], rest[1..])
    else Fill(open + [rest[0]], rest[1..])
  }

  /** What follows the first dot. */
  function ZoneOf(host: string): Option<string> {
    if host == "" then None else if host[0] == '.' then Some(host[1..]) else ZoneOf(host[1..])
  }

  function ChildHost(zone: string, i: nat): string {
    "spf" + Decimal(i + 1) + "." + zone
  }

  function Include(host: string): string {
    "include:" + host
  }

  function Includes(zone: string, count: nat): seq<string> {
    seq(count, i requires 0 <= i < count => Include(ChildHost(zone, i)))
  }

  function Children(zone: string, chunks: seq<Chunk>): Records {
    seq(|chunks|, i requires 0 <= i < |chunks| => (ChildHost(zone, i), Text(chunks[i])))
  }

  function SplitRecords(includeHost: string, chunks: seq<Chunk>): Result<Records, SpfError> {
    match ZoneOf(includeHost)
    case None => Err(NoZone)
    case Some(zone) =>
      if !Fits(Includes(zone, |chunks|)) then Err(TooManyAddresses)
      else Ok([(includeHost, Text(Includes(zone, |chunks|)))] + Children(zone, chunks))
  }

  /** `spf_texts`, with the loop's chunks as `Fill` gives them. */
  function SpfRecords(includeHost: string, mechanisms: seq<string>): Result<Records, SpfError> {
    if Fits(mechanisms) then Ok([(includeHost, Text(mechanisms))])
    else SplitRecords(includeHost, Fill([], mechanisms))
  }

  lemma FillNothing(open: Chunk, mechanisms: seq<string>)
    ensures Fill(open, mechanisms[|mechanisms|..]) == [open]
  {
  }

  lemma FillOneMore(open: Chunk, mechanisms: seq<string>, i: nat)
    requires i < |mechanisms|
    ensures Fill(open, mechanisms[i..]) ==
            if open != [] && !Fits(open + [mechanisms[i]]) then [open] + Fill([mechanisms[i]], mechanisms[i + 1..])
            else Fill(open + [mechanisms[i]], mechanisms[i + 1..])
  {
    hide Fits;
    assert mechanisms[i..][0] == mechanisms[i] && mechanisms[i..][1..] == mechanisms[i + 1..];
  }

  method SpfTexts(includeHost: string, mechanisms: seq<string>) returns (result: Result<Records, SpfError>)
    ensures result == SpfRecords(includeHost, mechanisms)
  {
    hide Fill;
    var single := Text(mechanisms);
    if |single| <= SPF_TEXT_LIMIT {
      return Ok([(includeHost, single)]);
    }
    var chunks: seq<Chunk> := [[]];
    for i := 0 to |mechanisms|
      invariant |chunks| > 0
      invariant chunks[..|chunks| - 1] + Fill(chunks[|chunks| - 1], mechanisms[i..]) == Fill([], mechanisms)
    {
      var mechanism := mechanisms[i];
      FillOneMore(chunks[|chunks| - 1], mechanisms, i);
      ghost var before, open := chunks[..|chunks| - 1], chunks[|chunks| - 1];
      if chunks[|chunks| - 1] != [] && |Text(chunks[|chunks| - 1] + [mechanism])| > SPF_TEXT_LIMIT {
        chunks := chunks + [[]];
        assert chunks[..|chunks| - 1] == before + [open];
      }
      chunks := chunks[|chunks| - 1 := chunks[|chunks| - 1] + [mechanism]];
      assert [] + [mechanism] == [mechanism];
      if open != [] && !Fits(open + [mechanism]) {
        assert chunks[..|chunks| - 1] == before + [open] && chunks[|chunks| - 1] == [mechanism];
      } else {
        assert chunks[..|chunks| - 1] == before && chunks[|chunks| - 1] == open + [mechanism];
      }
    }
    FillNothing(chunks[|chunks| - 1], mechanisms);
    assert chunks == chunks[..|chunks| - 1] + [chunks[|chunks| - 1]];
    result := SplitRecords(includeHost, chunks);
  }

  // --- lengths -------------------------------------------------------------------------------

  /** Characters the mechanisms take, each with the space before it. */
  function Size(mechanisms: seq<string>): nat {
    if mechanisms == [] then 0 else 1 + |mechanisms[0]| + Size(mechanisms[1..])
  }

  lemma {:induction false} JoinSize(word: string, rest: seq<string>)
    ensures |Strings.Join([word] + rest)| == |word| + Size(rest)
    decreases |rest|
  {
    if rest != [] {
      assert ([word] + rest)[1..] == [rest[0]] + rest[1..];
      JoinSize(rest[0], rest[1..]);
    }
  }

  lemma {:induction false} SizeAdds(a: seq<string>, b: seq<string>)
    ensures Size(a + b) == Size(a) + Size(b)
  {
    if a == [] {
      assert a + b == b;
    } else {
      assert (a + b)[1..] == a[1..] + b;
      SizeAdds(a[1..], b);
    }
  }

  lemma FitsBySize(mechanisms: seq<string>)
    ensures Fits(mechanisms) <==> Size(mechanisms) + 11 <= SPF_TEXT_LIMIT
  {
    assert ["v=spf1"] + mechanisms + ["-all"] == ["v=spf1"] + (mechanisms + ["-all"]);
    JoinSize("v=spf1", mechanisms + ["-all"]);
    SizeAdds(mechanisms, ["-all"]);
    assert Size(["-all"]) == 5 + Size([]);
  }

  lemma PartFits(a: seq<string>, b: seq<string>, c: seq<string>)
    requires Fits(a + b + c)
    ensures Fits(b)
  {
    FitsBySize(a + b + c);
    FitsBySize(b);
    SizeAdds(a + b, c);
    SizeAdds(a, b);
  }

  // --- every order-preserving split --------------------------------------------------------------

  function Concat(split: seq<Chunk>): seq<string> {
    if split == [] then [] else split[0] + Concat(split[1..])
  }

  predicate AllFit(split: seq<Chunk>) {
    forall i | 0 <= i < |split| :: Fits(split[i])
  }

  predicate EachFitsAlone(mechanisms: seq<string>) {
    forall i | 0 <= i < |mechanisms| :: Fits([mechanisms[i]])
  }

  /** The chunks hold the mechanisms in their order. */
  lemma {:induction false} FillConcatenates(open: Chunk, rest: seq<string>)
    ensures Concat(Fill(open, rest)) == open + rest
    ensures Fill(open, rest) != []
    decreases |rest|
  {
    hide Fits;
    if rest == [] {
      assert Concat([open]) == open + Concat([]);
    } else {
      assert rest == [rest[0]] + rest[1..];
      if open != [] && !Fits(open + [rest[0]]) {
        var more := Fill([rest[0]], rest[1..]);
        FillConcatenates([rest[0]], rest[1..]);
        assert ([open] + more)[1..] == more;
      } else {
        FillConcatenates(open + [rest[0]], rest[1..]);
        assert open + [rest[0]] + rest[1..] == open + rest;
      }
    }
  }

  /** The open chunk only ever holds more than fits when one mechanism alone does. */
  lemma {:induction false} FillFits(open: Chunk, rest: seq<string>)
    requires EachFitsAlone(rest) && Fits(open)
    ensures AllFit(Fill(open, rest))
    decreases |rest|
  {
    hide Fits;
    if rest != [] {
      assert Fits([rest[0]]);
      assert EachFitsAlone(rest[1..]);
      if open != [] && !Fits(open + [rest[0]]) {
        FillFits([rest[0]], rest[1..]);
      } else {
        assert open == [] ==> open + [rest[0]] == [rest[0]];
        FillFits(open + [rest[0]], rest[1..]);
      }
    }
  }

  /** A split without its first mechanisms, in no more chunks. */
  lemma {:induction false} DropFirst(split: seq<Chunk>, count: nat) returns (shorter: seq<Chunk>)
    requires AllFit(split) && count <= |Concat(split)|
    ensures AllFit(shorter) && |shorter| <= |split| && Concat(shorter) == Concat(split)[count..]
    decreases |split|
  {
    hide Fits;
    if split == [] {
      shorter := [];
    } else {
      var head, tail := split[0], split[1..];
      assert AllFit(tail);
      if count >= |head| {
        shorter := DropFirst(tail, count - |head|);
        assert Concat(split)[count..] == Concat(tail)[count - |head|..];
      } else {
        shorter := [head[count..]] + tail;
        assert head == head[..count] + head[count..] + [];
        PartFits(head[..count], head[count..], []);
        assert shorter[1..] == tail;
        assert Concat(split)[count..] == head[count..] + Concat(tail);
      }
    }
  }

  /** Greedy filling opens the fewest chunks of any order-preserving split. */
  lemma {:induction false} FillIsFewest(open: Chunk, rest: seq<string>, other: seq<Chunk>)
    requires AllFit(other) && Concat(other) == open + rest && open + rest != []
    ensures |Fill(open, rest)| <= |other|
    decreases |rest|
  {
    hide Fits;
    assert other != [];
    if rest != [] {
      assert rest == [rest[0]] + rest[1..];
      if open != [] && !Fits(open + [rest[0]]) {
        var head, tail := other[0], other[1..];
        assert AllFit(tail);
        if |head| > |open| {
          assert head == (open + rest)[..|head|];
          assert head == [] + (open + [rest[0]]) + head[|open| + 1..];
          PartFits([], open + [rest[0]], head[|open| + 1..]);
          assert false;
        }
        var shorter := DropFirst(tail, |open| - |head|);
        assert Concat(shorter) == [rest[0]] + rest[1..];
        FillIsFewest([rest[0]], rest[1..], shorter);
      } else {
        assert open + [rest[0]] + rest[1..] == open + rest;
        FillIsFewest(open + [rest[0]], rest[1..], other);
      }
    }
  }

  lemma {:induction false} ConcatHas(split: seq<Chunk>, mechanism: string)
    ensures mechanism in Concat(split) <==> exists i | 0 <= i < |split| :: mechanism in split[i]
  {
    if split != [] {
      ConcatHas(split[1..], mechanism);
      assert forall i | 0 < i < |split| :: split[i] == split[1..][i - 1];
      if mechanism in split[0] {
        assert mechanism in Concat(split);
      }
      if i :| 0 <= i < |split[1..]| && mechanism in split[1..][i] {
        assert mechanism in split[i + 1];
      }
    }
  }

  /** Every text fits a TXT string if and only if each mechanism fits one alone; the children list the
      mechanisms in order, in the fewest texts any order-preserving split takes. */
  lemma SplitIsSound(includeHost: string, mechanisms: seq<string>)
    requires !Fits(mechanisms) && SpfRecords(includeHost, mechanisms).Ok?
    ensures var records, chunks := SpfRecords(includeHost, mechanisms).value, Fill([], mechanisms);
            && |records| == 1 + |chunks| && Concat(chunks) == mechanisms
            && (forall i | 0 <= i < |chunks| :: records[i + 1].1 == Text(chunks[i]))
            && ((forall record | record in records :: |record.1| <= 255) <==> EachFitsAlone(mechanisms))
    ensures forall other | AllFit(other) && Concat(other) == mechanisms :: |Fill([], mechanisms)| <= |other|
  {
    hide Fits, Concat, Fill;
    var records, chunks := SpfRecords(includeHost, mechanisms).value, Fill([], mechanisms);
    FillConcatenates([], mechanisms);
    assert [] + mechanisms == mechanisms;
    assert Fits([]) by {
      FitsBySize([]);
    }
    if EachFitsAlone(mechanisms) {
      FillFits([], mechanisms);
      forall record | record in records ensures |record.1| <= SPF_TEXT_LIMIT {
        var i :| 0 <= i < |records| && records[i] == record;
        FitsIs(if i > 0 then chunks[i - 1] else Includes(ZoneOf(includeHost).value, |chunks|));
      }
    }
    if forall record | record in records :: |record.1| <= SPF_TEXT_LIMIT {
      forall i | 0 <= i < |chunks| ensures Fits(chunks[i]) {
        assert records[i + 1] in records;
        FitsIs(chunks[i]);
      }
      PartsFitAlone(chunks, mechanisms);
    }
    NoSplitIsShorter(mechanisms);
  }

  lemma PartsFitAlone(chunks: seq<Chunk>, mechanisms: seq<string>)
    requires AllFit(chunks) && Concat(chunks) == mechanisms
    ensures EachFitsAlone(mechanisms)
  {
    hide Fits, Concat;
    forall k | 0 <= k < |mechanisms| ensures Fits([mechanisms[k]]) {
      ConcatHas(chunks, mechanisms[k]);
      var i :| 0 <= i < |chunks| && mechanisms[k] in chunks[i];
      MemberFits(chunks[i], mechanisms[k]);
    }
  }

  lemma MemberFits(chunk: Chunk, mechanism: string)
    requires Fits(chunk) && mechanism in chunk
    ensures Fits([mechanism])
  {
    hide Fits;
    var j :| 0 <= j < |chunk| && chunk[j] == mechanism;
    assert chunk == chunk[..j] + [chunk[j]] + chunk[j + 1..];
    PartFits(chunk[..j], [chunk[j]], chunk[j + 1..]);
  }

  lemma NoSplitIsShorter(mechanisms: seq<string>)
    requires !Fits(mechanisms)
    ensures forall other | AllFit(other) && Concat(other) == mechanisms :: |Fill([], mechanisms)| <= |other|
  {
    assert Fits([]) by {
      FitsBySize([]);
    }
    hide Fits, Concat, Fill;
    assert [] + mechanisms == mechanisms && mechanisms != [];
    forall other | AllFit(other) && Concat(other) == mechanisms ensures |Fill([], mechanisms)| <= |other| {
      FillIsFewest([], mechanisms, other);
    }
  }

  lemma FitsIs(mechanisms: seq<string>)
    ensures Fits(mechanisms) <==> |Text(mechanisms)| <= SPF_TEXT_LIMIT
  {
  }

  /** One text while it fits a TXT string, else a split; it needs a zone to name the children in, and a
      parent that fits. */
  lemma RefusedExactly(includeHost: string, mechanisms: seq<string>)
    ensures var result := SpfRecords(includeHost, mechanisms);
            var text := Strings.Join(["v=spf1"] + mechanisms + ["-all"]);
            && (|text| <= 255 <==> result == Ok([(includeHost, text)]))
            && (result == Err(NoZone) <==> |text| > 255 && '.' !in includeHost)
            && (result == Err(TooManyAddresses) <==>
                  |text| > 255 && ZoneOf(includeHost).Some? &&
                  var includes := Includes(ZoneOf(includeHost).value, |Fill([], mechanisms)|);
                  |Strings.Join(["v=spf1"] + includes + ["-all"])| > 255)
  {
    hide Fill, Includes, Strings.Join;
    ZoneAfterDot(includeHost);
    FillIsSome([], mechanisms);
  }

  lemma {:induction false} ZoneAfterDot(host: string)
    ensures ZoneOf(host).Some? <==> '.' in host
    ensures ZoneOf(host).Some? ==>
              exists first: string | '.' !in first && |first| < |host| :: host == first + "." + ZoneOf(host).value
  {
    if host != "" {
      ZoneAfterDot(host[1..]);
      assert host == [host[0]] + host[1..];
      if host[0] == '.' {
        var none: string := "";
        assert '.' !in none && host == none + "." + host[1..];
      } else if ZoneOf(host).Some? {
        var zone := ZoneOf(host).value;
        var rest: string :| '.' !in rest && |rest| < |host[1..]| && host[1..] == rest + "." + zone;
        var first := [host[0]] + rest;
        assert '.' !in first && host == first + "." + zone;
      }
    }
  }

  lemma {:induction false} FillIsSome(open: Chunk, rest: seq<string>)
    ensures |Fill(open, rest)| > 0
    decreases |rest|
  {
    hide Fits;
    if rest != [] {
      FillIsSome(open + [rest[0]], rest[1..]);
    }
  }
}
