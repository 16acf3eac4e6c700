/** What the parser of zone files takes for a record, and what it passes over. */
module ZoneReading {
  import opened Wrappers
  import opened Strings
  import opened Zone
  import IndexedList

  // --- records ---------------------------------------------------------------------------------

  /** The words, each with whitespace after it, and then the data. */
  ghost predicate Spaced(line: string, words: seq<string>, data: string)
    decreases |words|
  {
    if words == [] then line == data
    else
      exists gap, rest ::
        gap != "" && AreBlank(gap) && line == words[0] + gap + rest && Spaced(rest, words[1..], data)
  }

  predicate NoBlank(word: string) {
    forall i | 0 <= i < |word| :: !IsBlank(word[i])
  }

  lemma {:induction false} LeadingBlanks(s: string) returns (gap: string)
    ensures s == gap + StripLeft(s, SPACES) && AreBlank(gap)
    ensures s != "" && IsBlank(s[0]) ==> gap != ""
  {
    if s != "" && s[0] in SPACES {
      gap := LeadingBlanks(s[1..]);
      gap := [s[0]] + gap;
    } else {
      gap := "";
    }
  }

  lemma {:induction false} WordThenGap(s: string) returns (gap: string)
    requires AfterWord(s).Some?
    ensures s == FirstWord(s) + gap + AfterWord(s).value
    ensures gap != "" && AreBlank(gap) && NoBlank(FirstWord(s))
  {
    if IsSpace(s[0]) {
      gap := LeadingBlanks(s);
      assert s == "" + gap + StripLeft(s, SPACES);
    } else {
      gap := WordThenGap(s[1..]);
      assert s == [s[0]] + s[1..];
      assert FirstWord(s) == [s[0]] + FirstWord(s[1..]);
    }
  }

  lemma SpacedFirst(line: string, gap: string, rest: string, words: seq<string>, data: string)
    requires words != [] && gap != "" && AreBlank(gap) && line == words[0] + gap + rest
    requires Spaced(rest, words[1..], data)
    ensures Spaced(line, words, data)
  {
  }

  lemma TypeForm(s: string)
    requires MatchType(s).Some?
    ensures var (kind, data) := MatchType(s).value;
            Spaced(s, [kind], data) && data != "" && kind != "" && forall i | 0 <= i < |kind| :: 'A' <= kind[i] <= 'Z'
  {
    var gap := WordThenGap(s);
    var kind, data := FirstWord(s), AfterWord(s).value;
    assert [kind][1..] == [];
    SpacedFirst(s, gap, data, [kind], data);
  }

  lemma ClassForm(s: string) returns (class_: seq<string>)
    requires MatchClass(s).Some?
    ensures class_ == [] || class_ == ["IN"]
    ensures var (kind, data) := MatchClass(s).value;
            && Spaced(s, class_ + [kind], data) && data != ""
            && kind != "" && forall i | 0 <= i < |kind| :: 'A' <= kind[i] <= 'Z'
  {
    hide MatchType, AfterWord;
    var rest := AfterWord(s);
    if FirstWord(s) == "IN" && rest.Some? && MatchType(rest.value).Some? {
      TypeForm(rest.value);
      var gap := WordThenGap(s);
      class_ := ["IN"];
      var kind := MatchType(rest.value).value.0;
      assert (["IN"] + [kind])[1..] == [kind];
      SpacedFirst(s, gap, rest.value, ["IN"] + [kind], MatchType(rest.value).value.1);
    } else {
      TypeForm(s);
      class_ := [];
      assert [] + [MatchType(s).value.0] == [MatchType(s).value.0];
    }
  }

  predicate IsNumber(s: string) {
    s != "" && forall i | 0 <= i < |s| :: '0' <= s[i] <= '9'
  }

  lemma {:induction false} ParsedIsNumber(s: string)
    requires IndexedList.ParseInt(s).Some?
    ensures IsNumber(s)
  {
    if |s| > 1 {
      ParsedIsNumber(s[..|s| - 1]);
      assert s == s[..|s| - 1] + [s[|s| - 1]];
    }
  }

  /** A line that gives a record is a name, a number of seconds and the class where they are there, a type in
      capital letters and data; the record is made of just these. */
  lemma RecordHasForm(line: string) returns (name: string, ttl: seq<string>, class_: seq<string>, data: string)
    requires ParseRecord(line).Some?
    ensures var record := ParseRecord(line).value;
            && Spaced(line, [name] + ttl + class_ + [record.kind], data)
            && name != "" && NoBlank(name) && record.name == Lower(StripRight(name, {'.'}))
            && |ttl| <= 1 && (class_ == [] || class_ == ["IN"])
            && record.ttl == (if ttl == [] then None else IndexedList.ParseInt(ttl[0]))
            && (ttl != [] ==> IsNumber(ttl[0]))
            && record.kind != "" && (forall i | 0 <= i < |record.kind| :: 'A' <= record.kind[i] <= 'Z')
            && data != "" && record.rdata == Strip(data)
  {
    hide MatchClass, AfterWord, IndexedList.ParseInt, Strip, Lower, StripRight, Spaced;
    name := FirstWord(line);
    var gap := WordThenGap(line);
    var rest := AfterWord(line).value;
    var first, after := FirstWord(rest), AfterWord(rest);
    if IndexedList.ParseInt(first).Some? && after.Some? && MatchClass(after.value).Some? {
      ttl := [first];
      ParsedIsNumber(first);
      class_ := ClassForm(after.value);
      data := MatchClass(after.value).value.1;
      var kind := MatchClass(after.value).value.0;
      var second := WordThenGap(rest);
      assert (ttl + (class_ + [kind]))[1..] == class_ + [kind];
      SpacedFirst(rest, second, after.value, ttl + (class_ + [kind]), data);
      assert ([name] + ttl + class_ + [kind])[1..] == ttl + (class_ + [kind]);
      SpacedFirst(line, gap, rest, [name] + ttl + class_ + [kind], data);
    } else {
      ttl := [];
      class_ := ClassForm(rest);
      data := MatchClass(rest).value.1;
      var kind := MatchClass(rest).value.0;
      assert ([name] + ttl + class_ + [kind])[1..] == class_ + [kind];
      SpacedFirst(line, gap, rest, [name] + ttl + class_ + [kind], data);
    }
  }

  // --- lines that are passed over ------------------------------------------------------------------

  /** A directive gives no record. */
  lemma DirectiveIsSkipped(directive: string, logical: Lines)
    requires directive != "" && directive[0] == '$'
    ensures Records([directive] + logical) == Records(logical)
  {
    assert ([directive] + logical)[1..] == logical;
  }

  /** How far parentheses are open after the first lines that are not blank. */
  function DepthAfter(raws: Lines, k: nat): int
    requires k <= |raws|
  {
    if k == 0 then 0
    else DepthAfter(raws, k - 1) + if Content(raws[k - 1]) == "" then 0 else Balance(Content(raws[k - 1]), false)
  }

  lemma {:induction false} DepthOfRest(raws: Lines, k: nat)
    requires 0 < k <= |raws|
    ensures DepthAfter(raws, k) ==
            DepthAfter(raws[1..], k - 1) + if Content(raws[0]) == "" then 0 else Balance(Content(raws[0]), false)
  {
    if k > 1 {
      DepthOfRest(raws, k - 1);
    }
  }

  /** Lines give nothing at all if and only if each that is not blank leaves a parenthesis open: what follows
      an unclosed one to the end of the file is lost. */
  lemma {:induction false} UnclosedIsLost(pending: Lines, depth: int, raws: Lines)
    ensures LogicalFrom(pending, depth, raws) == [] <==>
            forall k | 0 <= k < |raws| && Content(raws[k]) != "" :: depth + DepthAfter(raws, k + 1) > 0
    decreases raws
  {
    hide Content, Balance, Joined;
    if raws != [] {
      var line, rest := Content(raws[0]), raws[1..];
      var open := depth + if line == "" then 0 else Balance(line, false);
      assert DepthAfter(raws, 1) == DepthAfter(raws, 0) + if line == "" then 0 else Balance(line, false);
      forall k | 0 <= k < |rest|
        ensures rest[k] == raws[k + 1] && depth + DepthAfter(raws, k + 2) == open + DepthAfter(rest, k + 1)
      {
        DepthOfRest(raws, k + 2);
      }
      if line == "" {
        UnclosedIsLost(pending, depth, rest);
      } else if open > 0 {
        UnclosedIsLost(pending + [line], open, rest);
      }
      if forall k | 0 <= k < |rest| && Content(rest[k]) != "" :: open + DepthAfter(rest, k + 1) > 0 {
        forall k | 1 <= k < |raws| && Content(raws[k]) != "" ensures depth + DepthAfter(raws, k + 1) > 0 {
          assert rest[k - 1] == raws[k];
        }
      }
      if forall k | 0 <= k < |raws| && Content(raws[k]) != "" :: depth + DepthAfter(raws, k + 1) > 0 {
        forall k | 0 <= k < |rest| && Content(rest[k]) != "" ensures open + DepthAfter(rest, k + 1) > 0 {
          assert raws[k + 1] == rest[k];
        }
      }
    }
  }
}
