/** Parentheses, line breaks and comments around a record's data change nothing. */
module ZoneTheorems {
  import opened Wrappers
  import opened Strings
  import opened Zone
  import IndexedList

  // --- quotes --------------------------------------------------------------------------------

  predicate Balanced(s: string) {
    !QuotedAfter(s, false)
  }

  lemma {:induction false} QuotesJoin(a: string, b: string, quoted: bool)
    ensures QuotedAfter(a + b, quoted) == QuotedAfter(b, QuotedAfter(a, quoted))
  {
    if a == "" {
      assert a + b == b;
    } else {
      assert (a + b)[1..] == a[1..] + b;
      QuotesJoin(a[1..], b, if a[0] == '"' then !quoted else quoted);
    }
  }

  lemma DroppedNothing(quoted: bool)
    ensures Dropped("", quoted) == ""
  {
  }

  lemma DroppedStep(s: string, quoted: bool)
    requires s != ""
    ensures var first := if s[0] == '"' || quoted || (s[0] != '(' && s[0] != ')') then [s[0]] else "";
            Dropped(s, quoted) == first + Dropped(s[1..], if s[0] == '"' then !quoted else quoted)
  {
  }

  lemma {:induction false} DroppedJoins(a: string, b: string, quoted: bool)
    ensures Dropped(a + b, quoted) == Dropped(a, quoted) + Dropped(b, QuotedAfter(a, quoted))
  {
    hide Dropped;
    if a == "" {
      assert a + b == b;
      DroppedNothing(quoted);
    } else {
      var after := if a[0] == '"' then !quoted else quoted;
      assert (a + b)[0] == a[0] && (a + b)[1..] == a[1..] + b;
      DroppedJoins(a[1..], b, after);
      var first := if a[0] == '"' || quoted || (a[0] != '(' && a[0] != ')') then [a[0]] else "";
      DroppedStep(a, quoted);
      DroppedStep(a + b, quoted);
      assert QuotedAfter(a, quoted) == QuotedAfter(a[1..], after);
      assert first + (Dropped(a[1..], after) + Dropped(b, QuotedAfter(a, quoted)))
          == first + Dropped(a[1..], after) + Dropped(b, QuotedAfter(a, quoted));
    }
  }

  lemma {:induction false} BalanceJoins(a: string, b: string, quoted: bool)
    ensures Balance(a + b, quoted) == Balance(a, quoted) + Balance(b, QuotedAfter(a, quoted))
  {
    if a == "" {
      assert a + b == b;
    } else {
      assert (a + b)[1..] == a[1..] + b;
      BalanceJoins(a[1..], b, if a[0] == '"' then !quoted else quoted);
    }
  }

  // --- text without comments and parentheses -----------------------------------------------------

  predicate IsMark(c: char) {
    c == ';' || c == '(' || c == ')'
  }

  /** No semicolon and no parenthesis outside quotes. */
  predicate Clean(s: string, quoted: bool) {
    s == "" || ((quoted || !IsMark(s[0])) && Clean(s[1..], if s[0] == '"' then !quoted else quoted))
  }

  lemma {:induction false} CleanIsPlain(s: string, quoted: bool)
    requires Clean(s, quoted)
    ensures WithoutComment(s, quoted) == s && Balance(s, quoted) == 0 && Dropped(s, quoted) == s
  {
    if s != "" {
      CleanIsPlain(s[1..], if s[0] == '"' then !quoted else quoted);
    }
  }

  lemma {:induction false} CleanJoins(a: string, b: string, quoted: bool)
    ensures Clean(a + b, quoted) <==> Clean(a, quoted) && Clean(b, QuotedAfter(a, quoted))
  {
    if a == "" {
      assert a + b == b;
    } else {
      assert (a + b)[1..] == a[1..] + b;
      CleanJoins(a[1..], b, if a[0] == '"' then !quoted else quoted);
    }
  }

  /** The characters that are no whitespace: all that quotes and marks depend on. */
  function Ink(s: string): string {
    if s == "" then "" else (if IsSpace(s[0]) then "" else [s[0]]) + Ink(s[1..])
  }

  lemma {:induction false} InkDecides(s: string, quoted: bool)
    ensures QuotedAfter(Ink(s), quoted) == QuotedAfter(s, quoted) && (Clean(Ink(s), quoted) <==> Clean(s, quoted))
  {
    if s != "" {
      InkDecides(s[1..], if s[0] == '"' then !quoted else quoted);
      var rest := Ink(s[1..]);
      if IsSpace(s[0]) {
        assert Ink(s) == rest && s[0] != '"' && !IsMark(s[0]);
      } else {
        var ink := [s[0]] + rest;
        assert Ink(s) == ink && ink[0] == s[0] && ink[1..] == rest;
        assert QuotedAfter(ink, quoted) == QuotedAfter(ink[1..], if ink[0] == '"' then !quoted else quoted);
      }
    }
  }

  lemma {:induction false} InkJoins(a: string, b: string)
    ensures Ink(a + b) == Ink(a) + Ink(b)
  {
    if a == "" {
      assert a + b == b;
    } else {
      assert (a + b)[1..] == a[1..] + b;
      InkJoins(a[1..], b);
    }
  }

  function Begun(open: string): seq<string> {
    if open == "" then [] else [open]
  }

  lemma SpaceHasNoInk(s: string)
    ensures Ink(" " + s) == Ink(s)
  {
    assert (" " + s)[1..] == s;
    assert Ink(" " + s) == "" + Ink(s);
  }

  lemma InkOfBegun(open: string, rest: seq<string>)
    ensures Ink(Join(Begun(open) + rest)) == Ink(open) + Ink(Join(rest))
  {
    hide IsSpace;
    if open == "" {
      assert Begun(open) + rest == rest;
    } else if rest == [] {
      assert Begun(open) + rest == [open];
      assert Ink(open) + "" == Ink(open);
    } else {
      var all := [open] + rest;
      var joined := Join(rest);
      assert all[1..] == rest && Join(all) == open + " " + joined;
      assert open + " " + joined == open + (" " + joined);
      InkJoins(open, " " + joined);
      SpaceHasNoInk(joined);
    }
  }

  /** One character of a split. */
  lemma SplitStep(open: string, s: string)
    requires s != ""
    ensures IsSpace(s[0]) ==> SplitFrom(open, s) == Begun(open) + SplitFrom("", s[1..]) && Ink(s) == Ink(s[1..])
    ensures !IsSpace(s[0]) ==> SplitFrom(open, s) == SplitFrom(open + [s[0]], s[1..])
  {
  }

  lemma {:induction false} InkOfSplit(open: string, s: string)
    ensures Ink(Join(SplitFrom(open, s))) == Ink(open + s)
    decreases |s|
  {
    hide IsSpace, Join, Begun, Ink;
    InkOfBegun(open, []);
    InkJoins(open, s);
    if s == "" {
      assert SplitFrom(open, s) == Begun(open) + [] by { SplitNothing(open); }
      assert Ink(Join([])) == "" && Ink("") == "" by { InkOfNothing(); }
    } else if IsSpace(s[0]) {
      SplitStep(open, s);
      InkOfSplit("", s[1..]);
      assert "" + s[1..] == s[1..];
      InkOfBegun(open, SplitFrom("", s[1..]));
    } else {
      SplitStep(open, s);
      InkOfSplit(open + [s[0]], s[1..]);
      assert open + [s[0]] + s[1..] == open + s;
    }
  }

  lemma SplitNothing(open: string)
    ensures SplitFrom(open, "") == Begun(open)
  {
  }

  lemma InkOfNothing()
    ensures Ink(Join([])) == "" && Ink("") == ""
  {
  }

  lemma CollapseKeepsMarks(s: string)
    ensures QuotedAfter(Collapse(s), false) == QuotedAfter(s, false) && (Clean(Collapse(s), false) <==> Clean(s, false))
  {
    InkOfSplit("", s);
    assert "" + s == s;
    InkDecides(s, false);
    InkDecides(Collapse(s), false);
  }

  // --- one line --------------------------------------------------------------------------------

  predicate SingleSpaced(s: string) {
    Collapse(s) == s
  }

  /** A line whose words are one space apart is its own logical line. */
  lemma OneLineIsItself(one: string)
    requires Clean(one, false) && SingleSpaced(one)
    ensures LogicalLines([one]) == if one == "" then [] else [one]
  {
    CleanIsPlain(one, false);
    StripOfCollapse(one);
    assert Content(one) == one;
    assert [one][1..] == [];
    assert [] + [one] == [one];
    assert Join([one]) == one;
    if one == "" {
      assert LogicalFrom([], 0, [one]) == LogicalFrom([], 0, []);
    } else {
      assert LogicalFrom([], 0, [one]) == [Joined([one])] + LogicalFrom([], 0, []);
    }
  }

  /** A line with a parenthesis inside quotes is kept as it is if and only if its words are one space
      apart: runs of whitespace collapse then, inside quotes too. */
  lemma QuotedParenCollapses(one: string)
    requires Clean(one, false) && Strip(one) == one && one != "" && '(' in one
    ensures LogicalLines([one]) == [Collapse(one)]
    ensures LogicalLines([one]) == [one] <==> SingleSpaced(one)
  {
    CleanIsPlain(one, false);
    assert Content(one) == one;
    assert [one][1..] == [];
    assert [] + [one] == [one];
    assert Join([one]) == one;
    assert LogicalFrom([], 0, [one]) == [Joined([one])] + LogicalFrom([], 0, []);
  }

  // --- a group of lines ------------------------------------------------------------------------

  /** The lines hold one logical line: parentheses stay open until the last of them. */
  predicate Closes(raws: Lines, depth: int)
    decreases |raws|
  {
    raws != [] &&
    var line := Content(raws[0]);
    if line == "" then Closes(raws[1..], depth)
    else
      var open := depth + Balance(line, false);
      if open > 0 then Closes(raws[1..], open) else |raws| == 1
  }

  function Contents(raws: Lines): Lines {
    if raws == [] then []
    else (if Content(raws[0]) == "" then [] else [Content(raws[0])]) + Contents(raws[1..])
  }

  lemma {:induction false} GroupIsOneLine(pending: Lines, depth: int, raws: Lines, rest: Lines)
    requires Closes(raws, depth)
    ensures LogicalFrom(pending, depth, raws + rest) == [Joined(pending + Contents(raws))] + LogicalLines(rest)
    decreases |raws|
  {
    hide Content, Joined, Balance;
    assert (raws + rest)[0] == raws[0] && (raws + rest)[1..] == raws[1..] + rest;
    var line := Content(raws[0]);
    if line == "" {
      GroupIsOneLine(pending, depth, raws[1..], rest);
      assert Contents(raws) == Contents(raws[1..]);
    } else {
      var open := depth + Balance(line, false);
      assert pending + [line] + Contents(raws[1..]) == pending + Contents(raws);
      if open > 0 {
        GroupIsOneLine(pending + [line], open, raws[1..], rest);
      } else {
        assert raws[1..] == [] && Contents(raws[1..]) == [];
        assert raws[1..] + rest == rest;
        assert pending + [line] == pending + Contents(raws);
      }
    }
  }

  /** The words of each line without its comment and parentheses. */
  function GroupWords(lines: Lines): seq<string> {
    if lines == [] then [] else Split(Dropped(lines[0], false)) + GroupWords(lines[1..])
  }

  predicate AllBalanced(lines: Lines) {
    forall i | 0 <= i < |lines| :: Balanced(lines[i])
  }

  /** The first line's part, a space, and the rest's. */
  lemma DroppedOfJoin(lines: Lines)
    requires |lines| > 1 && AllBalanced(lines)
    ensures Dropped(Join(lines), false) == Dropped(lines[0], false) + [' '] + Dropped(Join(lines[1..]), false)
  {
    hide Dropped, QuotedAfter;
    var first, rest := lines[0], Join(lines[1..]);
    assert Balanced(first);
    assert first + " " + rest == first + (" " + rest) && (" " + rest)[1..] == rest;
    DroppedJoins(first, " " + rest, false);
    DroppedStep(" " + rest, false);
  }

  lemma {:induction false} JoinedWords(lines: Lines)
    requires AllBalanced(lines)
    ensures Split(Dropped(Join(lines), false)) == GroupWords(lines)
    decreases |lines|
  {
    hide Dropped, QuotedAfter;
    if lines == [] {
      DroppedNothing(false);
    } else if |lines| == 1 {
      assert Split(Dropped(lines[0], false)) + GroupWords(lines[1..]) == Split(Dropped(lines[0], false));
    } else {
      assert AllBalanced(lines[1..]);
      JoinedWords(lines[1..]);
      DroppedOfJoin(lines);
      SplitAtSpace("", Dropped(lines[0], false), ' ', Dropped(Join(lines[1..]), false));
    }
  }

  lemma {:induction false} JoinedIsClean(lines: Lines)
    requires AllBalanced(lines) && forall i | 0 <= i < |lines| :: Clean(Dropped(lines[i], false), false)
    ensures Clean(Dropped(Join(lines), false), false)
    decreases |lines|
  {
    hide Dropped;
    if lines == [] {
      DroppedNothing(false);
    } else if |lines| > 1 {
      var a, b := Dropped(lines[0], false), Dropped(Join(lines[1..]), false);
      assert AllBalanced(lines[1..]) && Balanced(lines[0]);
      JoinedIsClean(lines[1..]);
      DroppedOfJoin(lines);
      DroppedKeepsQuotes(lines[0], false);
      CleanJoins(a, [' '] + b, false);
      assert a + [' '] + b == a + ([' '] + b) && ([' '] + b)[1..] == b;
    }
  }

  lemma {:induction false} DroppedKeepsQuotes(s: string, quoted: bool)
    ensures QuotedAfter(Dropped(s, quoted), quoted) == QuotedAfter(s, quoted)
  {
    if s != "" {
      var rest := Dropped(s[1..], if s[0] == '"' then !quoted else quoted);
      DroppedKeepsQuotes(s[1..], if s[0] == '"' then !quoted else quoted);
      if s[0] == '"' || quoted || (s[0] != '(' && s[0] != ')') {
        assert ([s[0]] + rest)[1..] == rest;
      } else {
        assert Dropped(s, quoted) == rest;
      }
    }
  }

  /** What is left of a line without comment and parentheses is clean. */
  lemma {:induction false} DroppedIsClean(s: string, quoted: bool)
    requires WithoutComment(s, quoted) == s
    ensures Clean(Dropped(s, quoted), quoted)
  {
    if s != "" {
      var after := if s[0] == '"' then !quoted else quoted;
      assert WithoutComment(s[1..], after) == s[1..] by {
        assert WithoutComment(s, quoted)[1..] == WithoutComment(s[1..], after);
      }
      DroppedIsClean(s[1..], after);
      var rest := Dropped(s[1..], after);
      if s[0] == '"' || quoted || (s[0] != '(' && s[0] != ')') {
        assert ([s[0]] + rest)[1..] == rest;
      } else {
        assert Dropped(s, quoted) == rest;
      }
    }
  }

  lemma {:induction false} NoCommentTwice(s: string, quoted: bool)
    ensures WithoutComment(WithoutComment(s, quoted), quoted) == WithoutComment(s, quoted)
  {
    if s != "" && !(s[0] == ';' && !quoted) {
      var after := if s[0] == '"' then !quoted else quoted;
      NoCommentTwice(s[1..], after);
      var rest := WithoutComment(s[1..], after);
      assert ([s[0]] + rest)[1..] == rest;
    }
  }

  /** A part of a text without comment has none, if it starts outside quotes. */
  lemma {:induction false} PrefixHasNoComment(a: string, b: string, quoted: bool)
    requires WithoutComment(a + b, quoted) == a + b
    ensures WithoutComment(a, quoted) == a
    ensures WithoutComment(b, QuotedAfter(a, quoted)) == b
  {
    if a == "" {
      assert a + b == b;
    } else {
      var after := if a[0] == '"' then !quoted else quoted;
      assert (a + b)[1..] == a[1..] + b;
      assert WithoutComment(a + b, quoted)[1..] == WithoutComment((a + b)[1..], after);
      PrefixHasNoComment(a[1..], b, after);
    }
  }

  lemma {:induction false} StripLeftHasNoComment(s: string)
    requires WithoutComment(s, false) == s
    ensures WithoutComment(StripLeft(s, SPACES), false) == StripLeft(s, SPACES)
    ensures QuotedAfter(StripLeft(s, SPACES), false) == QuotedAfter(s, false)
  {
    if s != "" && s[0] in SPACES {
      assert s == [s[0]] + s[1..];
      PrefixHasNoComment([s[0]], s[1..], false);
      assert QuotedAfter([s[0]], false) == QuotedAfter([s[0]][1..], false) == false;
      StripLeftHasNoComment(s[1..]);
    }
  }

  lemma {:induction false} StripRightKeepsQuotes(s: string)
    ensures QuotedAfter(StripRight(s, SPACES), false) == QuotedAfter(s, false)
  {
    if s != "" && s[|s| - 1] in SPACES {
      var front := s[..|s| - 1];
      StripRightKeepsQuotes(front);
      assert s == front + [s[|s| - 1]];
      QuotesJoin(front, [s[|s| - 1]], false);
      var q := QuotedAfter(front, false);
      assert QuotedAfter([s[|s| - 1]], q) == QuotedAfter([s[|s| - 1]][1..], q) == q;
    }
  }

  lemma ContentIs(raw: string)
    ensures WithoutComment(Content(raw), false) == Content(raw)
    ensures Clean(Dropped(Content(raw), false), false)
    ensures QuotedAfter(Content(raw), false) == QuotedAfter(WithoutComment(raw, false), false)
  {
    var s := WithoutComment(raw, false);
    NoCommentTwice(raw, false);
    StripLeftHasNoComment(s);
    var left := StripLeft(s, SPACES);
    StripRightIs(left, SPACES);
    StripRightKeepsQuotes(left);
    var n := |StripRight(left, SPACES)|;
    assert left == left[..n] + left[n..];
    PrefixHasNoComment(left[..n], left[n..], false);
    DroppedIsClean(Content(raw), false);
  }

  // --- main result ---------------------------------------------------------------------------

  predicate IsGroup(raws: Lines) {
    Closes(raws, 0) && AllBalanced(Contents(raws))
  }

  lemma {:induction false} ContentsAreClean(raws: Lines)
    ensures forall i | 0 <= i < |Contents(raws)| :: Clean(Dropped(Contents(raws)[i], false), false)
  {
    if raws != [] {
      ContentsAreClean(raws[1..]);
      ContentIs(raws[0]);
    }
  }

  /** The one-line form of a group that uses parentheses: its words one space apart. */
  lemma WrappedIsOneLine(raws: Lines)
    requires IsGroup(raws) && '(' in Join(Contents(raws))
    ensures var one := Join(GroupWords(Contents(raws)));
            && LogicalLines(raws) == [one]
            && Clean(one, false) && SingleSpaced(one)
            && LogicalLines([one]) == if one == "" then [] else [one]
  {
    hide Content, Clean, Dropped, Balance, IsSpace;
    var lines := Contents(raws);
    JoinedWords(lines);
    ContentsAreClean(raws);
    JoinedIsClean(lines);
    var dropped := Dropped(Join(lines), false);
    var one := Join(GroupWords(lines));
    assert one == Collapse(dropped);
    CollapseKeepsMarks(dropped);
    CollapseTwice(dropped);
    OneLineIsItself(one);
    assert raws + [] == raws;
    GroupIsOneLine([], 0, raws, []);
    assert [] + lines == lines;
  }

  /** The one-line form of any group. */
  function Flat(raws: Lines): string {
    var lines := Contents(raws);
    if '(' in Join(lines) then Join(GroupWords(lines)) else Join(lines)
  }

  /** A group without parentheses holds one line besides blank ones and comments. */
  lemma {:induction false} PlainGroup(raws: Lines)
    requires Closes(raws, 0) && '(' !in Join(Contents(raws))
    ensures |Contents(raws)| == 1
    decreases |raws|
  {
    hide Content;
    var line := Content(raws[0]);
    if line == "" {
      assert Contents(raws) == Contents(raws[1..]);
      PlainGroup(raws[1..]);
    } else {
      var more := Contents(raws[1..]);
      assert ([line] + more)[1..] == more;
      NoParenNoDepth(line, false);
      assert line <= Join([line] + more);
      assert Balance(line, false) <= 0;
      assert raws[1..] == [];
    }
  }

  lemma {:induction false} NoParenNoDepth(s: string, quoted: bool)
    ensures '(' !in s ==> Balance(s, quoted) <= 0
  {
    if s != "" {
      NoParenNoDepth(s[1..], if s[0] == '"' then !quoted else quoted);
    }
  }

  lemma FlatIsLogical(raws: Lines, rest: Lines)
    requires IsGroup(raws)
    ensures LogicalLines(raws + rest) == [Flat(raws)] + LogicalLines(rest)
    ensures LogicalLines([Flat(raws)] + rest) == (if Flat(raws) == "" then [] else [Flat(raws)]) + LogicalLines(rest)
  {
    hide Content, Clean, Dropped, Balance, IsSpace;
    var lines := Contents(raws);
    GroupIsOneLine([], 0, raws, rest);
    assert [] + lines == lines;
    if '(' in Join(lines) {
      WrappedIsOneLine(raws);
      GroupIsOneLine([], 0, raws, []);
      assert raws + [] == raws;
      LineThen(Flat(raws), rest);
    } else {
      PlainGroup(raws);
      assert lines == [lines[0]] && Join([lines[0]]) == lines[0];
      var raw := ContentOf(raws);
      PlainLineThen(raws, rest);
    }
  }

  lemma LineThen(one: string, rest: Lines)
    requires Clean(one, false) && SingleSpaced(one)
    ensures LogicalLines([one] + rest) == (if one == "" then [] else [one]) + LogicalLines(rest)
  {
    OneLineIsItself(one);
    CleanIsPlain(one, false);
    StripOfCollapse(one);
    assert Content(one) == one;
    assert ([one] + rest)[1..] == rest;
    assert [] + [one] == [one];
    assert Join([one]) == one;
    if one != "" {
      assert LogicalFrom([], 0, [one]) == [Joined([one])] + LogicalFrom([], 0, []);
    }
  }

  lemma PlainLineThen(raws: Lines, rest: Lines)
    requires Closes(raws, 0) && |Contents(raws)| == 1 && '(' !in Contents(raws)[0]
    ensures LogicalLines([Contents(raws)[0]] + rest) == [Contents(raws)[0]] + LogicalLines(rest)
  {
    var line := Contents(raws)[0];
    var raw := ContentOf(raws);
    ContentIs(raw);
    StripTwice(WithoutComment(raw, false));
    assert Content(line) == line;
    NoParenNoDepth(line, false);
    assert ([line] + rest)[1..] == rest;
    assert [] + [line] == [line];
    assert Join([line]) == line;
    assert LogicalFrom([], 0, [line] + rest) == [Joined([line])] + LogicalFrom([], 0, rest);
  }

  lemma {:induction false} ContentOf(raws: Lines) returns (raw: string)
    requires |Contents(raws)| > 0
    ensures Content(raw) == Contents(raws)[0] != ""
  {
    if Content(raws[0]) == "" {
      raw := ContentOf(raws[1..]);
    } else {
      raw := raws[0];
    }
  }

  function Concat(groups: seq<Lines>): Lines {
    if groups == [] then [] else groups[0] + Concat(groups[1..])
  }

  function FlatFile(groups: seq<Lines>): Lines {
    if groups == [] then [] else [Flat(groups[0])] + FlatFile(groups[1..])
  }

  lemma {:induction false} RecordsJoin(a: Lines, b: Lines)
    ensures Records(a + b) == Records(a) + Records(b)
  {
    hide RecordsIn;
    if a == [] {
      assert a + b == b;
    } else {
      assert (a + b)[0] == a[0] && (a + b)[1..] == a[1..] + b;
      RecordsJoin(a[1..], b);
    }
  }

  lemma NoRecordInNothing()
    ensures Records([""]) == []
  {
    assert FirstWord("") == "";
    assert ParseRecord("") == None;
    assert [""][1..] == [];
  }

  /** A zone file parses to the records of its one-line form: however its records' data is wrapped in
      parentheses over lines, and whatever comments and blank lines it holds. */
  lemma {:induction false} FileIsItsFlatForm(groups: seq<Lines>)
    requires forall i | 0 <= i < |groups| :: IsGroup(groups[i])
    ensures Records(LogicalLines(Concat(groups))) == Records(LogicalLines(FlatFile(groups)))
  {
    hide IsGroup, Flat, Records;
    if groups != [] {
      var flat, rest, flatRest := Flat(groups[0]), Concat(groups[1..]), FlatFile(groups[1..]);
      FileIsItsFlatForm(groups[1..]);
      FlatIsLogical(groups[0], rest);
      FlatIsLogical(groups[0], flatRest);
      RecordsJoin([flat], LogicalLines(rest));
      RecordsJoin(if flat == "" then [] else [flat], LogicalLines(flatRest));
      NoRecordInNothing();
      assert Records([]) == [] by { RecordsOfNone(); }
    }
  }

  lemma RecordsOfNone()
    ensures Records([]) == []
  {
  }

  // --- wrapping a record -------------------------------------------------------------------------

  /** A line's data and the comment that may follow it. */
  datatype Part = Part(data: string, comment: Option<string>)

  function Tail(comment: Option<string>): string {
    if comment.Some? then " ;" + comment.value else ""
  }

  function PartLines(parts: seq<Part>): Lines {
    if parts == [] then [] else [parts[0].data + Tail(parts[0].comment)] + PartLines(parts[1..])
  }

  /** The record with its data in parentheses over the lines of the parts. */
  function Wrap(head: Part, parts: seq<Part>, end: Part): Lines {
    [head.data + " (" + Tail(head.comment)] + PartLines(parts) + [end.data + " )" + Tail(end.comment)]
  }

  function DataWords(parts: seq<Part>): seq<string> {
    if parts == [] then [] else Split(parts[0].data) + DataWords(parts[1..])
  }

  predicate IsData(s: string) {
    Clean(s, false) && Balanced(s)
  }

  predicate AreParts(parts: seq<Part>) {
    forall i | 0 <= i < |parts| :: IsData(parts[i].data)
  }

  lemma TailGoes(data: string, comment: Option<string>)
    requires WithoutComment(data, false) == data && Balanced(data)
    ensures WithoutComment(data + Tail(comment), false) == data + (if comment.Some? then " " else "")
  {
    if comment.Some? {
      NoCommentJoins(data, " ;" + comment.value, false);
      var tail := " ;" + comment.value;
      assert tail[1..] == ";" + comment.value;
      assert WithoutComment(tail, false) == " " + WithoutComment(tail[1..], false);
      assert data + Tail(comment) == data + tail;
    } else {
      assert data + Tail(comment) == data;
    }
  }

  lemma {:induction false} NoCommentJoins(a: string, b: string, quoted: bool)
    requires WithoutComment(a, quoted) == a
    ensures WithoutComment(a + b, quoted) == a + WithoutComment(b, QuotedAfter(a, quoted))
  {
    if a == "" {
      assert a + b == b;
    } else {
      var after := if a[0] == '"' then !quoted else quoted;
      assert WithoutComment(a, quoted)[1..] == WithoutComment(a[1..], after);
      assert (a + b)[1..] == a[1..] + b;
      NoCommentJoins(a[1..], b, after);
    }
  }

  /** What a physical line gives: its words, its quotes and its parentheses. */
  lemma LineIs(text: string, comment: Option<string>)
    requires WithoutComment(text, false) == text && Balanced(text)
    ensures var line := Content(text + Tail(comment));
            && Balanced(line)
            && Balance(line, false) == Balance(text, false)
            && Split(Dropped(line, false)) == Split(Dropped(text, false))
  {
    TailGoes(text, comment);
    ContentIs(text + Tail(comment));
    var padded := text + (if comment.Some? then " " else "");
    if comment.Some? {
      QuotesJoin(text, " ", false);
      BalanceJoins(text, " ", false);
      DroppedJoins(text, " ", false);
      assert Dropped(" ", false) == " " && Balance(" ", false) == 0 && QuotedAfter(" ", false) == false by {
        assert " "[1..] == "";
      }
      SplitAtSpace("", Dropped(text, false), ' ', "");
      assert Dropped(text, false) + [' '] + "" == Dropped(text, false) + " ";
    } else {
      assert padded == text;
    }
    StripChangesNothing(padded);
  }

  lemma {:induction false} StripLeftChangesNothing(s: string)
    ensures Balance(StripLeft(s, SPACES), false) == Balance(s, false)
    ensures Split(Dropped(StripLeft(s, SPACES), false)) == Split(Dropped(s, false))
  {
    if s != "" && s[0] in SPACES {
      StripLeftChangesNothing(s[1..]);
      assert Dropped(s, false) == [s[0]] + Dropped(s[1..], false);
      assert Dropped(s, false)[1..] == Dropped(s[1..], false);
    }
  }

  lemma {:induction false} StripRightChangesNothing(s: string)
    ensures Balance(StripRight(s, SPACES), false) == Balance(s, false)
    ensures Split(Dropped(StripRight(s, SPACES), false)) == Split(Dropped(s, false))
  {
    if s != "" && s[|s| - 1] in SPACES {
      var front, c := s[..|s| - 1], s[|s| - 1];
      StripRightChangesNothing(front);
      assert s == front + [c];
      var q := QuotedAfter(front, false);
      BalanceJoins(front, [c], false);
      DroppedJoins(front, [c], false);
      assert [c][1..] == "";
      assert Dropped([c], q) == [c] && Balance([c], q) == 0;
      SplitAtSpace("", Dropped(front, false), c, "");
      assert Dropped(front, false) + [c] + "" == Dropped(front, false) + [c];
    }
  }

  lemma StripChangesNothing(s: string)
    ensures Balance(Strip(s), false) == Balance(s, false)
    ensures Split(Dropped(Strip(s), false)) == Split(Dropped(s, false))
  {
    StripLeftChangesNothing(s);
    StripRightChangesNothing(StripLeft(s, SPACES));
  }

  lemma ParenIs(c: char)
    requires c == '(' || c == ')'
    ensures var paren := [' ', c];
            && WithoutComment(paren, false) == paren && QuotedAfter(paren, false) == false
            && Balance(paren, false) == (if c == '(' then 1 else -1) && Dropped(paren, false) == " "
  {
    var paren := [' ', c];
    assert paren[1..] == [c] && [c][1..] == "";
    assert Dropped([c], false) == "" + Dropped([c][1..], false) && Dropped("", false) == "";
    assert WithoutComment([c], false) == [c] && Dropped([c], false) == "" && QuotedAfter([c], false) == false;
    assert Balance([c], false) == if c == '(' then 1 else -1;
  }

  lemma WithParen(data: string, paren: string)
    requires IsData(data) && (paren == " (" || paren == " )")
    ensures WithoutComment(data + paren, false) == data + paren && Balanced(data + paren)
    ensures Balance(data + paren, false) == if paren == " (" then 1 else -1
    ensures Split(Dropped(data + paren, false)) == Split(data)
  {
    CleanIsPlain(data, false);
    NoCommentJoins(data, paren, false);
    QuotesJoin(data, paren, false);
    BalanceJoins(data, paren, false);
    DroppedJoins(data, paren, false);
    ParenIs(paren[1]);
    assert paren == [' ', paren[1]];
    SplitAtSpace("", data, ' ', "");
    assert data + [' '] + "" == data + " ";
  }

  /** One more line before the ones that close the group. */
  lemma FirstLine(raw: string, rest: Lines, depth: int)
    requires Balanced(Content(raw)) && AllBalanced(Contents(rest))
    requires Closes(rest, depth + Balance(Content(raw), false)) && depth + Balance(Content(raw), false) > 0
    ensures Closes([raw] + rest, depth) && AllBalanced(Contents([raw] + rest))
    ensures GroupWords(Contents([raw] + rest)) == Split(Dropped(Content(raw), false)) + GroupWords(Contents(rest))
    ensures Content(raw) != "" ==> Contents([raw] + rest) == [Content(raw)] + Contents(rest)
  {
    hide Content, Dropped, Balance, QuotedAfter, Split;
    var raws, line, more := [raw] + rest, Content(raw), Contents(rest);
    assert raws[0] == raw && raws[1..] == rest;
    if line == "" {
      NoWords();
      assert Contents(raws) == more;
    } else {
      assert Contents(raws) == [line] + more && ([line] + more)[1..] == more;
    }
  }

  lemma LastLine(raw: string, depth: int)
    requires Balanced(Content(raw)) && Content(raw) != "" && depth + Balance(Content(raw), false) <= 0
    ensures Closes([raw], depth) && AllBalanced(Contents([raw]))
    ensures GroupWords(Contents([raw])) == Split(Dropped(Content(raw), false))
  {
    hide Content, Dropped, Balance, QuotedAfter, Split;
    var line := Content(raw);
    assert [raw][1..] == [] && Contents([raw]) == [line] + Contents([]);
    assert [line][1..] == [] && GroupWords([line]) == Split(Dropped(line, false)) + GroupWords([]);
  }

  /** Lines between the parentheses. */
  lemma {:induction false} PartsClose(parts: seq<Part>, end: Part)
    requires AreParts(parts) && IsData(end.data)
    ensures var raws := PartLines(parts) + [end.data + " )" + Tail(end.comment)];
            && Closes(raws, 1) && AllBalanced(Contents(raws))
            && GroupWords(Contents(raws)) == DataWords(parts) + Split(end.data)
    decreases |parts|
  {
    hide Content, Clean, Dropped, Balance, IsSpace, QuotedAfter, Closes, Contents, GroupWords, Split, AllBalanced;
    var last := end.data + " )" + Tail(end.comment);
    if parts == [] {
      assert PartLines(parts) + [last] == [last];
      WithParen(end.data, " )");
      LineIs(end.data + " )", end.comment);
      NonEmptyLine(Content(last));
      LastLine(last, 1);
    } else {
      var part := parts[0];
      var raw := part.data + Tail(part.comment);
      var rest := PartLines(parts[1..]) + [last];
      assert PartLines(parts) + [last] == [raw] + rest;
      assert AreParts(parts[1..]) && IsData(part.data);
      PartsClose(parts[1..], end);
      CleanIsPlain(part.data, false);
      LineIs(part.data, part.comment);
      FirstLine(raw, rest, 1);
    }
  }

  lemma NoWords()
    ensures Split(Dropped("", false)) == [] && Balance("", false) == 0
  {
  }

  lemma NonEmptyLine(line: string)
    requires Balance(line, false) != 0
    ensures line != ""
  {
  }

  /** Wrapping a record's data in parentheses over any number of lines, with comments after any of them,
      parses to the same records as the line with the same words. */
  lemma WrappingIsInvisible(head: Part, parts: seq<Part>, end: Part, one: string)
    requires IsData(head.data) && AreParts(parts) && IsData(end.data)
    requires SingleSpaced(one) && Split(one) == Split(head.data) + DataWords(parts) + Split(end.data)
    ensures Records(LogicalLines(Wrap(head, parts, end))) == Records(LogicalLines([one]))
  {
    hide Content, Clean, Dropped, Balance, IsSpace, QuotedAfter, Records, Closes, Contents, GroupWords, Split,
        AllBalanced;
    var raws := Wrap(head, parts, end);
    var first := head.data + " (" + Tail(head.comment);
    var rest := PartLines(parts) + [end.data + " )" + Tail(end.comment)];
    assert raws == [first] + rest;
    WithParen(head.data, " (");
    LineIs(head.data + " (", head.comment);
    PartsClose(parts, end);
    FirstLine(first, rest, 0);
    var line := Content(first);
    NonEmptyLine(line);
    NoParenNoDepth(line, false);
    assert ([line] + Contents(rest))[0] == line;
    assert line <= Join([line] + Contents(rest));
    assert '(' in Join(Contents(raws));
    WrappedIsOneLine(raws);
    assert Join(Split(one)) == one;
    assert GroupWords(Contents(raws)) == Split(one);
    NoRecordInNothing();
    RecordsOfNone();
  }

  // --- reading a record back -------------------------------------------------------------------

  lemma {:induction false} WordsApart(word: string, rest: string)
    requires (forall i | 0 <= i < |word| :: !IsSpace(word[i])) && rest != "" && !IsSpace(rest[0])
    ensures FirstWord(word + " " + rest) == word && AfterWord(word + " " + rest) == Some(rest)
  {
    var line := word + " " + rest;
    if word == "" {
      assert line[0] == ' ' && line[1..] == rest;
      assert StripLeft(line, SPACES) == StripLeft(rest, SPACES);
    } else {
      assert line[0] == word[0] && line[1..] == word[1..] + " " + rest;
      WordsApart(word[1..], rest);
      assert [word[0]] + word[1..] == word;
    }
  }

  predicate IsRecord(record: ZoneRecord) {
    && IsWord(record.name) && record.name[|record.name| - 1] != '.' && Lower(record.name) == record.name
    && IsUpper(record.kind)
    && record.rdata != "" && Strip(record.rdata) == record.rdata
  }

  /** A record as a line of a zone file, its name absolute, its TTL and class there or not. */
  function Written(record: ZoneRecord, withClass: bool): string {
    record.name + ". " + (if record.ttl.Some? then IndexedList.Decimal(record.ttl.value) + " " else "")
    + (if withClass then "IN " else "") + record.kind + " " + record.rdata
  }

  lemma MatchKind(record: ZoneRecord, withClass: bool)
    requires IsRecord(record) && (withClass || record.kind != "IN")
    ensures var s := (if withClass then "IN " else "") + record.kind + " " + record.rdata;
            MatchClass(s) == Some((record.kind, record.rdata)) && s != "" && 'A' <= s[0] <= 'Z'
  {
    var tail := record.kind + " " + record.rdata;
    StripLeftIs(record.rdata, SPACES);
    StrippedStart(record.rdata);
    WordsApart(record.kind, record.rdata);
    assert MatchType(tail) == Some((record.kind, record.rdata));
    if withClass {
      WordsApart("IN", tail);
      assert "IN " + record.kind + " " + record.rdata == "IN" + " " + tail;
    } else {
      assert "" + record.kind + " " + record.rdata == tail;
    }
  }

  lemma StrippedStart(s: string)
    requires s != "" && Strip(s) == s
    ensures !IsSpace(s[0])
  {
    var left := StripLeft(s, SPACES);
    StripLeftIs(s, SPACES);
    StripRightIs(left, SPACES);
    assert s[0] == left[0];
  }

  lemma {:induction false} DecimalIsDigits(n: nat)
    ensures forall i | 0 <= i < |IndexedList.Decimal(n)| :: '0' <= IndexedList.Decimal(n)[i] <= '9'
  {
    if n >= 10 {
      DecimalIsDigits(n / 10);
    }
  }

  lemma NoNumber(word: string)
    requires word != "" ==> !('0' <= word[0] <= '9')
    ensures IndexedList.ParseInt(word).None?
  {
    if word != "" {
      StartsNoNumber(word);
    }
  }

  lemma {:induction false} StartsNoNumber(word: string)
    requires word != "" && !('0' <= word[0] <= '9')
    ensures IndexedList.ParseInt(word).None?
  {
    if |word| > 1 {
      StartsNoNumber(word[..|word| - 1]);
    }
  }

  lemma NameReads(name: string)
    requires IsWord(name) && name[|name| - 1] != '.' && Lower(name) == name
    ensures Lower(StripRight(name + ".", {'.'})) == name
  {
    assert (name + ".")[..|name|] == name;
    assert StripRight(name, {'.'}) == name;
  }

  lemma ParseWithTtl(name: string, ttl: string, tail: string)
    requires IsWord(name) && IsWord(ttl) && IndexedList.ParseInt(ttl).Some?
    requires tail != "" && !IsSpace(tail[0]) && MatchClass(tail).Some?
    ensures ParseRecord(name + " " + (ttl + " " + tail)) ==
            Some(RecordOf(name, IndexedList.ParseInt(ttl), MatchClass(tail).value))
  {
    hide MatchClass, RecordOf, IndexedList.ParseInt;
    WordsApart(ttl, tail);
    WordsApart(name, ttl + " " + tail);
  }

  lemma ParseWithoutTtl(name: string, tail: string)
    requires IsWord(name) && tail != "" && 'A' <= tail[0] <= 'Z' && MatchClass(tail).Some?
    ensures ParseRecord(name + " " + tail) == Some(RecordOf(name, None, MatchClass(tail).value))
  {
    hide MatchClass, RecordOf, IndexedList.ParseInt;
    WordsApart(name, tail);
    NoNumber(FirstWord(tail));
  }

  /** A record's line parses to the record, with or without its TTL and its class. */
  lemma RecordReadsBack(record: ZoneRecord, withClass: bool)
    requires IsRecord(record) && (withClass || record.kind != "IN")
    ensures ParseRecord(Written(record, withClass)) == Some(record)
  {
    hide MatchClass, IsUpper, Strip, Lower, StripRight, ParseRecord, IndexedList.ParseInt, IndexedList.Decimal;
    var tail := (if withClass then "IN " else "") + record.kind + " " + record.rdata;
    MatchKind(record, withClass);
    NameReads(record.name);
    var name := record.name + ".";
    if record.ttl.Some? {
      var ttl := IndexedList.Decimal(record.ttl.value);
      DecimalIsDigits(record.ttl.value);
      IndexedList.ParseOfDecimal(record.ttl.value);
      ParseWithTtl(name, ttl, tail);
      assert Written(record, withClass) == name + " " + (ttl + " " + tail);
    } else {
      ParseWithoutTtl(name, tail);
      assert Written(record, withClass) == name + " " + tail;
    }
  }
}
