/** Python's string methods the other modules use, over plain ASCII text. */
module Strings {

  function LowerChar(c: char): char {
    if 'A' <= c <= 'Z' then (c as int - 'A' as int + 'a' as int) as char else c
  }

  function Lower(s: string): string {
    seq(|s|, i requires 0 <= i < |s| => LowerChar(s[i]))
  }

  function StripLeft(s: string, chars: set<char>): string {
    if s != "" && s[0] in chars then StripLeft(s[1..], chars) else s
  }

  function StripRight(s: string, chars: set<char>): string {
    if s != "" && s[|s| - 1] in chars then StripRight(s[..|s| - 1], chars) else s
  }

  const SPACES: set<char> := {' ', '\t', '\n', '\r'}

  function Strip(s: string): string {
    StripRight(StripLeft(s, SPACES), SPACES)
  }

  /** `" ".join(words)` */
  function Join(words: seq<string>): string {
    if words == [] then ""
    else if |words| == 1 then words[0]
    else words[0] + " " + Join(words[1..])
  }

  lemma {:induction false} StripRightIs(s: string, chars: set<char>)
    ensures var r := StripRight(s, chars); |r| <= |s| && r == s[..|r|] && (r != "" ==> r[|r| - 1] !in chars)
  {
    if s != "" && s[|s| - 1] in chars {
      StripRightIs(s[..|s| - 1], chars);
    }
  }

  lemma {:induction false} StripLeftIs(s: string, chars: set<char>)
    ensures var r := StripLeft(s, chars); r != "" ==> r[0] !in chars
  {
    if s != "" && s[0] in chars {
      StripLeftIs(s[1..], chars);
    }
  }

  lemma StripTwice(s: string)
    ensures Strip(Strip(s)) == Strip(s)
  {
    StripLeftIs(s, SPACES);
    StripRightIs(StripLeft(s, SPACES), SPACES);
  }

  // --- split() -------------------------------------------------------------------------------

  predicate IsSpace(c: char) {
    c in SPACES
  }

  /** The words between runs of whitespace; `open` is the word being read. */
  function SplitFrom(open: string, s: string): seq<string>
    decreases |s|
  {
    if s == "" then (if open == "" then [] else [open])
    else if IsSpace(s[0]) then (if open == "" then [] else [open]) + SplitFrom("", s[1..])
    else SplitFrom(open + [s[0]], s[1..])
  }

  function Split(s: string): seq<string> {
    SplitFrom("", s)
  }

  predicate IsWord(word: string) {
    word != "" && forall i | 0 <= i < |word| :: !IsSpace(word[i])
  }

  predicate AreWords(words: seq<string>) {
    forall i | 0 <= i < |words| :: IsWord(words[i])
  }

  /** Nothing but single spaces between words. */
  function Collapse(s: string): string {
    Join(Split(s))
  }

  lemma {:induction false} SplitIsWords(open: string, s: string)
    requires open == "" || IsWord(open)
    ensures AreWords(SplitFrom(open, s))
    decreases |s|
  {
    if s != "" {
      if IsSpace(s[0]) {
        SplitIsWords("", s[1..]);
      } else {
        SplitIsWords(open + [s[0]], s[1..]);
      }
    }
  }

  /** A space ends a word whatever follows. */
  lemma {:induction false} SplitAtSpace(open: string, a: string, c: char, b: string)
    requires IsSpace(c)
    ensures SplitFrom(open, a + [c] + b) == SplitFrom(open, a) + Split(b)
    decreases |a|
  {
    hide IsSpace;
    var whole := a + [c] + b;
    if a == "" {
      assert whole[0] == c && whole[1..] == b;
    } else {
      assert whole[0] == a[0] && whole[1..] == a[1..] + [c] + b;
      if IsSpace(a[0]) {
        SplitAtSpace("", a[1..], c, b);
      } else {
        SplitAtSpace(open + [a[0]], a[1..], c, b);
      }
    }
  }

  lemma {:induction false} SplitWord(open: string, word: string)
    requires forall i | 0 <= i < |word| :: !IsSpace(word[i])
    ensures SplitFrom(open, word) == if open + word == "" then [] else [open + word]
    decreases |word|
  {
    if word != "" {
      SplitWord(open + [word[0]], word[1..]);
      assert open + [word[0]] + word[1..] == open + word;
    } else {
      assert open + word == open;
    }
  }

  lemma {:induction false} SplitOfJoin(words: seq<string>)
    requires AreWords(words)
    ensures Split(Join(words)) == words
  {
    if |words| == 1 {
      SplitWord("", words[0]);
      assert "" + words[0] == words[0];
    } else if words != [] {
      SplitOfJoin(words[1..]);
      SplitAtSpace("", words[0], ' ', Join(words[1..]));
      SplitWord("", words[0]);
      assert "" + words[0] == words[0];
      assert words == [words[0]] + words[1..];
    }
  }

  lemma CollapseTwice(s: string)
    ensures Collapse(Collapse(s)) == Collapse(s)
    ensures Split(Collapse(s)) == Split(s)
  {
    SplitIsWords("", s);
    SplitOfJoin(Split(s));
  }

  /** A join of words starts and ends with one, so there is nothing to strip. */
  lemma {:induction false} JoinEnds(words: seq<string>)
    requires AreWords(words) && words != []
    ensures var s := Join(words); s != "" && !IsSpace(s[0]) && !IsSpace(s[|s| - 1])
  {
    assert IsWord(words[0]);
    if |words| > 1 {
      assert AreWords(words[1..]);
      JoinEnds(words[1..]);
    }
  }

  lemma StripOfCollapse(s: string)
    ensures Strip(Collapse(s)) == Collapse(s)
  {
    SplitIsWords("", s);
    if Split(s) != [] {
      JoinEnds(Split(s));
    }
  }

  // --- what they mean --------------------------------------------------------------------------

  predicate IsBlank(c: char) {
    c == ' ' || c == '\t' || c == '\n' || c == '\r'
  }

  predicate AreBlank(s: string) {
    forall i | 0 <= i < |s| :: IsBlank(s[i])
  }

  /** Stripping takes the whitespace at both ends and nothing else. */
  lemma StripMeans(s: string) returns (before: string, after: string)
    ensures s == before + Strip(s) + after && AreBlank(before) && AreBlank(after)
    ensures Strip(s) != "" ==> !IsBlank(Strip(s)[0]) && !IsBlank(Strip(s)[|Strip(s)| - 1])
  {
    hide StripLeft, StripRight;
    before := StripLeftTakes(s, SPACES);
    var left := StripLeft(s, SPACES);
    after := StripRightTakes(left, SPACES);
    StripLeftIs(s, SPACES);
    StripRightIs(left, SPACES);
    BlanksAre(before);
    BlanksAre(after);
    if Strip(s) != "" {
      assert Strip(s)[0] == left[0];
      assert Strip(s)[0] !in SPACES && Strip(s)[|Strip(s)| - 1] !in SPACES;
    }
  }

  lemma BlanksAre(s: string)
    requires forall i | 0 <= i < |s| :: s[i] in SPACES
    ensures AreBlank(s)
  {
  }

  lemma {:induction false} StripLeftTakes(s: string, chars: set<char>) returns (taken: string)
    ensures s == taken + StripLeft(s, chars) && forall i | 0 <= i < |taken| :: taken[i] in chars
  {
    if s != "" && s[0] in chars {
      taken := StripLeftTakes(s[1..], chars);
      taken := [s[0]] + taken;
    } else {
      taken := "";
    }
  }

  lemma {:induction false} StripRightTakes(s: string, chars: set<char>) returns (taken: string)
    ensures s == StripRight(s, chars) + taken && forall i | 0 <= i < |taken| :: taken[i] in chars
  {
    if s != "" && s[|s| - 1] in chars {
      taken := StripRightTakes(s[..|s| - 1], chars);
      taken := taken + [s[|s| - 1]];
    } else {
      taken := "";
    }
  }

  /** The capital letters become small ones, in their places. */
  lemma LowerMeans(s: string, i: nat)
    requires i < |s|
    ensures |Lower(s)| == |s|
    ensures Lower(s)[i] as int == if 'A' <= s[i] <= 'Z' then s[i] as int + 32 else s[i] as int
  {
  }

  lemma LowerTwice(s: string)
    ensures Lower(Lower(s)) == Lower(s)
  {
  }

  lemma StripRightOne(s: string, c: char, chars: set<char>)
    ensures StripRight(s + [c], chars) == if c in chars then StripRight(s, chars) else s + [c]
  {
    assert (s + [c])[..|s|] == s;
  }

  lemma {:induction false} StripLeftOne(s: string, c: char, chars: set<char>)
    ensures StripLeft(s + [c], chars) ==
            if StripLeft(s, chars) != "" then StripLeft(s, chars) + [c] else if c in chars then "" else [c]
  {
    if s == "" {
      assert s + [c] == [c] && [c][1..] == "";
    } else {
      assert (s + [c])[0] == s[0] && (s + [c])[1..] == s[1..] + [c];
      if s[0] in chars {
        StripLeftOne(s[1..], c, chars);
      }
    }
  }

  /** Stripping characters that are no letters does not see the case. */
  lemma {:induction false} StripLeftLower(s: string, chars: set<char>)
    requires forall c: char :: LowerChar(c) in chars <==> c in chars
    ensures StripLeft(Lower(s), chars) == Lower(StripLeft(s, chars))
  {
    if s != "" && s[0] in chars {
      assert Lower(s)[1..] == Lower(s[1..]);
      StripLeftLower(s[1..], chars);
    }
  }

  lemma {:induction false} StripRightLower(s: string, chars: set<char>)
    requires forall c: char :: LowerChar(c) in chars <==> c in chars
    ensures StripRight(Lower(s), chars) == Lower(StripRight(s, chars))
  {
    if s != "" && s[|s| - 1] in chars {
      assert Lower(s)[..|s| - 1] == Lower(s[..|s| - 1]);
      StripRightLower(s[..|s| - 1], chars);
    }
  }

  lemma StripRightNone(s: string, chars: set<char>)
    requires s == "" || s[|s| - 1] !in chars
    ensures StripRight(s, chars) == s
  {
  }

  lemma StripNone(s: string)
    requires s == "" || (!IsBlank(s[0]) && !IsBlank(s[|s| - 1]))
    ensures Strip(s) == s
  {
  }
}
