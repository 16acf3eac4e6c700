/** Zone files: physical lines joined into logical ones, and the records they hold. */
module Zone {
  import opened Wrappers
  import opened Strings
  import IndexedList

  // --- characters outside quotes -----------------------------------------------------------------

  function QuotedAfter(s: string, quoted: bool): bool {
    if s == "" then quoted else QuotedAfter(s[1..], if s[0] == '"' then !quoted else quoted)
  }

  /** `_strip_comment`, from a place where `quoted` says whether a string is open. */
  function WithoutComment(s: string, quoted: bool): string {
    if s == "" || (s[0] == ';' && !quoted) then ""
    else [s[0]] + WithoutComment(s[1..], if s[0] == '"' then !quoted else quoted)
  }

  function Balance(s: string, quoted: bool): int {
    if s == "" then 0
    else
      (if quoted then 0 else if s[0] == '(' then 1 else if s[0] == ')' then -1 else 0)
      + Balance(s[1..], if s[0] == '"' then !quoted else quoted)
  }

  /** `_drop_parens` before its whitespace is collapsed. */
  function Dropped(s: string, quoted: bool): string {
    if s == "" then ""
    else if s[0] == '"' then [s[0]] + Dropped(s[1..], !quoted)
    else (if !quoted && (s[0] == '(' || s[0] == ')') then "" else [s[0]]) + Dropped(s[1..], quoted)
  }

  method StripComment(line: string) returns (content: string)
    ensures content == WithoutComment(line, false)
  {
    hide WithoutComment;
    var quoted := false;
    assert line[..0] == "" && line[0..] == line;
    for i := 0 to |line|
      invariant line[..i] + WithoutComment(line[i..], quoted) == WithoutComment(line, false)
    {
      CommentFurther(line, i, quoted);
      if line[i] == '"' {
        quoted := !quoted;
      } else if line[i] == ';' && !quoted {
        return line[..i];
      }
    }
    assert WithoutComment(line[|line|..], quoted) == "" by { NoComment(line[|line|..], quoted); }
    assert line[..|line|] == line;
    content := line;
  }

  lemma CommentFurther(line: string, i: nat, quoted: bool)
    requires i < |line|
    ensures line[..i] + WithoutComment(line[i..], quoted) ==
            if line[i] == ';' && !quoted then line[..i]
            else line[..i + 1] + WithoutComment(line[i + 1..], if line[i] == '"' then !quoted else quoted)
  {
    var rest := WithoutComment(line[i + 1..], if line[i] == '"' then !quoted else quoted);
    assert line[i..][0] == line[i] && line[i..][1..] == line[i + 1..];
    assert line[..i + 1] + rest == line[..i] + ([line[i]] + rest);
  }

  lemma NoComment(rest: string, quoted: bool)
    requires rest == ""
    ensures WithoutComment(rest, quoted) == ""
  {
  }

  method ParenBalance(line: string) returns (balance: int)
    ensures balance == Balance(line, false)
  {
    balance := 0;
    var quoted := false;
    for i := 0 to |line|
      invariant balance + Balance(line[i..], quoted) == Balance(line, false)
    {
      assert line[i..][0] == line[i] && line[i..][1..] == line[i + 1..];
      if line[i] == '"' {
        quoted := !quoted;
      } else if !quoted && line[i] == '(' {
        balance := balance + 1;
      } else if !quoted && line[i] == ')' {
        balance := balance - 1;
      }
    }
  }

  method DropParens(line: string) returns (r: string)
    ensures r == Collapse(Dropped(line, false))
  {
    hide Collapse, Dropped;
    NothingDropped(line);
    var out := "";
    var quoted := false;
    for i := 0 to |line|
      invariant out + Dropped(line[i..], quoted) == Dropped(line, false)
    {
      DropOne(line, i, quoted);
      if line[i] == '"' {
        quoted := !quoted;
      }
      if quoted || line[i] !in "()" {
        out := out + [line[i]];
      }
    }
    NothingLeft(line, quoted);
    assert out + "" == out;
    r := Collapse(out);
  }

  /** One character of `_drop_parens`: the quote is toggled first. */
  lemma DropOne(line: string, i: nat, quoted: bool)
    requires i < |line|
    ensures var after := if line[i] == '"' then !quoted else quoted;
            Dropped(line[i..], quoted) ==
            (if after || line[i] !in "()" then [line[i]] else []) + Dropped(line[i + 1..], after)
  {
    assert line[i..][0] == line[i] && line[i..][1..] == line[i + 1..];
    assert line[i] in "()" <==> line[i] == '(' || line[i] == ')';
  }

  lemma NothingDropped(line: string)
    ensures line[0..] == line && "" + Dropped(line, false) == Dropped(line, false)
  {
  }

  lemma NothingLeft(line: string, quoted: bool)
    ensures Dropped(line[|line|..], quoted) == ""
  {
  }

  // --- logical lines ---------------------------------------------------------------------------

  type Lines = seq<string>

  function Content(raw: string): string {
    Strip(WithoutComment(raw, false))
  }

  function Joined(pending: Lines): string {
    var joined := Join(pending);
    if '(' in joined then Collapse(Dropped(joined, false)) else joined
  }

  /** The logical lines of what follows; lines are pending while parentheses are open. */
  function LogicalFrom(pending: Lines, depth: int, raws: Lines): Lines
    decreases |raws|
  {
    if raws == [] then []
    else
      var line := Content(raws[0]);
      if line == "" then LogicalFrom(pending, depth, raws[1..])
      else
        var open := depth + Balance(line, false);
        if open > 0 then LogicalFrom(pending + [line], open, raws[1..])
        else [Joined(pending + [line])] + LogicalFrom([], 0, raws[1..])
  }

  function LogicalLines(raws: Lines): Lines {
    LogicalFrom([], 0, raws)
  }

  method ReadLogicalLines(raws: Lines) returns (logical: Lines)
    ensures logical == LogicalLines(raws)
  {
    logical := [];
    var pending: Lines := [];
    var depth := 0;
    for i := 0 to |raws|
      invariant logical + LogicalFrom(pending, depth, raws[i..]) == LogicalLines(raws)
    {
      assert raws[i..][0] == raws[i] && raws[i..][1..] == raws[i + 1..];
      var content := StripComment(raws[i]);
      var line := Strip(content);
      if line != "" {
        var balance := ParenBalance(line);
        depth := depth + balance;
        pending := pending + [line];
        if depth <= 0 {
          var joined := Join(pending);
          if '(' in joined {
            joined := DropParens(joined);
          }
          pending, depth := [], 0;
          logical := logical + [joined];
        }
      }
    }
  }

  // --- records -------------------------------------------------------------------------------

  datatype ZoneRecord = ZoneRecord(name: string, ttl: Option<nat>, kind: string, rdata: string)

  /** The characters up to the first whitespace. */
  function FirstWord(s: string): string {
    if s == "" || IsSpace(s[0]) then "" else [s[0]] + FirstWord(s[1..])
  }

  /** What follows the first word and the whitespace after it; None without such whitespace. */
  function AfterWord(s: string): Option<string> {
    if s == "" then None
    else if IsSpace(s[0]) then Some(StripLeft(s, SPACES))
    else AfterWord(s[1..])
  }

  predicate IsUpper(word: string) {
    word != "" && forall i | 0 <= i < |word| :: 'A' <= word[i] <= 'Z'
  }

  /** The pattern from the type on. */
  function MatchType(s: string): Option<(string, string)> {
    var rest := AfterWord(s);
    if IsUpper(FirstWord(s)) && rest.Some? && rest.value != "" then Some((FirstWord(s), rest.value)) else None
  }

  /** The pattern from the optional class on: without it when the rest does not match with it. */
  function MatchClass(s: string): Option<(string, string)> {
    var rest := AfterWord(s);
    if FirstWord(s) == "IN" && rest.Some? && MatchType(rest.value).Some? then MatchType(rest.value) else MatchType(s)
  }

  function ParseRecord(line: string): Option<ZoneRecord> {
    var name, rest := FirstWord(line), AfterWord(line);
    if name == "" || rest.None? then None
    else
      var first, after := FirstWord(rest.value), AfterWord(rest.value);
      var ttl := IndexedList.ParseInt(first);
      if ttl.Some? && after.Some? && MatchClass(after.value).Some? then
        Some(RecordOf(name, ttl, MatchClass(after.value).value))
      else
        var found := MatchClass(rest.value);
        if found.Some? then Some(RecordOf(name, None, found.value)) else None
  }

  function RecordOf(name: string, ttl: Option<nat>, found: (string, string)): ZoneRecord {
    ZoneRecord(Lower(StripRight(name, {'.'})), ttl, found.0, Strip(found.1))
  }

  /** `parse_zone_file`'s loop over the logical lines; a directive or a line that does not match is skipped. */
  function Records(logical: Lines): seq<ZoneRecord> {
    if logical == [] then [] else RecordsIn(logical[0]) + Records(logical[1..])
  }

  function RecordsIn(line: string): seq<ZoneRecord> {
    var found := if line != "" && line[0] == '$' then None else ParseRecord(line);
    if found.Some? then [found.value] else []
  }

  method ParseZoneFile(raws: Lines) returns (records: seq<ZoneRecord>)
    ensures records == Records(LogicalLines(raws))
  {
    hide ParseRecord, LogicalLines;
    var logical := ReadLogicalLines(raws);
    records := [];
    for i := 0 to |logical|
      invariant records + Records(logical[i..]) == Records(logical)
    {
      var line := logical[i];
      assert logical[i..][0] == line && logical[i..][1..] == logical[i + 1..];
      assert records + Records(logical[i..]) == records + RecordsIn(line) + Records(logical[i + 1..]);
      ghost var before := records;
      if line == "" || line[0] != '$' {
        var found := ParseRecord(line);
        if found.Some? {
          records := records + [found.value];
        }
      }
      assert records == before + RecordsIn(line);
    }
    assert logical[|logical|..] == [];
  }
}
