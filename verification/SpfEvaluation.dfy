/** What a receiver makes of the SPF texts: `check_host` of RFC 7208, sections 4.6, 5.1 and 5.2, for the
    mechanisms the texts use. */
module SpfEvaluation {
  import opened Wrappers
  import opened IndexedList
  import opened Spf
  import Strings

  // --- evaluation ----------------------------------------------------------------------------

  /** The words of a text, split at each space. */
  function Words(text: string): (words: seq<string>)
    ensures words != []
  {
    if text == "" then [""]
    else
      var rest := Words(text[1..]);
      if text[0] == ' ' then [""] + rest else [[text[0]] + rest[0]] + rest[1..]
  }

  /** The SPF texts published at each host. */
  type Zone = map<string, seq<string>>

  datatype Verdict = Pass | Fail | Neutral | PermError

  /** The verdict, and how many of the lookups section 4.6.4 allows are left. */
  datatype Outcome = Outcome(verdict: Verdict, left: nat)

  /** Terms that cause lookups: at most ten in one evaluation, nested ones included. */
  const LOOKUP_LIMIT: nat := 10

  predicate StartsWith(word: string, prefix: string) {
    |prefix| <= |word| && word[..|prefix|] == prefix
  }

  /** An IPv4 or an IPv6 address, by its text. */
  predicate Names(term: string, address: string) {
    |term| >= 4 && term[4..] == address && term[..4] == if ':' in address then "ip6:" else "ip4:"
  }

  lemma NamesIs(term: string, address: string)
    ensures Names(term, address) <==> term == Mechanism(address)
  {
    if Names(term, address) {
      assert term == term[..4] + term[4..];
    }
  }

  function CheckHost(zone: Zone, host: string, address: string, left: nat): (outcome: Outcome)
    ensures outcome.left <= left
    decreases left, 1, 0
  {
    if host !in zone || |zone[host]| != 1 then Outcome(PermError, left)
    else
      var words := Words(zone[host][0]);
      if words[0] != "v=spf1" then Outcome(PermError, left) else CheckTerms(zone, words[1..], address, left)
  }

  function CheckTerms(zone: Zone, terms: seq<string>, address: string, left: nat): (outcome: Outcome)
    ensures outcome.left <= left
    decreases left, 0, |terms|
  {
    if terms == [] then Outcome(Neutral, left)
    else if terms[0] == "-all" then Outcome(Fail, left)
    else if StartsWith(terms[0], "include:") then
      if left == 0 then Outcome(PermError, left)
      else
        var included := CheckHost(zone, terms[0][8..], address, left - 1);
        if included.verdict == Pass || included.verdict == PermError then included
        else CheckTerms(zone, terms[1..], address, included.left)
    else if StartsWith(terms[0], "ip4:") || StartsWith(terms[0], "ip6:") then
      if Names(terms[0], address) then Outcome(Pass, left) else CheckTerms(zone, terms[1..], address, left)
    else Outcome(PermError, left)
  }

  // --- words of a text -------------------------------------------------------------------------

  predicate IsWord(word: string) {
    ' ' !in word
  }

  predicate AreWords(words: seq<string>) {
    forall i | 0 <= i < |words| :: IsWord(words[i])
  }

  lemma {:induction false} WordsOfWord(word: string)
    requires IsWord(word)
    ensures Words(word) == [word]
  {
    if word != "" {
      WordsOfWord(word[1..]);
      assert [word[0]] + word[1..] == word;
    }
  }

  lemma {:induction false} WordsAfterSpace(word: string, text: string)
    requires IsWord(word)
    ensures Words(word + " " + text) == [word] + Words(text)
  {
    var whole := word + " " + text;
    if word == "" {
      assert whole[1..] == text;
    } else {
      assert whole[1..] == word[1..] + " " + text;
      WordsAfterSpace(word[1..], text);
      assert [word[0]] + word[1..] == word;
    }
  }

  lemma {:induction false} WordsOfJoin(words: seq<string>)
    requires words != [] && AreWords(words)
    ensures Words(Strings.Join(words)) == words
  {
    if |words| == 1 {
      WordsOfWord(words[0]);
    } else {
      WordsOfJoin(words[1..]);
      WordsAfterSpace(words[0], Strings.Join(words[1..]));
      assert words == [words[0]] + words[1..];
    }
  }

  lemma CheckText(zone: Zone, host: string, mechanisms: seq<string>, address: string, left: nat)
    requires AreWords(mechanisms) && host in zone && zone[host] == [Text(mechanisms)]
    ensures CheckHost(zone, host, address, left) == CheckTerms(zone, mechanisms + ["-all"], address, left)
  {
    var words := ["v=spf1"] + mechanisms + ["-all"];
    forall i | 0 <= i < |words| ensures IsWord(words[i]) {
      if 0 < i <= |mechanisms| {
        assert words[i] == mechanisms[i - 1];
      }
    }
    WordsOfJoin(words);
    assert words[1..] == mechanisms + ["-all"];
  }

  // --- address lists -------------------------------------------------------------------------

  predicate IsAddressTerm(term: string) {
    IsWord(term) && (StartsWith(term, "ip4:") || StartsWith(term, "ip6:"))
  }

  predicate AreAddressTerms(terms: seq<string>) {
    forall i | 0 <= i < |terms| :: IsAddressTerm(terms[i])
  }

  lemma AddressTermIsOther(term: string)
    requires IsAddressTerm(term)
    ensures term != "-all" && !StartsWith(term, "include:")
  {
    assert term[0] == term[..4][0] && term[1] == term[..4][1];
    if |term| >= 8 {
      assert term[1] == term[..8][1];
    }
  }

  /** An address list costs no lookup. */
  lemma {:induction false} CheckAddresses(zone: Zone, terms: seq<string>, address: string, left: nat)
    requires AreAddressTerms(terms)
    ensures CheckTerms(zone, terms + ["-all"], address, left) ==
            Outcome(if Mechanism(address) in terms then Pass else Fail, left)
  {
    var whole := terms + ["-all"];
    if terms != [] {
      AddressTermIsOther(terms[0]);
      NamesIs(terms[0], address);
      assert whole[0] == terms[0] && whole[1..] == terms[1..] + ["-all"];
      CheckAddresses(zone, terms[1..], address, left);
      assert terms == [terms[0]] + terms[1..];
    }
  }

  lemma CheckList(zone: Zone, host: string, terms: seq<string>, address: string, left: nat)
    requires AreAddressTerms(terms) && host in zone && zone[host] == [Text(terms)]
    ensures CheckHost(zone, host, address, left) == Outcome(if Mechanism(address) in terms then Pass else Fail, left)
  {
    assert forall i | 0 <= i < |terms| :: IsAddressTerm(terms[i]);
    CheckText(zone, host, terms, address, left);
    CheckAddresses(zone, terms, address, left);
  }

  // --- the chain -----------------------------------------------------------------------------

  /** The zone publishes each record, and nothing else at its host. */
  predicate Publishes(zone: Zone, records: Records) {
    forall i | 0 <= i < |records| :: records[i].0 in zone && zone[records[i].0] == [records[i].1]
  }

  /** A chunk from the i-th on that the remaining lookups reach lists the address. */
  predicate Reached(chunks: seq<Chunk>, address: string, i: nat, left: nat) {
    exists k | i <= k < |chunks| && k < i + left :: Mechanism(address) in chunks[k]
  }

  predicate AreChunks(chunks: seq<Chunk>) {
    forall i | 0 <= i < |chunks| :: AreAddressTerms(chunks[i])
  }

  function ChainVerdict(chunks: seq<Chunk>, address: string, i: nat, left: nat): Verdict {
    if Reached(chunks, address, i, left) then Pass else if |chunks| <= i + left then Fail else PermError
  }

  lemma IncludeTerm(host: string)
    ensures StartsWith(Include(host), "include:") && Include(host)[8..] == host && Include(host) != "-all"
  {
    assert Include(host)[..8] == "include:";
    assert Include(host)[0] == 'i';
  }

  lemma NextChunk(chunks: seq<Chunk>, address: string, i: nat, left: nat)
    requires i < |chunks| && left > 0
    ensures Reached(chunks, address, i, left) <==>
            Mechanism(address) in chunks[i] || Reached(chunks, address, i + 1, left - 1)
  {
  }

  lemma {:induction false} CheckIncludes(zone: Zone, domain: string, chunks: seq<Chunk>, address: string, i: nat,
      left: nat)
    requires i <= |chunks| && AreChunks(chunks) && Publishes(zone, Children(domain, chunks))
    ensures CheckTerms(zone, Includes(domain, |chunks|)[i..] + ["-all"], address, left).verdict ==
            ChainVerdict(chunks, address, i, left)
    decreases |chunks| - i
  {
    hide Reached, AreAddressTerms;
    var includes := Includes(domain, |chunks|);
    var terms := includes[i..] + ["-all"];
    if i == |chunks| {
      assert terms == ["-all"];
      assert !Reached(chunks, address, i, left) by { NoMoreChunks(chunks, address, left); }
    } else {
      var host := ChildHost(domain, i);
      assert terms[0] == Include(host) && terms[1..] == includes[i + 1..] + ["-all"];
      IncludeTerm(host);
      if left == 0 {
        assert !Reached(chunks, address, i, left) by { NoMoreLookups(chunks, address, i); }
      } else {
        assert Children(domain, chunks)[i] == (host, Text(chunks[i]));
        CheckList(zone, host, chunks[i], address, left - 1);
        CheckIncludes(zone, domain, chunks, address, i + 1, left - 1);
        NextChunk(chunks, address, i, left);
      }
    }
  }

  lemma NoMoreChunks(chunks: seq<Chunk>, address: string, left: nat)
    ensures !Reached(chunks, address, |chunks|, left)
  {
  }

  lemma NoMoreLookups(chunks: seq<Chunk>, address: string, i: nat)
    ensures !Reached(chunks, address, i, 0)
  {
  }

  // --- hosts ---------------------------------------------------------------------------------

  predicate IsNumber(s: string) {
    forall i | 0 <= i < |s| :: '0' <= s[i] <= '9'
  }

  lemma {:induction false} DecimalIsNumber(n: nat)
    ensures IsNumber(Decimal(n))
  {
    if n >= 10 {
      DecimalIsNumber(n / 10);
    }
  }

  lemma NumberIn(domain: string, i: nat)
    ensures var number := Decimal(i + 1);
            && |ChildHost(domain, i)| == 3 + |number| + 1 + |domain|
            && ChildHost(domain, i)[3..3 + |number|] == number
  {
    hide Decimal;
    var number := Decimal(i + 1);
    assert ChildHost(domain, i) == "spf" + number + ("." + domain);
  }

  lemma ChildHostsDiffer(domain: string, i: nat, k: nat)
    requires i != k
    ensures ChildHost(domain, i) != ChildHost(domain, k)
  {
    hide ChildHost, Decimal, ParseInt;
    if ChildHost(domain, i) == ChildHost(domain, k) {
      var a, b := Decimal(i + 1), Decimal(k + 1);
      NumberIn(domain, i);
      NumberIn(domain, k);
      assert a == b;
      ParseOfDecimal(i + 1);
      ParseOfDecimal(k + 1);
      assert false;
    }
  }

  lemma ChildHostIsNoParent(domain: string, i: nat)
    ensures ChildHost(domain, i) != "spf." + domain
  {
    assert |ChildHost(domain, i)| == 3 + |Decimal(i + 1)| + 1 + |domain|;
  }

  lemma ZoneOfParent(domain: string)
    ensures ZoneOf("spf." + domain) == Some(domain)
  {
    var host := "spf." + domain;
    assert host[1..] == "pf." + domain && host[1..][1..] == "f." + domain && host[1..][1..][1..] == "." + domain;
    assert host[1..][1..][1..][1..] == domain;
    assert ZoneOf("." + domain) == Some(domain);
    assert ZoneOf("f." + domain) == ZoneOf("." + domain);
    assert ZoneOf("pf." + domain) == ZoneOf("f." + domain);
  }

  /** No two records share a host, so a zone can publish them all. */
  lemma HostsDiffer(domain: string, mechanisms: seq<string>, i: nat, k: nat)
    requires SpfRecords("spf." + domain, mechanisms).Ok?
    requires var records := SpfRecords("spf." + domain, mechanisms).value; i < k < |records|
    ensures var records := SpfRecords("spf." + domain, mechanisms).value; records[i].0 != records[k].0
  {
    hide Fits, Fill, ZoneOf;
    ZoneOfParent(domain);
    if i == 0 {
      ChildHostIsNoParent(domain, k - 1);
    } else {
      ChildHostsDiffer(domain, i - 1, k - 1);
    }
  }

  // --- main result ---------------------------------------------------------------------------

  predicate AreIps(ips: seq<string>) {
    forall i | 0 <= i < |ips| :: IsWord(ips[i])
  }

  lemma MechanismIs(ip: string)
    requires IsWord(ip)
    ensures IsAddressTerm(Mechanism(ip))
  {
    assert Mechanism(ip)[..4] == "ip4:" || Mechanism(ip)[..4] == "ip6:";
  }

  lemma MechanismsListIps(ips: seq<string>, address: string)
    ensures Mechanism(address) in Mechanisms(ips) <==> address in ips
  {
    forall i | 0 <= i < |ips| && Mechanism(ips[i]) == Mechanism(address) ensures ips[i] == address {
      assert Mechanism(ips[i])[4..] == ips[i] && Mechanism(address)[4..] == address;
    }
    if address in ips {
      var i :| 0 <= i < |ips| && ips[i] == address;
      assert Mechanisms(ips)[i] == Mechanism(address);
    }
  }

  lemma MechanismsAreTerms(ips: seq<string>)
    requires AreIps(ips)
    ensures forall m | m in Mechanisms(ips) :: IsAddressTerm(m)
  {
    hide IsAddressTerm, Mechanism, IsWord;
    forall m | m in Mechanisms(ips) ensures IsAddressTerm(m) {
      var i :| 0 <= i < |ips| && Mechanisms(ips)[i] == m;
      MechanismIs(ips[i]);
    }
  }

  lemma ChunksAreAddresses(ips: seq<string>)
    requires AreIps(ips)
    ensures AreChunks(Fill([], Mechanisms(ips))) && AreAddressTerms(Mechanisms(ips))
  {
    hide Fits, IsAddressTerm, Fill, Concat, Mechanisms, AreIps;
    var mechanisms, chunks := Mechanisms(ips), Fill([], Mechanisms(ips));
    FillConcatenates([], mechanisms);
    assert [] + mechanisms == mechanisms;
    MechanismsAreTerms(ips);
    forall i | 0 <= i < |chunks| ensures AreAddressTerms(chunks[i]) {
      forall j | 0 <= j < |chunks[i]| ensures IsAddressTerm(chunks[i][j]) {
        ConcatHas(chunks, chunks[i][j]);
      }
    }
  }

  lemma IncludesAreWords(domain: string, count: nat)
    requires IsWord(domain)
    ensures AreWords(Includes(domain, count))
  {
    forall i | 0 <= i < count ensures IsWord(Include(ChildHost(domain, i))) {
      DecimalIsNumber(i + 1);
    }
  }

  function Customer(domain: string): string {
    Text([Include("spf." + domain)])
  }

  /** Terms that match nothing leave the verdict to those after them. */
  lemma {:induction false} CheckAppended(zone: Zone, terms: seq<string>, more: seq<string>, address: string, left: nat)
    requires CheckTerms(zone, terms, address, left).verdict == Neutral
    ensures CheckTerms(zone, terms + more, address, left)
            == CheckTerms(zone, more, address, CheckTerms(zone, terms, address, left).left)
    decreases |terms|
  {
    var whole := terms + more;
    if terms == [] {
      assert whole == more;
    } else {
      assert whole[0] == terms[0] && whole[1..] == terms[1..] + more;
      if StartsWith(terms[0], "include:") {
        CheckAppended(zone, terms[1..], more, address, CheckHost(zone, terms[0][8..], address, left - 1).left);
      } else {
        CheckAppended(zone, terms[1..], more, address, left);
      }
    }
  }

  /** The lookups left to the children when a domain includes the target and nothing else. */
  const MAX_CHILDREN: nat := LOOKUP_LIMIT - 1

  /** What the target gives a sending address, with so many lookups left. */
  function TargetVerdict(ips: seq<string>, address: string, left: nat): Verdict {
    if Fits(Mechanisms(ips)) then (if address in ips then Pass else Fail)
    else ChainVerdict(Fill([], Mechanisms(ips)), address, 0, left)
  }

  /** One list passes exactly the listed addresses. A split list passes those the remaining lookups reach,
      and every other address is a permanent error unless they reach all. */
  lemma IncludedVerdict(zone: Zone, domain: string, ips: seq<string>, address: string, left: nat)
    requires IsWord(domain) && AreIps(ips) && SpfRecords("spf." + domain, Mechanisms(ips)).Ok?
    requires Publishes(zone, SpfRecords("spf." + domain, Mechanisms(ips)).value)
    ensures CheckHost(zone, "spf." + domain, address, left).verdict == TargetVerdict(ips, address, left)
  {
    hide Fits, Fill, CheckTerms, CheckHost, ChainVerdict, AreChunks, Text, ZoneOf;
    var parent, mechanisms, chunks := "spf." + domain, Mechanisms(ips), Fill([], Mechanisms(ips));
    var records := SpfRecords(parent, mechanisms).value;
    ChunksAreAddresses(ips);
    assert records[0].0 == parent;
    if Fits(mechanisms) {
      MechanismsListIps(ips, address);
      CheckList(zone, parent, mechanisms, address, left);
    } else {
      ZoneOfParent(domain);
      IncludesAreWords(domain, |chunks|);
      var includes := Includes(domain, |chunks|);
      CheckText(zone, parent, includes, address, left);
      assert includes[0..] == includes;
      assert Publishes(zone, Children(domain, chunks)) by {
        assert forall i | 0 <= i < |chunks| :: records[i + 1] == Children(domain, chunks)[i];
      }
      CheckIncludes(zone, domain, chunks, address, 0, left);
    }
  }

  /** A domain that includes the target last, after terms of its own: an address those do not match gets
      the target's verdict with the lookups they leave, less the one of the include. */
  lemma IncluderVerdict(zone: Zone, domain: string, ips: seq<string>, host: string, terms: seq<string>,
                        address: string)
    requires IsWord(domain) && AreIps(ips) && SpfRecords("spf." + domain, Mechanisms(ips)).Ok?
    requires Publishes(zone, SpfRecords("spf." + domain, Mechanisms(ips)).value)
    requires AreWords(terms) && host in zone && zone[host] == [Text(terms + [Include("spf." + domain)])]
    requires CheckTerms(zone, terms, address, LOOKUP_LIMIT).verdict == Neutral
    ensures var left := CheckTerms(zone, terms, address, LOOKUP_LIMIT).left;
            CheckHost(zone, host, address, LOOKUP_LIMIT).verdict ==
            if left == 0 then PermError else TargetVerdict(ips, address, left - 1)
  {
    hide Fits, Fill, CheckHost, ChainVerdict, Text, ZoneOf, SpfRecords, Publishes, AreIps;
    var parent := "spf." + domain;
    var mechanisms := terms + [Include(parent)];
    var left := CheckTerms(zone, terms, address, LOOKUP_LIMIT).left;
    CheckText(zone, host, mechanisms, address, LOOKUP_LIMIT);
    assert mechanisms + ["-all"] == terms + [Include(parent), "-all"];
    CheckAppended(zone, terms, [Include(parent), "-all"], address, LOOKUP_LIMIT);
    IncludeTerm(parent);
    assert [Include(parent), "-all"][1..] == ["-all"];
    if left > 0 {
      IncludedVerdict(zone, domain, ips, address, left - 1);
      NeverNeutral(Fill([], Mechanisms(ips)), address, 0, left - 1);
      var after := CheckHost(zone, parent, address, left - 1).left;
      assert CheckTerms(zone, ["-all"], address, after).verdict == Fail;
    }
  }

  /** The terms of a domain match an address, or leave it with the same lookups as every other. */
  ghost predicate Leaves(zone: Zone, terms: seq<string>, left: nat) {
    forall address ::
      var outcome := CheckTerms(zone, terms, address, LOOKUP_LIMIT);
      outcome.verdict == Pass || outcome == Outcome(Neutral, left)
  }

  /** Of the addresses a domain's own terms do not match, exactly the listed ones pass and all others fail,
      if and only if the lookups those terms leave reach the target and each of its children. `stranger` is
      neither matched nor listed. */
  lemma IncluderPassesExactlyListed(zone: Zone, domain: string, ips: seq<string>, host: string, terms: seq<string>,
                                    left: nat, stranger: string)
    requires IsWord(domain) && AreIps(ips) && SpfRecords("spf." + domain, Mechanisms(ips)).Ok?
    requires Publishes(zone, SpfRecords("spf." + domain, Mechanisms(ips)).value)
    requires AreWords(terms) && host in zone && zone[host] == [Text(terms + [Include("spf." + domain)])]
    requires Leaves(zone, terms, left)
    requires stranger !in ips && CheckTerms(zone, terms, stranger, LOOKUP_LIMIT).verdict == Neutral
    ensures (forall address | CheckTerms(zone, terms, address, LOOKUP_LIMIT).verdict == Neutral ::
               CheckHost(zone, host, address, LOOKUP_LIMIT).verdict == if address in ips then Pass else Fail)
            <==> left > 0 && (Fits(Mechanisms(ips)) || |Fill([], Mechanisms(ips))| < left)
  {
    hide Fits, Fill, CheckHost, CheckTerms, Publishes, AreIps, IsWord, AreWords, TargetVerdict, Text, SpfRecords;
    if left > 0 && (Fits(Mechanisms(ips)) || |Fill([], Mechanisms(ips))| < left) {
      forall address | CheckTerms(zone, terms, address, LOOKUP_LIMIT).verdict == Neutral
        ensures CheckHost(zone, host, address, LOOKUP_LIMIT).verdict == if address in ips then Pass else Fail
      {
        IncluderVerdict(zone, domain, ips, host, terms, address);
        assert CheckTerms(zone, terms, address, LOOKUP_LIMIT) == Outcome(Neutral, left);
        EnoughLookups(ips, address, left - 1);
      }
    } else {
      IncluderVerdict(zone, domain, ips, host, terms, stranger);
      assert CheckTerms(zone, terms, stranger, LOOKUP_LIMIT) == Outcome(Neutral, left);
      if left > 0 {
        TooFewLookups(ips, stranger, left - 1);
      }
    }
  }

  lemma EnoughLookups(ips: seq<string>, address: string, left: nat)
    requires Fits(Mechanisms(ips)) || |Fill([], Mechanisms(ips))| <= left
    ensures TargetVerdict(ips, address, left) == if address in ips then Pass else Fail
  {
    hide Fits, Fill;
    var mechanisms, chunks := Mechanisms(ips), Fill([], Mechanisms(ips));
    FillConcatenates([], mechanisms);
    assert [] + mechanisms == mechanisms;
    MechanismsListIps(ips, address);
    ConcatHas(chunks, Mechanism(address));
  }

  lemma TooFewLookups(ips: seq<string>, address: string, left: nat)
    requires !Fits(Mechanisms(ips)) && |Fill([], Mechanisms(ips))| > left && address !in ips
    ensures TargetVerdict(ips, address, left) == PermError
  {
    hide Fits, Fill;
    var mechanisms, chunks := Mechanisms(ips), Fill([], Mechanisms(ips));
    FillConcatenates([], mechanisms);
    assert [] + mechanisms == mechanisms;
    MechanismsListIps(ips, address);
    ConcatHas(chunks, Mechanism(address));
  }

  /** What a domain that includes the target and nothing else gives a sending address. With more than nine
      children, only the addresses of the first nine pass and every other address is a permanent error. */
  lemma CustomerVerdict(zone: Zone, domain: string, ips: seq<string>, host: string, address: string)
    requires IsWord(domain) && AreIps(ips) && SpfRecords("spf." + domain, Mechanisms(ips)).Ok?
    requires Publishes(zone, SpfRecords("spf." + domain, Mechanisms(ips)).value)
    requires host in zone && zone[host] == [Customer(domain)]
    ensures CheckHost(zone, host, address, LOOKUP_LIMIT).verdict ==
            if Fits(Mechanisms(ips)) then (if address in ips then Pass else Fail)
            else ChainVerdict(Fill([], Mechanisms(ips)), address, 0, MAX_CHILDREN)
  {
    hide Fits, Fill, CheckHost, ChainVerdict, Text, SpfRecords, Publishes, AreIps, IsWord;
    NoTerms(zone, domain, address);
    IncluderVerdict(zone, domain, ips, host, [], address);
  }

  lemma NoTerms(zone: Zone, domain: string, address: string)
    ensures CheckTerms(zone, [], address, LOOKUP_LIMIT) == Outcome(Neutral, LOOKUP_LIMIT)
    ensures [] + [Include("spf." + domain)] == [Include("spf." + domain)] && AreWords([])
  {
  }

  lemma NeverNeutral(chunks: seq<Chunk>, address: string, i: nat, left: nat)
    ensures ChainVerdict(chunks, address, i, left) != Neutral
  {
  }

  /** Exactly the listed addresses pass and all others fail, if and only if the split took at most
      nine children. The length of the parent does not ensure that. */
  lemma ChainPassesExactlyListed(zone: Zone, domain: string, ips: seq<string>, host: string)
    requires IsWord(domain) && AreIps(ips) && SpfRecords("spf." + domain, Mechanisms(ips)).Ok?
    requires Publishes(zone, SpfRecords("spf." + domain, Mechanisms(ips)).value)
    requires host in zone && zone[host] == [Customer(domain)]
    ensures (forall address ::
               CheckHost(zone, host, address, LOOKUP_LIMIT).verdict == if address in ips then Pass else Fail)
            <==> Fits(Mechanisms(ips)) || |Fill([], Mechanisms(ips))| <= MAX_CHILDREN
  {
    hide Fits, Fill, CheckHost, CheckTerms, Publishes, AreIps, IsWord, Text, SpfRecords;
    var stranger := Unlisted(ips);
    forall address ensures CheckTerms(zone, [], address, LOOKUP_LIMIT) == Outcome(Neutral, LOOKUP_LIMIT) {
      NoTerms(zone, domain, address);
    }
    NoTerms(zone, domain, stranger);
    IncluderPassesExactlyListed(zone, domain, ips, host, [], LOOKUP_LIMIT, stranger);
  }

  function Longest(ips: seq<string>): nat {
    if ips == [] then 0 else if |ips[0]| > Longest(ips[1..]) then |ips[0]| else Longest(ips[1..])
  }

  lemma {:induction false} LongestIs(ips: seq<string>, ip: string)
    requires ip in ips
    ensures |ip| <= Longest(ips)
  {
    if ip != ips[0] {
      LongestIs(ips[1..], ip);
    }
  }

  lemma Unlisted(ips: seq<string>) returns (address: string)
    ensures address !in ips
  {
    address := seq(Longest(ips) + 1, i => '0');
    if address in ips {
      LongestIs(ips, address);
    }
  }

  /** Ten children do fit a parent when the domain is short. */
  lemma TenChildrenFit(domain: string)
    requires |domain| <= 10
    ensures Fits(Includes(domain, MAX_CHILDREN + 1))
  {
    IncludesSize(domain, 0);
    FitsBySize(Includes(domain, 10));
    assert Includes(domain, 10)[0..] == Includes(domain, 10);
  }

  lemma {:induction false} IncludesSize(domain: string, i: nat)
    requires i <= 10 && |domain| <= 10
    ensures Size(Includes(domain, 10)[i..]) <= (10 - i) * 24 + 1
    decreases 10 - i
  {
    hide Include, ChildHost;
    var includes := Includes(domain, 10);
    if i < 10 {
      assert includes[i..][1..] == includes[i + 1..];
      IncludesSize(domain, i + 1);
      IncludeSize(domain, i);
    }
  }

  lemma IncludeSize(domain: string, i: nat)
    requires i < 10
    ensures |Include(ChildHost(domain, i))| == (if i == 9 then 14 else 13) + |domain|
  {
    assert |ChildHost(domain, i)| == 3 + |Decimal(i + 1)| + 1 + |domain|;
    if i == 9 {
      assert Decimal(10) == Decimal(1) + [DIGITS[0]];
    }
  }

  // --- a list of ten chunks ----------------------------------------------------------------------

  predicate AllOfLength(mechanisms: seq<string>, length: nat) {
    forall i | 0 <= i < |mechanisms| :: |mechanisms[i]| == length
  }

  lemma {:induction false} UniformSize(mechanisms: seq<string>)
    requires AllOfLength(mechanisms, 43)
    ensures Size(mechanisms) == 44 * |mechanisms|
  {
    if mechanisms != [] {
      UniformSize(mechanisms[1..]);
    }
  }

  /** Five mechanisms of 43 characters fill a text. */
  lemma {:induction false} UniformFill(open: Chunk, rest: seq<string>)
    requires AllOfLength(open, 43) && AllOfLength(rest, 43) && |open| <= 5 && |open| + |rest| > 0
    ensures |Fill(open, rest)| == (|open| + |rest| + 4) / 5
    decreases |rest|
  {
    hide Fits;
    if rest != [] {
      FitsBySize(open + [rest[0]]);
      UniformSize(open + [rest[0]]);
      UniformFill(if |open| == 5 then [rest[0]] else open + [rest[0]], rest[1..]);
    }
  }

  /** IPv6 addresses in full, told apart by their last two digits. */
  const FORTY_SIX: seq<string> :=
    seq(46, i requires 0 <= i < 46 => "2001:0db8:0000:0000:0000:0000:0000:00" + [DIGITS[i / 10], DIGITS[i % 10]])

  lemma FortySixAreIps()
    ensures AreIps(FORTY_SIX) && AllOfLength(Mechanisms(FORTY_SIX), 43)
    ensures forall i, j | 0 <= i < j < 46 :: FORTY_SIX[i] != FORTY_SIX[j]
  {
    forall i, j | 0 <= i < j < 46 ensures FORTY_SIX[i] != FORTY_SIX[j] {
      assert FORTY_SIX[i][37..] == [DIGITS[i / 10], DIGITS[i % 10]];
      assert FORTY_SIX[j][37..] == [DIGITS[j / 10], DIGITS[j % 10]];
      if DIGITS[i / 10] == DIGITS[j / 10] && DIGITS[i % 10] == DIGITS[j % 10] {
        DigitIs(i / 10);
        DigitIs(j / 10);
        DigitIs(i % 10);
        DigitIs(j % 10);
        assert false;
      }
    }
    forall i | 0 <= i < 46 ensures |Mechanism(FORTY_SIX[i])| == 43 && IsWord(FORTY_SIX[i]) {
      assert FORTY_SIX[i][4] == ':';
    }
  }

  /** Forty-six IPv6 addresses of a cluster with a short zone name: the split goes through, and no domain
      that includes it fails the addresses it should. */
  lemma TenChildrenGoThrough(zone: Zone, domain: string, host: string)
    requires IsWord(domain) && |domain| <= 10
    ensures SpfRecords("spf." + domain, Mechanisms(FORTY_SIX)).Ok?
        && |Fill([], Mechanisms(FORTY_SIX))| == MAX_CHILDREN + 1
    ensures Publishes(zone, SpfRecords("spf." + domain, Mechanisms(FORTY_SIX)).value)
            && host in zone && zone[host] == [Customer(domain)] ==>
              exists address :: address !in FORTY_SIX
                  && CheckHost(zone, host, address, LOOKUP_LIMIT).verdict == PermError
  {
    hide Fits, Fill, CheckHost, Publishes, ChainVerdict, AreIps;
    var mechanisms := Mechanisms(FORTY_SIX);
    FortySixAreIps();
    UniformFill([], mechanisms);
    UniformSize(mechanisms);
    FitsBySize(mechanisms);
    ZoneOfParent(domain);
    TenChildrenFit(domain);
    if Publishes(zone, SpfRecords("spf." + domain, mechanisms).value) && host in zone
        && zone[host] == [Customer(domain)] {
      var address := Unlisted(FORTY_SIX);
      CustomerVerdict(zone, domain, FORTY_SIX, host, address);
      TooFewLookups(FORTY_SIX, address, MAX_CHILDREN);
    }
  }
}
