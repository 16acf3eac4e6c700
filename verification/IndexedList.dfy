/** Stalwart's `List<T>` on the wire: an object keyed by decimal indices, which a server may return
    in any order of its keys. */
module IndexedList {
  import opened Wrappers

  type Indexed<T> = seq<(string, T)>

  // --- decimal numbers -----------------------------------------------------------------------

  const DIGITS: string := "0123456789"

  function Decimal(n: nat): (s: string)
    ensures s != ""
  {
    if n < 10 then [DIGITS[n]] else Decimal(n / 10) + [DIGITS[n % 10]]
  }

  function DigitValue(c: char): Option<nat> {
    if '0' <= c <= '9' then Some(c as int - '0' as int) else None
  }

  /** `int(text)` of a plain decimal number; None where it raises. */
  function ParseInt(s: string): Option<nat> {
    if s == "" then None
    else
      match DigitValue(s[|s| - 1])
      case None => None
      case Some(d) =>
        if |s| == 1 then Some(d)
        else
          match ParseInt(s[..|s| - 1])
          case None => None
          case Some(n) => Some(10 * n + d)
  }

  lemma {:induction false} ParseOfDecimal(n: nat)
    ensures ParseInt(Decimal(n)) == Some(n)
  {
    DigitIs(n % 10);
    if n >= 10 {
      var tens := Decimal(n / 10);
      ParseOfDecimal(n / 10);
      ParseOneMore(tens, DIGITS[n % 10]);
    }
  }

  lemma DigitIs(d: nat)
    requires d < 10
    ensures DigitValue(DIGITS[d]) == Some(d)
  {
  }

  lemma ParseOneMore(tens: string, digit: char)
    requires tens != "" && ParseInt(tens).Some? && DigitValue(digit).Some?
    ensures ParseInt(tens + [digit]) == Some(10 * ParseInt(tens).value + DigitValue(digit).value)
  {
    var s := tens + [digit];
    assert s[|s| - 1] == digit && s[..|s| - 1] == tens;
  }

  // --- lists ---------------------------------------------------------------------------------

  /** `as_list` */
  function AsList<T>(items: seq<T>): Indexed<T> {
    seq(|items|, i requires 0 <= i < |items| => (Decimal(i), items[i]))
  }

  /** Before every entry with the same key or a greater one, so that a sort from the right is stable. */
  function Insert<T>(entry: (nat, T), sorted: seq<(nat, T)>): seq<(nat, T)> {
    if sorted == [] || entry.0 <= sorted[0].0 then [entry] + sorted
    else [sorted[0]] + Insert(entry, sorted[1..])
  }

  function Sort<T>(entries: seq<(nat, T)>): seq<(nat, T)> {
    if entries == [] then [] else Insert(entries[0], Sort(entries[1..]))
  }

  predicate AllNumbered<T>(match_: Indexed<T>) {
    forall i | 0 <= i < |match_| :: ParseInt(match_[i].0).Some?
  }

  function Numbered<T>(match_: Indexed<T>): seq<(nat, T)>
    requires AllNumbered(match_)
  {
    seq(|match_|, i requires 0 <= i < |match_| => (ParseInt(match_[i].0).value, match_[i].1))
  }

  function Values<T>(entries: seq<(nat, T)>): seq<T> {
    seq(|entries|, i requires 0 <= i < |entries| => entries[i].1)
  }

  /** `[match[key] for key in sorted(match, key=int)]`; None where a key is no number. */
  function FromIndexed<T>(match_: Indexed<T>): Option<seq<T>> {
    if AllNumbered(match_) then Some(Values(Sort(Numbered(match_)))) else None
  }

  // --- round trip ----------------------------------------------------------------------------

  predicate StrictlyAscending<T>(entries: seq<(nat, T)>) {
    forall i, j | 0 <= i < j < |entries| :: entries[i].0 < entries[j].0
  }

  predicate DistinctNumbers<T>(entries: seq<(nat, T)>) {
    forall i, j | 0 <= i < j < |entries| :: entries[i].0 != entries[j].0
  }

  ghost predicate SameEntries<E(!new)>(a: seq<E>, b: seq<E>) {
    forall e :: e in a <==> e in b
  }

  /** The same JSON object: keys are distinct, and their order says nothing. */
  ghost predicate Rearranged<T(!new)>(a: Indexed<T>, b: Indexed<T>) {
    && (forall i, j | 0 <= i < j < |a| :: a[i].0 != a[j].0)
    && SameEntries(a, b)
  }

  lemma {:induction false} InsertSorts<T(!new)>(entry: (nat, T), sorted: seq<(nat, T)>)
    requires StrictlyAscending(sorted)
    requires forall i | 0 <= i < |sorted| :: sorted[i].0 != entry.0
    ensures StrictlyAscending(Insert(entry, sorted))
    ensures forall e :: e in Insert(entry, sorted) <==> e == entry || e in sorted
    decreases |sorted|
  {
    if sorted != [] && entry.0 > sorted[0].0 {
      var rest := Insert(entry, sorted[1..]);
      InsertSorts(entry, sorted[1..]);
      assert forall e :: e in sorted <==> e == sorted[0] || e in sorted[1..];
      forall i | 0 <= i < |rest| ensures sorted[0].0 < rest[i].0 {
        assert rest[i] in rest;
      }
    } else {
      assert forall e :: e in [entry] + sorted <==> e == entry || e in sorted;
    }
  }

  lemma {:induction false} SortSorts<T(!new)>(entries: seq<(nat, T)>)
    requires DistinctNumbers(entries)
    ensures StrictlyAscending(Sort(entries)) && SameEntries(Sort(entries), entries)
    decreases |entries|
  {
    if entries != [] {
      SortSorts(entries[1..]);
      var rest := Sort(entries[1..]);
      forall i | 0 <= i < |rest| ensures rest[i].0 != entries[0].0 {
        assert rest[i] in entries[1..];
      }
      InsertSorts(entries[0], rest);
      assert forall e :: e in entries <==> e == entries[0] || e in entries[1..];
    }
  }

  /** Only one ascending order of distinct numbers exists. */
  lemma {:induction false} AscendingIsUnique<T(!new)>(a: seq<(nat, T)>, b: seq<(nat, T)>)
    requires StrictlyAscending(a) && StrictlyAscending(b) && SameEntries(a, b)
    ensures a == b
    decreases |a|
  {
    assert b != [] ==> b[0] in a;
    if a != [] {
      assert a[0] in b;
      assert a[0] == b[0];
      assert forall e :: e in a[1..] <==> e in a && e != a[0];
      assert forall e :: e in b[1..] <==> e in b && e != b[0];
      AscendingIsUnique(a[1..], b[1..]);
    }
  }

  /** A list of any length comes back as it was written, whatever order the server returns its keys
      in: by number, as text ("10" before "2"), or any other. */
  lemma ListRoundTrip<T(!new)>(items: seq<T>, returned: Indexed<T>)
    requires Rearranged(returned, AsList(items))
    ensures FromIndexed(returned) == Some(items)
  {
    hide ParseInt, Decimal, Sort, AsList, Numbered;
    var straight := Straight(items);
    var numbers := Numbers(items, returned);
    SortSorts(numbers);
    assert StrictlyAscending(straight);
    AscendingIsUnique(Sort(numbers), straight);
    assert Values(straight) == items;
  }

  /** The items beside their places. */
  function Straight<T>(items: seq<T>): seq<(nat, T)> {
    seq(|items|, i requires 0 <= i < |items| => (i, items[i]))
  }

  /** The place of a returned entry in the list as written. */
  lemma PlaceOf<T(!new)>(items: seq<T>, returned: Indexed<T>, i: nat) returns (n: nat)
    requires Rearranged(returned, AsList(items)) && i < |returned|
    ensures n < |items| && returned[i] == (Decimal(n), items[n]) && ParseInt(returned[i].0) == Some(n)
  {
    hide ParseInt, Decimal;
    assert returned[i] in AsList(items);
    n :| 0 <= n < |items| && AsList(items)[n] == returned[i];
    ParseOfDecimal(n);
  }

  /** The numbered entries are the items beside their places, in some order. */
  lemma Numbers<T(!new)>(items: seq<T>, returned: Indexed<T>) returns (numbers: seq<(nat, T)>)
    requires Rearranged(returned, AsList(items))
    ensures AllNumbered(returned) && numbers == Numbered(returned) && DistinctNumbers(numbers)
    ensures SameEntries(numbers, Straight(items))
  {
    hide ParseInt, Decimal;
    forall i | 0 <= i < |returned| ensures ParseInt(returned[i].0).Some? {
      var n := PlaceOf(items, returned, i);
    }
    numbers := Numbered(returned);
    forall i, j | 0 <= i < j < |numbers| ensures numbers[i].0 != numbers[j].0 {
      var n := PlaceOf(items, returned, i);
      var m := PlaceOf(items, returned, j);
      assert returned[i].0 != returned[j].0;
    }
    forall e | e in numbers ensures e in Straight(items) {
      var i :| 0 <= i < |numbers| && numbers[i] == e;
      var n := PlaceOf(items, returned, i);
      assert Straight(items)[n] == e;
    }
    forall e | e in Straight(items) ensures e in numbers {
      var n :| 0 <= n < |items| && Straight(items)[n] == e;
      assert AsList(items)[n] in AsList(items);
      var i :| 0 <= i < |returned| && returned[i] == AsList(items)[n];
      ParseOfDecimal(n);
      assert numbers[i] == e;
    }
  }
}
