/** Names of cache files: how they are printed, and how a directory of them is scanned. */
module CacheNames {
  import opened Options
  import opened Lists

  const U64_LIMIT: nat := 0x1_0000_0000_0000_0000

  // ---------------------------------------------------------------- decimal numbers

  function Digit(d: nat): char
    requires d < 10
  {
    "0123456789"[d]
  }

  function DigitValue(c: char): nat {
    if '0' <= c <= '9' then (c as int) - ('0' as int) else 0
  }

  predicate IsDigit(c: char) { '0' <= c <= '9' }

  predicate AllDigits(s: string) {
    forall i :: 0 <= i < |s| ==> IsDigit(s[i])
  }

  function Decimal(n: nat): (s: string)
    ensures s != [] && AllDigits(s)
  {
    (if n < 10 then "" else Decimal(n / 10)) + [Digit(n % 10)]
  }

  function DigitsValue(s: string): nat {
    if s == "" then 0 else 10 * DigitsValue(s[..|s| - 1]) + DigitValue(s[|s| - 1])
  }

  /** Parsing as an unsigned 64-bit number: digits after at most one plus sign, no overflow. */
  function ParseU64(s: string): Option<nat> {
    var digits := if s != "" && s[0] == '+' then s[1..] else s;
    if digits == "" || !AllDigits(digits) || U64_LIMIT <= DigitsValue(digits)
    then None
    else Some(DigitsValue(digits))
  }

  lemma {:induction false} ValueOfDigit(d: nat)
    requires d < 10
    ensures DigitValue(Digit(d)) == d
  {
  }

  lemma {:induction false} ValueAppend(s: string, d: nat)
    requires d < 10
    ensures DigitsValue(s + [Digit(d)]) == 10 * DigitsValue(s) + d
  {
    ValueOfDigit(d);
    assert (s + [Digit(d)])[..|s|] == s;
  }

  lemma {:induction false} DecimalValue(n: nat)
    ensures DigitsValue(Decimal(n)) == n
  {
    if 10 <= n {
      DecimalValue(n / 10);
      ValueAppend(Decimal(n / 10), n % 10);
    } else {
      ValueAppend("", n);
    }
  }

  function Zeros(k: nat): (s: string)
    ensures |s| == k && AllDigits(s)
  {
    seq(k, i => '0')
  }

  lemma {:induction false} ZerosInFront(k: nat, s: string)
    ensures DigitsValue(Zeros(k) + s) == DigitsValue(s)
    decreases |s|, k
  {
    if s != "" {
      assert (Zeros(k) + s)[..|Zeros(k) + s| - 1] == Zeros(k) + s[..|s| - 1];
      ZerosInFront(k, s[..|s| - 1]);
    } else if 0 < k {
      assert Zeros(k) + "" == Zeros(k) && Zeros(k)[..k - 1] == Zeros(k - 1) + "";
      ZerosInFront(k - 1, "");
    } else {
      assert Zeros(0) + s == "";
    }
  }

  lemma {:induction false} OneDigit(d: nat)
    requires d < 10
    ensures Decimal(d) == [Digit(d)]
  {
  }

  lemma {:induction false} OneMoreDigit(k: nat, m: nat, d: nat)
    requires d < 10
    ensures Zeros(k) + Decimal(m) + [Digit(d)] == Zeros(if m == 0 then k + 1 else k) + Decimal(10 * m + d)
  {
    if m == 0 {
      OneDigit(m);
      OneDigit(d);
      assert Zeros(k) + [Digit(m)] == Zeros(k + 1);
    } else {
      TimesTen(m, d);
    }
  }

  lemma {:induction false} LastDigit(s: string)
    requires s != "" && AllDigits(s)
    ensures DigitValue(s[|s| - 1]) < 10 && s == s[..|s| - 1] + [Digit(DigitValue(s[|s| - 1]))]
    ensures DigitsValue(s) == 10 * DigitsValue(s[..|s| - 1]) + DigitValue(s[|s| - 1])
  {
    DigitOfValue(s[|s| - 1]);
  }

  lemma {:induction false} NoZeros(s: string)
    ensures Zeros(0) + s == s
  {
  }

  /** The digits are the number's decimal form with k zeros in front of it. */
  ghost predicate Padded(s: string, n: nat, k: nat) {
    s == Zeros(k) + Decimal(n)
  }

  lemma {:induction false} PaddedLonger(init: string, d: nat, m: nat, j: nat) returns (k: nat)
    requires d < 10 && Padded(init, m, j)
    ensures Padded(init + [Digit(d)], 10 * m + d, k)
  {
    OneMoreDigit(j, m, d);
    k := if m == 0 then j + 1 else j;
  }

  lemma {:induction false} DigitsAreDecimal(s: string) returns (k: nat)
    requires s != "" && AllDigits(s)
    ensures Padded(s, DigitsValue(s), k)
  {
    var d := DigitValue(s[|s| - 1]);
    LastDigit(s);
    if |s| == 1 {
      k := 0;
      OneDigit(d);
      NoZeros(s);
    } else {
      var init := s[..|s| - 1];
      var j := DigitsAreDecimal(init);
      k := PaddedLonger(init, d, DigitsValue(init), j);
    }
  }

  lemma {:induction false} TimesTen(m: nat, d: nat)
    requires 0 < m && d < 10
    ensures Decimal(10 * m + d) == Decimal(m) + [Digit(d)]
  {
    assert (10 * m + d) / 10 == m && (10 * m + d) % 10 == d;
  }

  lemma {:induction false} DigitOfValue(c: char)
    requires IsDigit(c)
    ensures DigitValue(c) < 10 && Digit(DigitValue(c)) == c
  {
  }

  /** Written in the usual way: at most one plus sign, any number of zeros, and the decimal form. */
  ghost predicate Writes(s: string, n: nat) {
    exists k: nat :: s == Zeros(k) + Decimal(n) || s == "+" + (Zeros(k) + Decimal(n))
  }

  lemma {:induction false} WrittenDigits(n: nat, k: nat)
    ensures var s := Zeros(k) + Decimal(n); s != "" && AllDigits(s) && s[0] != '+' && DigitsValue(s) == n
  {
    ZerosInFront(k, Decimal(n));
    DecimalValue(n);
    var s := Zeros(k) + Decimal(n);
    assert IsDigit(s[0]);
  }

  lemma {:induction false} ParsedIsWritten(s: string, n: nat)
    requires ParseU64(s) == Some(n)
    ensures n < U64_LIMIT && Writes(s, n)
  {
    if s[0] == '+' {
      var k := DigitsAreDecimal(s[1..]);
      assert s == "+" + s[1..];
    } else {
      var k := DigitsAreDecimal(s);
    }
  }

  lemma {:induction false} WrittenIsParsed(n: nat, k: nat)
    requires n < U64_LIMIT
    ensures ParseU64(Zeros(k) + Decimal(n)) == ParseU64("+" + (Zeros(k) + Decimal(n))) == Some(n)
  {
    var digits := Zeros(k) + Decimal(n);
    WrittenDigits(n, k);
    assert ("+" + digits)[1..] == digits;
  }

  /** Exactly the ways of writing a number of 64 bits are parsed, and as that number. */
  lemma {:induction false} ParseExactly(s: string, n: nat)
    ensures ParseU64(s) == Some(n) <==> n < U64_LIMIT && Writes(s, n)
  {
    if ParseU64(s) == Some(n) {
      ParsedIsWritten(s, n);
    } else if n < U64_LIMIT && Writes(s, n) {
      var k: nat :| s == Zeros(k) + Decimal(n) || s == "+" + (Zeros(k) + Decimal(n));
      WrittenIsParsed(n, k);
    }
  }

  function Power(k: nat): nat {
    if k == 0 then 1 else 10 * Power(k - 1)
  }

  lemma {:induction false} OneMorePlace(s: string, c: char)
    ensures DigitsValue(s + [c]) == 10 * DigitsValue(s) + DigitValue(c)
  {
    assert (s + [c])[..|s|] == s;
  }

  lemma {:induction false} TenTimes(front: nat, power: nat, back: nat, d: nat)
    ensures 10 * (front * power + back) + d == front * (10 * power) + (10 * back + d)
  {
  }

  /** The first digits count for the most. */
  lemma {:induction false} DigitsByPlace(s: string, t: string)
    ensures DigitsValue(s + t) == DigitsValue(s) * Power(|t|) + DigitsValue(t)
    decreases |t|
  {
    if t == "" {
      assert s + t == s;
    } else {
      var init, last := t[..|t| - 1], t[|t| - 1];
      assert t == init + [last] && s + t == (s + init) + [last];
      DigitsByPlace(s, init);
      OneMorePlace(s + init, last);
      OneMorePlace(init, last);
      TenTimes(DigitsValue(s), Power(|init|), DigitsValue(init), DigitValue(last));
    }
  }

  lemma {:induction false} ParseDecimal(n: nat)
    ensures ParseU64(Decimal(n)) == if n < U64_LIMIT then Some(n) else None
  {
    DecimalValue(n);
    assert IsDigit(Decimal(n)[0]);
  }

  // ------------------------------------------------------------------------ printing

  const PREFIX := "cache_"
  const SUFFIX := ".json"

  function Range(first: nat, last: Option<nat>): string {
    if last.Some? then Decimal(first) + "-" + Decimal(last.value) else Decimal(first)
  }

  function FileName(network: string, first: nat, last: Option<nat>): string {
    PREFIX + network + "_" + Range(first, last) + SUFFIX
  }

  lemma {:induction false} NoMarkBeyond(a: string, b: string, c: string, d: string, mark: char)
    requires a + [mark] + b == c + [mark] + d && mark !in b
    ensures |c| <= |a|
  {
    var s := a + [mark] + b;
    assert forall j :: |a| < j < |s| ==> s[j] == b[j - |a| - 1];
    assert s[|c|] == mark;
  }

  lemma {:induction false} LastSeparator(a: string, b: string, c: string, d: string, mark: char)
    requires a + [mark] + b == c + [mark] + d && mark !in b && mark !in d
    ensures a == c && b == d
  {
    NoMarkBeyond(a, b, c, d, mark);
    NoMarkBeyond(c, d, a, b, mark);
    var s := a + [mark] + b;
    assert a == s[..|a|] && b == s[|a| + 1..];
    assert c == s[..|c|] && d == s[|c| + 1..];
  }

  lemma {:induction false} RangeHasNoMark(first: nat, last: Option<nat>)
    ensures '_' !in Range(first, last)
    ensures '-' in Range(first, last) <==> last.Some?
  {
    assert forall c :: c in Decimal(first) ==> IsDigit(c);
    if last.Some? {
      assert forall c :: c in Decimal(last.value) ==> IsDigit(c);
      assert Range(first, last)[|Decimal(first)|] == '-';
    }
  }

  lemma {:induction false} DecimalInjective(m: nat, n: nat)
    requires Decimal(m) == Decimal(n)
    ensures m == n
  {
    DecimalValue(m);
    DecimalValue(n);
  }

  lemma {:induction false} PairInjective(first: nat, last: nat, first': nat, last': nat)
    requires Decimal(first) + "-" + Decimal(last) == Decimal(first') + "-" + Decimal(last')
    ensures first == first' && last == last'
  {
    assert forall c :: c in Decimal(last) || c in Decimal(last') ==> IsDigit(c);
    LastSeparator(Decimal(first), Decimal(last), Decimal(first'), Decimal(last'), '-');
    DecimalInjective(first, first');
    DecimalInjective(last, last');
  }

  lemma {:induction false} RangeInjective(first: nat, last: Option<nat>, first': nat, last': Option<nat>)
    requires Range(first, last) == Range(first', last')
    ensures first == first' && last == last'
  {
    RangeHasNoMark(first, last);
    RangeHasNoMark(first', last');
    if last.Some? {
      PairInjective(first, last.value, first', last'.value);
    } else {
      DecimalInjective(first, first');
    }
  }

  /** What comes between the network's prefix and the suffix, seen from the whole name. */
  lemma {:induction false} NameParts(network: string, middle: string, network': string, first: nat, last: Option<nat>)
    requires '_' !in middle && PREFIX + network + "_" + middle + SUFFIX == FileName(network', first, last)
    ensures network == network' && middle == Range(first, last)
  {
    RangeHasNoMark(first, last);
    var a, b := PREFIX + network + "_" + middle, PREFIX + network' + "_" + Range(first, last);
    assert a == (a + SUFFIX)[..|a|] && b == (b + SUFFIX)[..|b|];
    LastSeparator(PREFIX + network, middle, PREFIX + network', Range(first, last), '_');
    assert network == (PREFIX + network)[|PREFIX|..] && network' == (PREFIX + network')[|PREFIX|..];
  }

  /** Different caches get different names, whatever the network's name looks like. */
  lemma {:induction false} NameInjective(network: string, first: nat, last: Option<nat>, network': string,
      first': nat, last': Option<nat>)
    requires FileName(network, first, last) == FileName(network', first', last')
    ensures network == network' && first == first' && last == last'
  {
    RangeHasNoMark(first, last);
    NameParts(network, Range(first, last), network', first', last');
    RangeInjective(first, last, first', last');
  }

  // ------------------------------------------------------------------------ scanning

  predicate EndsWith(s: string, suffix: string) {
    |suffix| <= |s| && s[|s| - |suffix|..] == suffix
  }

  /** The number a scan for a network takes from a file name. */
  function NumberIn(name: string, network: string): Option<nat> {
    var prefix := PREFIX + network + "_";
    if prefix <= name && EndsWith(name, SUFFIX) then
      SliceInBounds(name, prefix);
      ParseU64(name[|prefix|..|name| - |SUFFIX|])
    else None
  }

  /** The prefix and the suffix of a name never overlap, because the one ends in a character that
      the other does not have. */
  lemma {:induction false} SliceInBounds(name: string, prefix: string)
    requires prefix <= name && prefix != "" && prefix[|prefix| - 1] == '_' && EndsWith(name, SUFFIX)
    ensures |prefix| <= |name| - |SUFFIX|
  {
    var start := |name| - |SUFFIX|;
    assert forall j :: start <= j < |name| ==> name[j] == SUFFIX[j - start];
    assert forall k :: 0 <= k < |SUFFIX| ==> SUFFIX[k] != '_';
    assert name[|prefix| - 1] == '_';
  }

  /** The name has the part between the prefix for the network and the suffix. */
  ghost predicate Between(name: string, network: string, part: string) {
    name == "cache_" + network + "_" + part + ".json"
  }

  lemma {:induction false} NumberBetween(name: string, network: string, part: string)
    requires Between(name, network, part)
    ensures NumberIn(name, network) == ParseU64(part)
  {
    var prefix := PREFIX + network + "_";
    assert name == prefix + (part + SUFFIX) == (prefix + part) + SUFFIX;
    assert EndsWith(name, SUFFIX) && prefix <= name;
    assert name[|prefix|..|name| - |SUFFIX|] == part;
  }

  /** The scan takes a number from exactly the names that have it between prefix and suffix. */
  lemma {:induction false} NumberExactly(name: string, network: string, n: nat)
    ensures NumberIn(name, network) == Some(n) <==>
            exists part: string :: Between(name, network, part) && ParseU64(part) == Some(n)
  {
    if part :| Between(name, network, part) && ParseU64(part) == Some(n) {
      NumberBetween(name, network, part);
    } else if NumberIn(name, network) == Some(n) {
      var prefix := PREFIX + network + "_";
      SliceInBounds(name, prefix);
      SliceParts(name, prefix, SUFFIX);
      assert Between(name, network, name[|prefix|..|name| - |SUFFIX|]);
    }
  }

  lemma {:induction false} ParsedHasNoMark(s: string)
    requires ParseU64(s).Some?
    ensures '_' !in s && '-' !in s
  {
    assert AllDigits(if s[0] == '+' then s[1..] else s);
    forall i | 0 <= i < |s| ensures s[i] != '_' && s[i] != '-' {
      if s[0] == '+' && i > 0 {
        assert s[1..][i - 1] == s[i];
      }
    }
  }

  lemma {:induction false} SliceParts(name: string, prefix: string, suffix: string)
    requires prefix <= name && EndsWith(name, suffix) && |prefix| <= |name| - |suffix|
    ensures prefix + name[|prefix|..|name| - |suffix|] + suffix == name
  {
  }

  /** A scan that finds a number in a written cache's name has found what was printed. */
  lemma {:induction false} ScanFindsRange(network: string, first: nat, last: Option<nat>, requested: string)
    requires NumberIn(FileName(network, first, last), requested).Some?
    ensures network == requested && last.None?
  {
    var name, prefix := FileName(network, first, last), PREFIX + requested + "_";
    SliceInBounds(name, prefix);
    var middle := name[|prefix|..|name| - |SUFFIX|];
    SliceParts(name, prefix, SUFFIX);
    ParsedHasNoMark(middle);
    NameParts(requested, middle, network, first, last);
    RangeHasNoMark(first, last);
  }

  lemma {:induction false} ScanFindsOwn(network: string, first: nat)
    requires first < U64_LIMIT
    ensures NumberIn(FileName(network, first, None), network) == Some(first)
  {
    var name, prefix, body := FileName(network, first, None), PREFIX + network + "_", Decimal(first);
    assert Range(first, None) == body;
    assert name == prefix + (body + SUFFIX);
    assert EndsWith(name, SUFFIX);
    assert name[|prefix|..|name| - |SUFFIX|] == body;
    ParseDecimal(first);
  }

  /** A scan takes a number from a written cache's name exactly if the cache is of the requested
      network and of a single block, and then the number is the block's. */
  lemma {:induction false} ScanOfWritten(network: string, first: nat, last: Option<nat>, requested: string)
    requires first < U64_LIMIT
    ensures NumberIn(FileName(network, first, last), requested) ==
            if network == requested && last.None? then Some(first) else None
  {
    if network == requested && last.None? {
      ScanFindsOwn(network, first);
    } else if NumberIn(FileName(network, first, last), requested).Some? {
      ScanFindsRange(network, first, last, requested);
    }
  }

  // ------------------------------------------------------------------------ directories

  datatype Entry = Entry(name: string, isFile: bool)

  function NumbersIn(entries: seq<Entry>, network: string): seq<nat> {
    if entries == [] then []
    else
      var last := entries[|entries| - 1];
      NumbersIn(entries[..|entries| - 1], network) +
      if last.isFile && NumberIn(last.name, network).Some? then [NumberIn(last.name, network).value] else []
  }

  predicate Sorted(s: seq<nat>) {
    forall i, j :: 0 <= i < j < |s| ==> s[i] <= s[j]
  }

  method InsertSorted(s: seq<nat>, x: nat) returns (t: seq<nat>)
    requires Sorted(s)
    ensures Sorted(t) && multiset(t) == multiset(s) + multiset{x}
  {
    var i := 0;
    while i < |s| && s[i] <= x
      invariant i <= |s| && forall j :: 0 <= j < i ==> s[j] <= x
    {
      i := i + 1;
    }
    InsertAt(s, i, x);
    t := s[..i] + [x] + s[i..];
  }

  method SortUnstable(s: seq<nat>) returns (t: seq<nat>)
    ensures Sorted(t) && multiset(t) == multiset(s)
  {
    t := [];
    for i := 0 to |s|
      invariant Sorted(t) && multiset(t) == multiset(s[..i])
    {
      t := InsertSorted(t, s[i]);
      assert s[..i + 1] == s[..i] + [s[i]];
    }
    assert s[..|s|] == s;
  }

  method NumberPart(fileName: string, prefix: string, ghost network: string) returns (number: Option<nat>)
    requires prefix == PREFIX + network + "_"
    ensures number == NumberIn(fileName, network)
  {
    if prefix <= fileName && EndsWith(fileName, SUFFIX) {
      SliceInBounds(fileName, prefix);
      number := ParseU64(fileName[|prefix|..|fileName| - 5]);
    } else {
      number := None;
    }
  }

  predicate Found(e: Entry, network: string, n: nat) {
    e.isFile && NumberIn(e.name, network) == Some(n)
  }

  lemma {:induction false} FoundLast(entries: seq<Entry>, network: string, n: nat)
    requires entries != []
    ensures n in NumbersIn(entries, network) <==>
            n in NumbersIn(entries[..|entries| - 1], network) || Found(entries[|entries| - 1], network, n)
  {
  }

  lemma {:induction false} SomeOrLast<T>(items: seq<T>, init: seq<T>, last: T, has: T -> bool)
    requires items == init + [last]
    ensures (exists i :: 0 <= i < |items| && has(items[i])) <==>
            (exists i :: 0 <= i < |init| && has(init[i])) || has(last)
  {
    if i :| 0 <= i < |items| && has(items[i]) {
      assert i < |init| ==> init[i] == items[i];
    }
    if i :| 0 <= i < |init| && has(init[i]) {
      assert init[i] == items[i];
    }
    assert items[|init|] == last;
  }

  /** Some file's name gives the number. */
  predicate FoundIn(entries: seq<Entry>, network: string, n: nat) {
    exists i :: 0 <= i < |entries| && Found(entries[i], network, n)
  }

  lemma {:induction false} FoundInLast(entries: seq<Entry>, network: string, n: nat)
    requires entries != []
    ensures FoundIn(entries, network, n) <==>
            FoundIn(entries[..|entries| - 1], network, n) || Found(entries[|entries| - 1], network, n)
  {
    var init, last := entries[..|entries| - 1], entries[|entries| - 1];
    assert entries == init + [last];
    SomeOrLast(entries, init, last, e => Found(e, network, n));
  }

  lemma {:induction false} FoundExactly(entries: seq<Entry>, network: string, n: nat)
    ensures n in NumbersIn(entries, network) <==> FoundIn(entries, network, n)
  {
    if entries != [] {
      FoundExactly(entries[..|entries| - 1], network, n);
      FoundLast(entries, network, n);
      FoundInLast(entries, network, n);
    }
  }

  method GetBlockNumbersInCacheDir(entries: seq<Entry>, network: string) returns (blockNumbers: seq<nat>)
    ensures Sorted(blockNumbers) && multiset(blockNumbers) == multiset(NumbersIn(entries, network))
    ensures forall n :: n in blockNumbers <==> FoundIn(entries, network, n)
  {
    blockNumbers := [];
    var prefix := PREFIX + network + "_";
    for i := 0 to |entries|
      invariant blockNumbers == NumbersIn(entries[..i], network)
    {
      if entries[i].isFile {
        var number := NumberPart(entries[i].name, prefix, network);
        if number.Some? {
          blockNumbers := blockNumbers + [number.value];
        }
      }
      assert entries[..i + 1][..i] == entries[..i];
    }
    assert entries[..|entries|] == entries;
    forall n ensures n in NumbersIn(entries, network) <==> FoundIn(entries, network, n) {
      FoundExactly(entries, network, n);
    }
    ghost var found := blockNumbers;
    blockNumbers := SortUnstable(blockNumbers);
    assert forall n :: n in blockNumbers <==> n in multiset(blockNumbers);
    assert forall n :: n in found <==> n in multiset(found);
  }

  /** A cache as it is written: its network and its blocks' numbers. */
  datatype Cache = Cache(network: string, blocks: seq<nat>)

  /** The name under which a cache is written and deleted; none for a cache without blocks. */
  function NameOf(c: Cache): Option<string> {
    if c.blocks == [] then None
    else Some(FileName(c.network, c.blocks[0], if |c.blocks| == 1 then None else Some(c.blocks[|c.blocks| - 1])))
  }

  /** The listing of a directory to which the given caches have been written. */
  ghost predicate Listing(entries: seq<Entry>, caches: seq<Cache>) {
    |entries| == |caches| && forall i :: 0 <= i < |caches| ==>
      caches[i].blocks != [] && caches[i].blocks[0] < U64_LIMIT && entries[i] == Entry(NameOf(caches[i]).value, true)
  }

  function SingleBlocks(caches: seq<Cache>, network: string): seq<nat> {
    if caches == [] then []
    else
      var last := caches[|caches| - 1];
      SingleBlocks(caches[..|caches| - 1], network) +
      if last.network == network && |last.blocks| == 1 then last.blocks else []
  }

  lemma {:induction false} ScanOfCache(c: Cache, network: string)
    requires c.blocks != [] && c.blocks[0] < U64_LIMIT
    ensures var number := NumberIn(NameOf(c).value, network);
            (if number.Some? then [number.value] else []) ==
            if c.network == network && |c.blocks| == 1 then c.blocks else []
  {
    ScanOfWritten(c.network, c.blocks[0], if |c.blocks| == 1 then None else Some(c.blocks[|c.blocks| - 1]), network);
  }

  /** Scanning what has been written finds the single-block caches of the network, no others. */
  lemma {:induction false} ScanFindsSingleBlocks(entries: seq<Entry>, caches: seq<Cache>, network: string)
    requires Listing(entries, caches)
    ensures NumbersIn(entries, network) == SingleBlocks(caches, network)
  {
    if entries != [] {
      ScanFindsSingleBlocks(entries[..|entries| - 1], caches[..|caches| - 1], network);
      ScanOfCache(caches[|caches| - 1], network);
      assert entries[|entries| - 1].name == NameOf(caches[|caches| - 1]).value;
    }
  }

  /** The part is two numbers with a dash between them. */
  ghost predicate Joins(part: string, first: nat, last: nat) {
    exists from: string, to: string ::
      part == from + "-" + to && ParseU64(from) == Some(first) && ParseU64(to) == Some(last)
  }

  /** A cache's name gives its network and the numbers of its first and its last block. */
  lemma {:induction false} NameOfCache(c: Cache)
    requires c.blocks != [] && forall i :: 0 <= i < |c.blocks| ==> c.blocks[i] < U64_LIMIT
    ensures exists part: string :: Between(NameOf(c).value, c.network, part) &&
              if |c.blocks| == 1 then ParseU64(part) == Some(c.blocks[0])
              else Joins(part, c.blocks[0], c.blocks[|c.blocks| - 1])
  {
    var first, last := c.blocks[0], c.blocks[|c.blocks| - 1];
    ParseDecimal(first);
    ParseDecimal(last);
    if |c.blocks| == 1 {
      assert Between(NameOf(c).value, c.network, Decimal(first));
    } else {
      var part := Decimal(first) + "-" + Decimal(last);
      assert Between(NameOf(c).value, c.network, part);
    }
  }

  /** Caches that share a name are of the same network and begin and end with the same blocks. */
  lemma {:induction false} SameNameSameEnds(c: Cache, d: Cache)
    requires NameOf(c).Some? && NameOf(c) == NameOf(d)
    ensures c.network == d.network && c.blocks[0] == d.blocks[0] && (|c.blocks| == 1 <==> |d.blocks| == 1)
    ensures c.blocks[|c.blocks| - 1] == d.blocks[|d.blocks| - 1]
  {
    NameInjective(c.network, c.blocks[0], if |c.blocks| == 1 then None else Some(c.blocks[|c.blocks| - 1]),
                  d.network, d.blocks[0], if |d.blocks| == 1 then None else Some(d.blocks[|d.blocks| - 1]));
  }
}
