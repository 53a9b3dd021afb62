// Camera parameter dictionaries: the key-sorted CameraParameters and the insertion-ordered CameraParameters2,
// their flattened form and the sizes kept in them (libmocha/camera).

// The text form shared by both: "key=value;key=value".
module FlattenedParameters {
  datatype Pair = Pair(key: string, value: string)

  type Entries = seq<Pair>

  predicate Lacks(s: string, c: char) {
    forall i | 0 <= i < |s| :: s[i] != c
  }

  // strchr from the start of s: the first position of c, or |s|.
  function Find(s: string, c: char): (i: nat)
    ensures i <= |s| && (i < |s| ==> s[i] == c)
    ensures forall j | 0 <= j < i :: s[j] != c
  {
    if s == "" || s[0] == c then 0 else 1 + Find(s[1..], c)
  }

  lemma FindUnique(s: string, c: char, i: nat)
    requires i <= |s| && Lacks(s[..i], c) && (i < |s| ==> s[i] == c)
    ensures Find(s, c) == i
  {
    assert forall j | 0 <= j < i :: s[j] == s[..i][j];
  }

  function Text(p: Pair): string {
    p.key + "=" + p.value
  }

  function Flat(m: Entries): string {
    if m == [] then "" else if |m| == 1 then Text(m[0]) else Text(m[0]) + (";" + Flat(m[1..]))
  }

  predicate HasEntry(s: string) {
    Find(s, '=') < |s|
  }

  function AfterKey(s: string): string
    requires HasEntry(s)
  {
    s[Find(s, '=') + 1..]
  }

  predicate IsLast(s: string)
    requires HasEntry(s)
  {
    Find(AfterKey(s), ';') == |AfterKey(s)|
  }

  function Head(s: string): (p: Pair)
    requires HasEntry(s)
  {
    Pair(s[..Find(s, '=')], AfterKey(s)[..Find(AfterKey(s), ';')])
  }

  function Tail(s: string): (t: string)
    requires HasEntry(s) && !IsLast(s)
    ensures |t| < |s|
  {
    AfterKey(s)[Find(AfterKey(s), ';') + 1..]
  }

  function Parsed(s: string): Entries
    decreases |s|
  {
    if !HasEntry(s) then []
    else if IsLast(s) then [Head(s)]
    else [Head(s)] + Parsed(Tail(s))
  }

  predicate PairOk(p: Pair) {
    Lacks(p.key, '=') && Lacks(p.value, ';')
  }

  // What every reachable dictionary keeps: text that can be told apart again.
  predicate Separable(m: Entries) {
    forall i | 0 <= i < |m| :: PairOk(m[i])
  }

  lemma HeadOk(s: string)
    requires HasEntry(s)
    ensures PairOk(Head(s))
  {
  }

  lemma {:induction false} ParsedIsSeparable(s: string)
    ensures Separable(Parsed(s))
    decreases |s|
  {
    if HasEntry(s) {
      HeadOk(s);
      if !IsLast(s) {
        ParsedIsSeparable(Tail(s));
      }
    }
  }

  lemma {:induction false} ParsedFlat(m: Entries)
    requires Separable(m)
    ensures Parsed(Flat(m)) == m
  {
    if |m| == 1 {
      ParsedLast(m[0]);
      assert m == [m[0]];
    } else if m != [] {
      ParsedFlat(m[1..]);
      ParsedFirst(m[0], Flat(m[1..]));
      assert m == [m[0]] + m[1..];
    }
  }

  lemma ParsedLast(p: Pair)
    requires PairOk(p)
    ensures Parsed(Text(p)) == [p]
  {
    var s := Text(p);
    assert s[..|p.key|] == p.key && s[|p.key| + 1..] == p.value && p.value[..|p.value|] == p.value;
    FindUnique(s, '=', |p.key|);
    FindUnique(p.value, ';', |p.value|);
  }

  // A text that starts with a key: what Find and AfterKey make of it.
  lemma AfterKeyIs(key: string, rest: string)
    requires Lacks(key, '=')
    ensures var s := key + "=" + rest;
            Find(s, '=') == |key| < |s| && s[..|key|] == key && AfterKey(s) == rest
  {
    var s := key + "=" + rest;
    assert s[..|key|] == key && s[|key| + 1..] == rest;
    FindUnique(s, '=', |key|);
  }

  // A text that starts with a value and goes on.
  lemma AfterValueIs(value: string, more: string)
    requires Lacks(value, ';')
    ensures var s := value + ";" + more;
            Find(s, ';') == |value| < |s| && s[..|value|] == value && s[|value| + 1..] == more
  {
    var s := value + ";" + more;
    assert s[..|value|] == value && s[|value| + 1..] == more;
    FindUnique(s, ';', |value|);
  }

  lemma TextThen(p: Pair, more: string)
    ensures Text(p) + (";" + more) == p.key + "=" + (p.value + ";" + more)
  {
  }

  lemma ParsedFirst(p: Pair, more: string)
    requires PairOk(p)
    ensures Parsed(Text(p) + (";" + more)) == [p] + Parsed(more)
  {
    TextThen(p, more);
    AfterKeyIs(p.key, p.value + ";" + more);
    AfterValueIs(p.value, more);
  }

  // The text form gives the entries back, order and duplicates included, exactly when they are separable.
  lemma RoundTripExactly(m: Entries)
    ensures Parsed(Flat(m)) == m <==> Separable(m)
  {
    if Separable(m) {
      ParsedFlat(m);
    } else {
      ParsedIsSeparable(Flat(m));
    }
  }

  lemma Regroup(a: string, b: string, c: string)
    ensures a + (";" + (b + ";" + c)) == a + (";" + b) + ";" + c
  {
  }

  lemma Reassociate(a: string, b: string, c: string)
    ensures a + (b + c) == a + b + c
  {
  }

  lemma {:induction false} FlatSnoc(m: Entries, p: Pair)
    ensures Flat(m + [p]) == if m == [] then Text(p) else Flat(m) + ";" + Text(p)
  {
    if m == [] {
      assert m + [p] == [p];
    } else if |m| == 1 {
      assert (m + [p])[1..] == [p];
      Reassociate(Text(m[0]), ";", Text(p));
    } else {
      FlatSnoc(m[1..], p);
      assert (m + [p])[1..] == m[1..] + [p];
      Regroup(Text(m[0]), Flat(m[1..]), Text(p));
    }
  }

  // The flattening loop.
  method Flatten(m: Entries) returns (s: string)
    ensures s == Flat(m)
  {
    s := "";
    for i := 0 to |m|
      invariant s == if 0 < i < |m| then Flat(m[..i]) + ";" else Flat(m[..i])
    {
      FlatSnoc(m[..i], m[i]);
      assert m[..i + 1] == m[..i] + [m[i]];
      s := s + Text(m[i]);
      if i != |m| - 1 {
        s := s + ";";
      }
    }
    assert m[..|m|] == m;
  }

  // The entries seen so far and those in the text from the scan position on make up the whole.
  predicate ReadSoFar(s: string, seen: Entries, a: string) {
    Parsed(s) == seen + Parsed(a)
  }

  lemma ReadOne(s: string, seen: Entries, a: string)
    requires ReadSoFar(s, seen, a) && HasEntry(a)
    ensures IsLast(a) ==> Parsed(s) == seen + [Head(a)]
    ensures !IsLast(a) ==> ReadSoFar(s, seen + [Head(a)], Tail(a))
  {
    if !IsLast(a) {
      RegroupEntries(seen, Head(a), Parsed(Tail(a)));
    }
  }

  lemma RegroupEntries(m: Entries, p: Pair, n: Entries)
    ensures m + ([p] + n) == m + [p] + n
  {
  }

  // The reading loop of the insertion-ordered list: every entry is appended, repeated keys included.
  method ReadEntries(s: string) returns (m: Entries)
    ensures m == Parsed(s)
  {
    m := [];
    var a := s;
    while HasEntry(a)
      invariant ReadSoFar(s, m, a)
      decreases |a|
    {
      ReadOne(s, m, a);
      m := m + [Head(a)];
      if IsLast(a) {
        return;
      }
      a := Tail(a);
    }
  }
}

// Decimal text of 32-bit integers: "%d" and strtol in base 10.
module DecimalText {
  const INT_MIN: int := -0x8000_0000
  const INT_MAX: int := 0x7fff_ffff

  predicate IsDigit(c: char) {
    '0' <= c <= '9'
  }

  predicate IsSpace(c: char) {
    c == ' ' || c == '\t' || c == '\n' || c == '\r' || c == 11 as char || c == 12 as char
  }

  function DigitValue(c: char): nat {
    if IsDigit(c) then c as int - '0' as int else 0
  }

  function DigitChar(d: nat): (c: char)
    requires d < 10
    ensures IsDigit(c) && DigitValue(c) == d
  {
    ('0' as int + d) as char
  }

  predicate AllDigits(s: string) {
    forall i | 0 <= i < |s| :: IsDigit(s[i])
  }

  function PrintNat(n: nat): (s: string)
    ensures s != "" && AllDigits(s)
  {
    if n < 10 then [DigitChar(n)] else PrintNat(n / 10) + [DigitChar(n % 10)]
  }

  function Print(n: int): string {
    if n < 0 then "-" + PrintNat(-n) else PrintNat(n)
  }

  function Value(s: string): nat {
    if s == "" then 0 else 10 * Value(s[..|s| - 1]) + DigitValue(s[|s| - 1])
  }

  lemma {:induction false} ValuePrintNat(n: nat)
    ensures Value(PrintNat(n)) == n
  {
    if n >= 10 {
      ValuePrintNat(n / 10);
      assert PrintNat(n)[..|PrintNat(n)| - 1] == PrintNat(n / 10);
    }
  }

  lemma {:induction false} NoLeadingZero(n: nat)
    ensures PrintNat(n)[0] == '0' <==> n == 0
    ensures n == 0 ==> |PrintNat(n)| == 1
  {
    if n >= 10 {
      NoLeadingZero(n / 10);
    }
  }

  // The text of a number is its digits without a leading zero, behind a minus sign if it is negative.
  lemma PrintIsPlain(n: int)
    ensures Print(n) != "" && (Print(n)[0] == '-' <==> n < 0)
    ensures var digits := if n < 0 then Print(n)[1..] else Print(n);
            digits != "" && AllDigits(digits) && (digits[0] == '0' <==> n == 0) && (n == 0 ==> |digits| == 1)
  {
    NoLeadingZero(if n < 0 then -n else n);
    assert ("-" + PrintNat(if n < 0 then -n else n))[1..] == PrintNat(if n < 0 then -n else n);
  }

  function DigitRun(s: string): (k: nat)
    ensures k <= |s|
  {
    if s == "" || !IsDigit(s[0]) then 0 else 1 + DigitRun(s[1..])
  }

  function SpaceRun(s: string): (k: nat)
    ensures k <= |s|
  {
    if s == "" || !IsSpace(s[0]) then 0 else 1 + SpaceRun(s[1..])
  }

  function Saturate(n: int): (m: int)
    ensures INT_MIN <= m <= INT_MAX
  {
    if n < INT_MIN then INT_MIN else if n > INT_MAX then INT_MAX else n
  }

  datatype Scanned = Scanned(value: int, end: nat)

  // The digits at the start of s, which itself starts at position `at`; nothing is consumed without one.
  function ScanUnsigned(s: string, at: nat, negative: bool): (r: Scanned)
    ensures r.end <= at + |s|
  {
    var k := DigitRun(s);
    if k == 0 then Scanned(0, 0)
    else
      var n: int := Value(s[..k]);
      Scanned(Saturate(if negative then -n else n), at + k)
  }

  function ScanSigned(s: string, at: nat): (r: Scanned)
    ensures r.end <= at + |s|
  {
    if s != "" && (s[0] == '-' || s[0] == '+') then ScanUnsigned(s[1..], at + 1, s[0] == '-')
    else ScanUnsigned(s, at, false)
  }

  // strtol(s, &end, 10) on a machine whose long has 32 bits.
  function StrToL(s: string): (r: Scanned)
    ensures r.end <= |s|
  {
    ScanSigned(s[SpaceRun(s)..], SpaceRun(s))
  }

  // What a printed number is followed by when it is scanned.
  predicate Stops(rest: string) {
    rest == "" || !IsDigit(rest[0])
  }

  lemma {:induction false} DigitRunOf(ds: string, rest: string)
    requires AllDigits(ds) && Stops(rest)
    ensures DigitRun(ds + rest) == |ds|
  {
    if ds == "" {
      assert ds + rest == rest;
    } else {
      DigitRunOf(ds[1..], rest);
      assert (ds + rest)[1..] == ds[1..] + rest;
    }
  }

  lemma ScanGiven(s: string, ds: string, at: nat, negative: bool)
    requires ds != "" && DigitRun(s) == |ds| <= |s| && s[..|ds|] == ds
    ensures ScanUnsigned(s, at, negative)
         == Scanned(Saturate(if negative then 0 - Value(ds) else Value(ds)), at + |ds|)
  {
  }

  lemma ScanUnsignedOf(ds: string, rest: string, at: nat, negative: bool)
    requires ds != "" && AllDigits(ds) && Stops(rest)
    ensures ScanUnsigned(ds + rest, at, negative)
         == Scanned(Saturate(if negative then 0 - Value(ds) else Value(ds)), at + |ds|)
  {
    assert (ds + rest)[..|ds|] == ds;
    DigitRunOf(ds, rest);
    ScanGiven(ds + rest, ds, at, negative);
  }

  lemma NoSpace(s: string)
    requires s != "" && !IsSpace(s[0])
    ensures StrToL(s) == ScanSigned(s, 0)
  {
    assert s[0..] == s;
  }

  lemma PlainScan(s: string)
    requires s != "" && IsDigit(s[0])
    ensures StrToL(s) == ScanUnsigned(s, 0, false)
  {
    NoSpace(s);
  }

  lemma MinusScan(s: string)
    ensures StrToL("-" + s) == ScanUnsigned(s, 1, true)
  {
    NoSpace("-" + s);
    assert ("-" + s)[1..] == s;
  }

  lemma ConcatAssociates(a: string, b: string, c: string)
    ensures a + b + c == a + (b + c)
  {
  }

  lemma ScanPositive(ds: string, rest: string)
    requires ds != "" && AllDigits(ds) && Stops(rest) && Value(ds) <= INT_MAX
    ensures StrToL(ds + rest) == Scanned(Value(ds), |ds|)
  {
    assert (ds + rest)[0] == ds[0];
    PlainScan(ds + rest);
    ScanUnsignedOf(ds, rest, 0, false);
  }

  lemma ScanNegative(ds: string, rest: string)
    requires ds != "" && AllDigits(ds) && Stops(rest) && INT_MIN <= 0 - Value(ds)
    ensures StrToL("-" + (ds + rest)) == Scanned(0 - Value(ds), 1 + |ds|)
  {
    MinusScan(ds + rest);
    ScanUnsignedOf(ds, rest, 1, true);
  }

  // Printing and scanning are inverse on all 32-bit integers, whatever follows that is not a digit.
  lemma ScanPrinted(n: int, rest: string)
    requires INT_MIN <= n <= INT_MAX && Stops(rest)
    ensures StrToL(Print(n) + rest) == Scanned(n, |Print(n)|)
  {
    if n < 0 {
      ValuePrintNat(-n);
      ScanNegative(PrintNat(-n), rest);
      ConcatAssociates("-", PrintNat(-n), rest);
    } else {
      ValuePrintNat(n);
      ScanPositive(PrintNat(n), rest);
    }
  }

  // Numbers beyond 32 bits read as the nearest of the two ends.
  lemma ScanSaturates(ds: string, rest: string)
    requires ds != "" && AllDigits(ds) && Stops(rest)
    ensures StrToL(ds + rest) == Scanned(if Value(ds) > 2147483647 then 2147483647 else Value(ds), |ds|)
    ensures StrToL("-" + (ds + rest)) ==
            Scanned(if Value(ds) > 2147483648 then -2147483648 else 0 - Value(ds), 1 + |ds|)
  {
    assert (ds + rest)[0] == ds[0];
    PlainScan(ds + rest);
    ScanUnsignedOf(ds, rest, 0, false);
    MinusScan(ds + rest);
    ScanUnsignedOf(ds, rest, 1, true);
  }

  // One more position before the text moves the end of what was consumed, if anything was.
  function Moved(r: Scanned): Scanned {
    if r.end == 0 then r else Scanned(r.value, r.end + 1)
  }

  lemma ScanMoves(s: string, at: nat)
    ensures ScanSigned(s, at + 1) == Moved(ScanSigned(s, at))
  {
  }

  // White space in front, and only white space, is passed over.
  lemma SpaceIsSkipped(c: char, s: string)
    ensures c as int in {9, 10, 11, 12, 13, 32} ==> StrToL([c] + s) == Moved(StrToL(s))
    ensures c as int !in {9, 10, 11, 12, 13, 32} && c != '+' && c != '-' && !('0' <= c <= '9') ==>
              StrToL([c] + s) == Scanned(0, 0)
  {
    assert ([c] + s)[1..] == s;
    if IsSpace(c) {
      assert ([c] + s)[SpaceRun([c] + s)..] == s[SpaceRun(s)..];
      ScanMoves(s[SpaceRun(s)..], SpaceRun(s));
    } else {
      NoSpace([c] + s);
    }
  }

  // parse_pair: two integers around a delimiter, or failure with nothing written.
  datatype PairScan = Failure | Success(first: int, second: int, end: nat)

  function ParsePair(s: string, delim: char): PairScan {
    var w := StrToL(s);
    if w.end == |s| || s[w.end] != delim then Failure
    else
      var h := StrToL(s[w.end + 1..]);
      Success(w.value, h.value, w.end + 1 + h.end)
  }

  // Text without the delimiter is no pair.
  lemma PairNeedsDelimiter(s: string, delim: char)
    requires delim !in s
    ensures ParsePair(s, delim) == Failure
  {
    assert StrToL(s).end < |s| ==> s[StrToL(s).end] in s;
  }

  function PrintPair(w: int, h: int, delim: char): string {
    Print(w) + [delim] + Print(h)
  }

  lemma PairRoundTrip(w: int, h: int, delim: char)
    requires INT_MIN <= w <= INT_MAX && INT_MIN <= h <= INT_MAX && !IsDigit(delim)
    ensures ParsePair(PrintPair(w, h, delim), delim) == Success(w, h, |PrintPair(w, h, delim)|)
  {
    ScanPrinted(w, [delim] + Print(h));
    ScanPrinted(h, "");
    assert Print(h) + "" == Print(h);
    PairOf(Print(w), w, Print(h), h, delim);
  }

  lemma PairOf(a: string, w: int, b: string, h: int, delim: char)
    requires StrToL(a + ([delim] + b)) == Scanned(w, |a|) && StrToL(b) == Scanned(h, |b|)
    ensures ParsePair(a + [delim] + b, delim) == Success(w, h, |a + [delim] + b|)
  {
    var s := a + [delim] + b;
    assert s == a + ([delim] + b) && s[|a| + 1..] == b;
  }
}

// The insertion-ordered list behind CameraParameters2. Keys may repeat: reading text appends every entry.
module OrderedParameters {
  import opened FlattenedParameters

  datatype Option = None | Some(value: string)

  predicate SetAllowed(key: string, value: string) {
    Lacks(key, '=') && Lacks(key, ';') && Lacks(value, '=') && Lacks(value, ';')
  }

  // indexOfKey: the first entry with the key, or |m|.
  function IndexOf(m: Entries, key: string): (i: nat)
    ensures i <= |m| && (i < |m| ==> m[i].key == key)
    ensures forall j | 0 <= j < i :: m[j].key != key
  {
    if m == [] || m[0].key == key then 0 else 1 + IndexOf(m[1..], key)
  }

  function Lookup(m: Entries, key: string): Option {
    if IndexOf(m, key) == |m| then None else Some(m[IndexOf(m, key)].value)
  }

  // removeItem: the first occurrence only; nothing for an absent key.
  function Removed(m: Entries, key: string): Entries {
    var i := IndexOf(m, key);
    if i == |m| then m else m[..i] + m[i + 1..]
  }

  // replaceValueFor: remove, then append.
  function Put(m: Entries, key: string, value: string): Entries {
    Removed(m, key) + [Pair(key, value)]
  }

  // The entries after the first one with the key.
  function Later(m: Entries, key: string): Entries {
    var i := IndexOf(m, key);
    if i == |m| then [] else m[i + 1..]
  }

  lemma IndexOfConcat(a: Entries, b: Entries, key: string)
    ensures IndexOf(a + b, key) == if IndexOf(a, key) < |a| then IndexOf(a, key) else |a| + IndexOf(b, key)
  {
    var i, j := IndexOf(a, key), IndexOf(b, key);
    var k := if i < |a| then i else |a| + j;
    assert k < |a + b| ==> (a + b)[k].key == key;
    assert forall n | 0 <= n < k :: (a + b)[n].key != key;
  }

  lemma LookupConcat(a: Entries, b: Entries, key: string)
    ensures Lookup(a + b, key) == if Lookup(a, key).None? then Lookup(b, key) else Lookup(a, key)
  {
    IndexOfConcat(a, b, key);
  }

  lemma RemovedSplits(m: Entries, key: string)
    ensures Removed(m, key) == m[..IndexOf(m, key)] + Later(m, key)
    ensures Lookup(m[..IndexOf(m, key)], key) == None
  {
  }

  // What is read after a set is the value only when no second entry with the same key stands in front of it.
  lemma SetThenGetExactly(m: Entries, key: string, value: string)
    ensures Lookup(Put(m, key, value), key) ==
              if Lookup(Later(m, key), key).None? then Some(value) else Lookup(Later(m, key), key)
  {
    RemovedSplits(m, key);
    LookupConcat(m[..IndexOf(m, key)], Later(m, key), key);
    LookupConcat(Removed(m, key), [Pair(key, value)], key);
  }

  lemma DuplicateHidesSet()
    ensures Lookup(Put([Pair("a", "1"), Pair("a", "2")], "a", "3"), "a") == Some("2")
  {
    SetThenGetExactly([Pair("a", "1"), Pair("a", "2")], "a", "3");
    var m := [Pair("a", "1"), Pair("a", "2")];
    assert Removed(m, "a") == [Pair("a", "2")];
    LookupConcat([Pair("a", "2")], [Pair("a", "3")], "a");
  }

  // Setting or removing one key leaves every other key's value alone.
  lemma RemovedOthers(m: Entries, key: string, other: string)
    requires other != key
    ensures Lookup(Removed(m, key), other) == Lookup(m, other)
  {
    var i := IndexOf(m, key);
    if i < |m| {
      assert m == m[..i] + ([m[i]] + m[i + 1..]);
      LookupConcat(m[..i], [m[i]] + m[i + 1..], other);
      LookupConcat([m[i]], m[i + 1..], other);
      LookupConcat(m[..i], m[i + 1..], other);
    }
  }

  lemma PutOthers(m: Entries, key: string, value: string, other: string)
    requires other != key
    ensures Lookup(Put(m, key, value), other) == Lookup(m, other)
  {
    RemovedOthers(m, key, other);
    LookupConcat(Removed(m, key), [Pair(key, value)], other);
  }

  predicate Distinct(m: Entries) {
    forall i, j | 0 <= i < j < |m| :: m[i].key != m[j].key
  }

  // With distinct keys, the key set last is the last in order, and the order of the others is kept.
  lemma PutIsLatest(m: Entries, key: string, value: string, other: string)
    requires Distinct(m) && other != key && IndexOf(m, other) < |m|
    ensures Distinct(Put(m, key, value)) && Lookup(Put(m, key, value), key) == Some(value)
    ensures IndexOf(Put(m, key, value), other) < IndexOf(Put(m, key, value), key) == |Put(m, key, value)| - 1
  {
    DistinctPut(m, key, value);
    RemovedOthers(m, key, other);
    IndexOfConcat(Removed(m, key), [Pair(key, value)], other);
    IndexOfConcat(Removed(m, key), [Pair(key, value)], key);
    assert IndexOf(Removed(m, key), key) == |Removed(m, key)|;
  }

  lemma RemovedAt(m: Entries, key: string, j: nat)
    requires j < |Removed(m, key)|
    ensures Removed(m, key)[j] == if j < IndexOf(m, key) then m[j] else m[j + 1]
  {
  }

  lemma DistinctRemoved(m: Entries, key: string)
    requires Distinct(m)
    ensures Distinct(Removed(m, key)) && forall p | p in Removed(m, key) :: p.key != key
  {
    var rest := Removed(m, key);
    forall j | 0 <= j < |rest| ensures rest[j].key != key {
      RemovedAt(m, key, j);
    }
    forall i, j | 0 <= i < j < |rest| ensures rest[i].key != rest[j].key {
      RemovedAt(m, key, i);
      RemovedAt(m, key, j);
    }
  }

  lemma DistinctPut(m: Entries, key: string, value: string)
    requires Distinct(m)
    ensures Distinct(Put(m, key, value))
    ensures IndexOf(Removed(m, key), key) == |Removed(m, key)|
  {
    DistinctRemoved(m, key);
  }

  lemma SeparablePut(m: Entries, key: string, value: string)
    requires Separable(m) && SetAllowed(key, value)
    ensures Separable(Removed(m, key)) && Separable(Put(m, key, value))
  {
  }

  // compareSetOrder: the order of two set keys, or NAME_NOT_FOUND.
  function Order(m: Entries, a: string, b: string): (r: int)
    requires IndexOf(m, a) < |m| && IndexOf(m, b) < |m|
    ensures r == 0 <==> a == b
  {
    Compare(IndexOf(m, a), IndexOf(m, b))
  }

  function Compare(i: int, j: int): int {
    if i == j then 0 else if i < j then -1 else 1
  }

  // What stood before the removed entry keeps its place, what stood after it moves up by one.
  lemma IndexAfterRemoved(m: Entries, key: string, other: string)
    requires other != key && IndexOf(m, other) < |m|
    ensures IndexOf(Removed(m, key), other) ==
              IndexOf(m, other) - if IndexOf(m, key) < IndexOf(m, other) then 1 else 0
    ensures IndexOf(Removed(m, key), other) < |Removed(m, key)|
  {
    var i, j, rest := IndexOf(m, key), IndexOf(m, other), Removed(m, key);
    if i < |m| {
      var k := if i < j then j - 1 else j;
      RemovedAt(m, key, k);
      forall n | 0 <= n < k ensures rest[n].key != other {
        RemovedAt(m, key, n);
      }
      FirstIs(rest, other, k);
    }
  }

  lemma FirstIs(m: Entries, key: string, k: nat)
    requires k < |m| && m[k].key == key && forall n | 0 <= n < k :: m[n].key != key
    ensures IndexOf(m, key) == k
  {
    if k < IndexOf(m, key) {
      assert false;
    }
  }

  lemma IndexAfterPut(m: Entries, key: string, value: string, other: string)
    requires other != key && IndexOf(m, other) < |m|
    ensures IndexOf(Put(m, key, value), other) ==
              IndexOf(m, other) - if IndexOf(m, key) < IndexOf(m, other) then 1 else 0
    ensures IndexOf(Put(m, key, value), other) < |Put(m, key, value)|
  {
    IndexAfterRemoved(m, key, other);
    IndexOfConcat(Removed(m, key), [Pair(key, value)], other);
  }

  lemma PutIsFound(m: Entries, key: string, value: string)
    ensures IndexOf(Put(m, key, value), key) < |Put(m, key, value)|
  {
    IndexOfConcat(Removed(m, key), [Pair(key, value)], key);
  }

  // Setting a key leaves the order of the others alone,
  lemma SetKeepsOrder(m: Entries, key: string, value: string, a: string, b: string)
    requires a != key && b != key && IndexOf(m, a) < |m| && IndexOf(m, b) < |m|
    ensures var m' := Put(m, key, value);
            IndexOf(m', a) < |m'| && IndexOf(m', b) < |m'| && Order(m', a, b) == Order(m, a, b)
  {
    var i, j, k := IndexOf(m, a), IndexOf(m, b), IndexOf(m, key);
    IndexAfterPut(m, key, value, a);
    IndexAfterPut(m, key, value, b);
    IndexDiffers(m, a, key);
    IndexDiffers(m, b, key);
    CompareShifted(i, j, k);
    OrderIs(m, a, b);
    OrderIs(Put(m, key, value), a, b);
  }

  lemma IndexDiffers(m: Entries, a: string, key: string)
    requires a != key && IndexOf(m, a) < |m|
    ensures IndexOf(m, a) != IndexOf(m, key)
  {
  }

  lemma OrderIs(m: Entries, a: string, b: string)
    requires IndexOf(m, a) < |m| && IndexOf(m, b) < |m|
    ensures Order(m, a, b) == Compare(IndexOf(m, a), IndexOf(m, b))
  {
  }

  // Closing a gap at k keeps the order of the rest.
  lemma CompareShifted(i: int, j: int, k: int)
    requires i != k && j != k
    ensures Compare(i - if k < i then 1 else 0, j - if k < j then 1 else 0) == Compare(i, j)
  {
  }

  // and with distinct keys it then compares as later than every other.
  lemma SetIsLater(m: Entries, key: string, value: string, other: string)
    requires Distinct(m) && other != key && IndexOf(m, other) < |m|
    ensures var m' := Put(m, key, value);
            && IndexOf(m', other) < |m'| && IndexOf(m', key) < |m'|
            && Order(m', other, key) == -1 && Order(m', key, other) == 1
  {
    PutIsFound(m, key, value);
    PutIsLatest(m, key, value, other);
  }

  // Comparing the other way round turns the sign.
  lemma OrderTurns(m: Entries, a: string, b: string)
    requires IndexOf(m, a) < |m| && IndexOf(m, b) < |m|
    ensures Order(m, a, b) == -Order(m, b, a)
  {
  }
}

// The key-sorted vector behind CameraParameters: one entry a key.
module SortedParameters {
  import opened StringOrder
  import opened FlattenedParameters
  import opened OrderedParameters

  predicate AllAbove(m: Entries, key: string) {
    forall i | 0 <= i < |m| :: Less(key, m[i].key)
  }

  predicate SortedKeys(m: Entries) {
    m == [] || (AllAbove(m[1..], m[0].key) && SortedKeys(m[1..]))
  }

  // add / replaceValueFor: replace the value in place, or insert in order.
  function Insert(m: Entries, p: Pair): Entries {
    if m == [] then [p]
    else if p.key == m[0].key then [p] + m[1..]
    else if Less(p.key, m[0].key) then [p] + m
    else [m[0]] + Insert(m[1..], p)
  }

  lemma {:induction false} InsertAbove(m: Entries, p: Pair, key: string)
    requires AllAbove(m, key) && Less(key, p.key)
    ensures AllAbove(Insert(m, p), key)
  {
    if m != [] {
      InsertAbove(m[1..], p, key);
    }
  }

  lemma AboveLess(m: Entries, key: string, low: string)
    requires AllAbove(m, key) && Less(low, key)
    ensures AllAbove(m, low)
  {
    forall i | 0 <= i < |m| ensures Less(low, m[i].key) {
      LessIsTransitive(low, key, m[i].key);
    }
  }

  lemma {:induction false} InsertKeepsSorted(m: Entries, p: Pair)
    requires SortedKeys(m)
    ensures SortedKeys(Insert(m, p))
  {
    if m == [] {
      assert [p][1..] == [];
    } else if p.key == m[0].key {
      assert ([p] + m[1..])[1..] == m[1..];
    } else if Less(p.key, m[0].key) {
      assert ([p] + m)[1..] == m;
      AboveLess(m[1..], m[0].key, p.key);
      assert AllAbove(m, p.key);
    } else {
      LessIsTotal(p.key, m[0].key);
      InsertAbove(m[1..], p, m[0].key);
      InsertKeepsSorted(m[1..], p);
      assert ([m[0]] + Insert(m[1..], p))[1..] == Insert(m[1..], p);
    }
  }

  // Reading back: the key just written has its value, every other key the one it had.
  lemma {:induction false} LookupInsert(m: Entries, p: Pair, key: string)
    requires SortedKeys(m)
    ensures Lookup(Insert(m, p), key) == if key == p.key then Some(p.value) else Lookup(m, key)
  {
    if m == [] {
      LookupConcat([p], [], key);
    } else if p.key == m[0].key {
      LookupConcat([p], m[1..], key);
      LookupConcat([m[0]], m[1..], key);
      assert m == [m[0]] + m[1..];
    } else if Less(p.key, m[0].key) {
      LookupConcat([p], m, key);
    } else {
      LookupInsert(m[1..], p, key);
      LookupConcat([m[0]], Insert(m[1..], p), key);
      LookupConcat([m[0]], m[1..], key);
      assert m == [m[0]] + m[1..];
    }
  }

  function InsertAll(m: Entries, ps: Entries): Entries
    decreases |ps|
  {
    if ps == [] then m else InsertAll(Insert(m, ps[0]), ps[1..])
  }

  lemma {:induction false} InsertAllConcat(m: Entries, ps: Entries, qs: Entries)
    ensures InsertAll(m, ps + qs) == InsertAll(InsertAll(m, ps), qs)
    decreases |ps|
  {
    if ps == [] {
      assert ps + qs == qs;
    } else {
      InsertAllConcat(Insert(m, ps[0]), ps[1..], qs);
      assert (ps + qs)[1..] == ps[1..] + qs;
    }
  }

  lemma InsertAllSnoc(ps: Entries, p: Pair)
    ensures InsertAll([], ps + [p]) == Insert(InsertAll([], ps), p)
  {
    InsertAllConcat([], ps, [p]);
  }

  lemma {:induction false} InsertGreatest(m: Entries, p: Pair)
    requires forall i | 0 <= i < |m| :: Less(m[i].key, p.key)
    ensures Insert(m, p) == m + [p]
  {
    if m != [] {
      LessIsStrict(m[0].key, p.key);
      InsertGreatest(m[1..], p);
    }
  }

  lemma {:induction false} SortedPairwise(m: Entries, i: nat, j: nat)
    requires SortedKeys(m) && i < j < |m|
    ensures Less(m[i].key, m[j].key)
  {
    if i > 0 {
      SortedPairwise(m[1..], i - 1, j - 1);
    }
  }

  // Inserting sorted entries one by one only ever appends.
  lemma {:induction false} InsertAllSorted(m: Entries, n: nat)
    requires SortedKeys(m) && n <= |m|
    ensures InsertAll([], m[..n]) == m[..n]
  {
    if n > 0 {
      InsertAllSorted(m, n - 1);
      var before := m[..n - 1];
      forall i | 0 <= i < |before| ensures Less(before[i].key, m[n - 1].key) {
        SortedPairwise(m, i, n - 1);
      }
      InsertGreatest(before, m[n - 1]);
      InsertAllConcat([], m[..n - 1], [m[n - 1]]);
      assert m[..n] == m[..n - 1] + [m[n - 1]];
    }
  }

  lemma {:induction false} InsertAllKeeps(m: Entries, ps: Entries)
    requires SortedKeys(m) && Separable(m) && Separable(ps)
    ensures SortedKeys(InsertAll(m, ps)) && Separable(InsertAll(m, ps))
    decreases |ps|
  {
    if ps != [] {
      InsertKeepsSorted(m, ps[0]);
      InsertKeepsSeparable(m, ps[0]);
      InsertAllKeeps(Insert(m, ps[0]), ps[1..]);
    }
  }

  lemma {:induction false} InsertKeepsSeparable(m: Entries, p: Pair)
    requires Separable(m) && PairOk(p)
    ensures Separable(Insert(m, p))
  {
    if m != [] {
      InsertKeepsSeparable(m[1..], p);
    }
  }

  predicate Pairwise(m: Entries) {
    forall i, j | 0 <= i < j < |m| :: Less(m[i].key, m[j].key)
  }

  lemma {:induction false} PairwiseIsSorted(m: Entries)
    requires Pairwise(m)
    ensures SortedKeys(m)
  {
    if m != [] {
      PairwiseIsSorted(m[1..]);
    }
  }

  lemma RemovedKeepsSorted(m: Entries, key: string)
    requires SortedKeys(m)
    ensures SortedKeys(Removed(m, key))
  {
    forall i, j | 0 <= i < j < |m| ensures Less(m[i].key, m[j].key) {
      SortedPairwise(m, i, j);
    }
    PairwiseIsSorted(Removed(m, key));
  }

  lemma NotBelow(m: Entries, i: nat, key: string)
    requires SortedKeys(m) && i < |m| && (m[i].key == key || Less(m[i].key, key))
    ensures forall j | 0 <= j < i :: m[j].key != key
  {
    forall j | 0 <= j < i ensures m[j].key != key {
      SortedPairwise(m, j, i);
      LessIsStrict(m[j].key, m[i].key);
    }
  }

  lemma NotAbove(m: Entries, i: nat, key: string)
    requires SortedKeys(m) && i < |m| && Less(key, m[i].key)
    ensures forall j | i <= j < |m| :: m[j].key != key
  {
    forall j | i <= j < |m| ensures m[j].key != key {
      LessIsStrict(key, m[i].key);
      if i < j {
        SortedPairwise(m, i, j);
        LessIsStrict(m[i].key, m[j].key);
      }
    }
  }

  // Sorted keys are distinct, so removing the one entry leaves none.
  lemma RemovedIsGone(m: Entries, key: string)
    requires SortedKeys(m)
    ensures Lookup(Removed(m, key), key) == None
  {
    RemovedSplits(m, key);
    LookupConcat(m[..IndexOf(m, key)], Later(m, key), key);
    forall j | 0 <= j < |Later(m, key)| ensures Later(m, key)[j].key != key {
      var i := IndexOf(m, key);
      SortedPairwise(m, i, i + 1 + j);
      LessIsStrict(m[i].key, m[i + 1 + j].key);
    }
  }

  // SortedVector::indexOf: halve the range that can still hold the key.
  method SearchKey(m: Entries, key: string) returns (i: nat)
    requires SortedKeys(m)
    ensures i == IndexOf(m, key)
  {
    var lo, hi := 0, |m|;
    while lo < hi
      invariant lo <= hi <= |m|
      invariant forall j | 0 <= j < |m| && !(lo <= j < hi) :: m[j].key != key
    {
      i := (lo + hi) / 2;
      if m[i].key == key {
        NotBelow(m, i, key);
        return;
      } else if Less(m[i].key, key) {
        NotBelow(m, i, key);
        lo := i + 1;
      } else {
        LessIsTotal(m[i].key, key);
        NotAbove(m, i, key);
        hi := i;
      }
    }
    i := |m|;
  }

  // What reading text leaves in the vector.
  function ReadFrom(s: string): Entries {
    InsertAll([], Parsed(s))
  }

  // Flattening and reading back is the identity on every vector the class can hold.
  lemma SortedRoundTrip(m: Entries)
    requires SortedKeys(m) && Separable(m)
    ensures ReadFrom(Flat(m)) == m
  {
    ParsedFlat(m);
    InsertAllSorted(m, |m|);
    assert m[..|m|] == m;
  }

  lemma ReadFromIsValid(s: string)
    ensures SortedKeys(ReadFrom(s)) && Separable(ReadFrom(s))
  {
    ParsedIsSeparable(s);
    InsertAllKeeps([], Parsed(s));
  }

  // The reading loop of the sorted vector: every entry is added in its place, a repeated key replaced.
  method ReadSorted(s: string) returns (m: Entries)
    ensures m == ReadFrom(s)
  {
    m := [];
    var a := s;
    ghost var seen: Entries := [];
    while HasEntry(a)
      invariant ReadSoFar(s, seen, a) && m == InsertAll([], seen)
      decreases |a|
    {
      ReadOne(s, seen, a);
      InsertAllSnoc(seen, Head(a));
      m, seen := Insert(m, Head(a)), seen + [Head(a)];
      if IsLast(a) {
        return;
      }
      a := Tail(a);
    }
    assert seen == Parsed(s);
  }
}

module CameraParameterClasses {
  import opened FlattenedParameters
  import opened DecimalText
  import opened OrderedParameters
  import opened SortedParameters

  const KEY_PREVIEW_SIZE := "preview-size"

  datatype Size = Size(width: int, height: int)

  predicate IsInt(n: int) {
    INT_MIN <= n <= INT_MAX
  }

  function SizeText(size: Size): string {
    PrintPair(size.width, size.height, 'x')
  }

  // CameraParameters.get: an empty value reads as absent.
  function NonEmpty(text: Option): Option {
    if text == Some("") then None else text
  }

  // getPreviewSize on the stored text: -1x-1 when there is none or it does not parse.
  function SizeOf(text: Option): Size {
    if text.None? then Size(-1, -1)
    else
      var p := ParsePair(text.value, 'x');
      if p.Failure? then Size(-1, -1) else Size(p.first, p.second)
  }

  lemma NoSize(text: Option)
    requires text.None? || 'x' !in text.value
    ensures SizeOf(text).width == -1 && SizeOf(text).height == -1
  {
    if text.Some? {
      PairNeedsDelimiter(text.value, 'x');
    }
  }

  predicate Plain(s: string) {
    Lacks(s, '=') && Lacks(s, ';')
  }

  lemma PlainConcat(a: string, b: string)
    requires Plain(a) && Plain(b)
    ensures Plain(a + b)
  {
  }

  lemma PrintIsPlain(n: int)
    ensures Plain(Print(n)) && Print(n) != ""
  {
    if n < 0 {
      PlainConcat("-", PrintNat(-n));
    }
  }

  lemma SizeTextAllowed(size: Size)
    ensures SetAllowed(KEY_PREVIEW_SIZE, SizeText(size)) && SizeText(size) != ""
  {
    PrintIsPlain(size.width);
    PrintIsPlain(size.height);
    PlainConcat(Print(size.width), "x");
    PlainConcat(Print(size.width) + "x", Print(size.height));
    assert Plain(KEY_PREVIEW_SIZE);
  }

  // The text of a size reads back as that size, for all pairs of 32-bit integers.
  lemma SizeTextRoundTrip(size: Size)
    requires IsInt(size.width) && IsInt(size.height)
    ensures SizeOf(Some(SizeText(size))) == size
  {
    PairRoundTrip(size.width, size.height, 'x');
  }

  class CameraParameters2 {
    var entries: Entries

    constructor ()
      ensures entries == [] && Valid()
    {
      entries := [];
    }

    ghost predicate Valid()
      reads this
    {
      Separable(entries)
    }

    method Flatten() returns (s: string)
      requires Valid()
      ensures s == Flat(entries) && Parsed(s) == entries
    {
      ParsedFlat(entries);
      s := FlattenedParameters.Flatten(entries);
    }

    method Unflatten(s: string)
      modifies this
      ensures Valid() && entries == Parsed(s)
    {
      entries := ReadEntries(s);
      ParsedIsSeparable(s);
    }

    method Set(key: string, value: string)
      requires Valid()
      modifies this
      ensures Valid() && entries == if SetAllowed(key, value) then Put(old(entries), key, value) else old(entries)
    {
      if SetAllowed(key, value) {
        SeparablePut(entries, key, value);
        entries := Put(entries, key, value);
      }
    }

    method Get(key: string) returns (r: Option)
      ensures r == Lookup(entries, key)
    {
      var i := 0;
      while i < |entries| && entries[i].key != key
        invariant i <= |entries| && forall j | 0 <= j < i :: entries[j].key != key
      {
        i := i + 1;
      }
      r := if i == |entries| then None else Some(entries[i].value);
    }

    method Remove(key: string)
      requires Valid()
      modifies this
      ensures Valid() && entries == Removed(old(entries), key)
    {
      entries := Removed(entries, key);
    }

    // None when one of the keys is not set.
    method CompareSetOrder(a: string, b: string) returns (found: bool, order: int)
      ensures found <==> Lookup(entries, a).Some? && Lookup(entries, b).Some?
      ensures found ==> order == Order(entries, a, b)
    {
      found, order := IndexOf(entries, a) < |entries| && IndexOf(entries, b) < |entries|, 0;
      if found {
        order := Order(entries, a, b);
      }
    }

    method SetPreviewSize(size: Size)
      requires Valid()
      modifies this
      ensures Valid() && entries == Put(old(entries), KEY_PREVIEW_SIZE, SizeText(size))
      ensures IsInt(size.width) && IsInt(size.height) ==>
                var second := Lookup(Later(old(entries), KEY_PREVIEW_SIZE), KEY_PREVIEW_SIZE);
                SizeOf(Lookup(entries, KEY_PREVIEW_SIZE)) == if second.None? then size else SizeOf(second)
    {
      SizeTextAllowed(size);
      SetThenGetExactly(entries, KEY_PREVIEW_SIZE, SizeText(size));
      if IsInt(size.width) && IsInt(size.height) {
        SizeTextRoundTrip(size);
      }
      Set(KEY_PREVIEW_SIZE, SizeText(size));
    }

    method GetPreviewSize() returns (size: Size)
      ensures size == SizeOf(Lookup(entries, KEY_PREVIEW_SIZE))
      ensures Lookup(entries, KEY_PREVIEW_SIZE).None? ==> size.width == -1 && size.height == -1
    {
      var text := Get(KEY_PREVIEW_SIZE);
      if text.None? {
        NoSize(text);
      }
      size := SizeOf(text);
    }
  }

  class CameraParameters {
    var entries: Entries

    constructor ()
      ensures entries == [] && Valid()
    {
      entries := [];
    }

    ghost predicate Valid()
      reads this
    {
      SortedKeys(entries) && Separable(entries)
    }

    method Flatten() returns (s: string)
      requires Valid()
      ensures s == Flat(entries) && ReadFrom(s) == entries
    {
      SortedRoundTrip(entries);
      s := FlattenedParameters.Flatten(entries);
    }

    method Unflatten(s: string)
      modifies this
      ensures Valid() && entries == ReadFrom(s)
    {
      entries := ReadSorted(s);
      ReadFromIsValid(s);
    }

    method Set(key: string, value: string)
      requires Valid()
      modifies this
      ensures Valid() && (!SetAllowed(key, value) ==> entries == old(entries))
      ensures SetAllowed(key, value) ==> forall k ::
        Lookup(entries, k) == if k == key then Some(value) else Lookup(old(entries), k)
    {
      if SetAllowed(key, value) {
        InsertKeepsSorted(entries, Pair(key, value));
        InsertKeepsSeparable(entries, Pair(key, value));
        forall k
          ensures Lookup(Insert(entries, Pair(key, value)), k) == if k == key then Some(value) else Lookup(entries, k)
        {
          LookupInsert(entries, Pair(key, value), k);
        }
        entries := Insert(entries, Pair(key, value));
      }
    }

    method Remove(key: string)
      requires Valid()
      modifies this
      ensures Valid() && Lookup(entries, key) == None
      ensures forall k | k != key :: Lookup(entries, k) == Lookup(old(entries), k)
    {
      RemovedKeepsSorted(entries, key);
      RemovedIsGone(entries, key);
      forall k | k != key ensures Lookup(Removed(entries, key), k) == Lookup(entries, k) {
        RemovedOthers(entries, key, k);
      }
      entries := Removed(entries, key);
    }

    method Get(key: string) returns (r: Option)
      requires Valid()
      ensures r == NonEmpty(Lookup(entries, key))
    {
      var i := SearchKey(entries, key);
      r := if i < |entries| && entries[i].value != "" then Some(entries[i].value) else None;
    }

    method SetPreviewSize(size: Size)
      requires Valid()
      modifies this
      ensures Valid()
      ensures forall k ::
        Lookup(entries, k) == if k == KEY_PREVIEW_SIZE then Some(SizeText(size)) else Lookup(old(entries), k)
      ensures IsInt(size.width) && IsInt(size.height) ==> SizeOf(Lookup(entries, KEY_PREVIEW_SIZE)) == size
    {
      SizeTextAllowed(size);
      if IsInt(size.width) && IsInt(size.height) {
        SizeTextRoundTrip(size);
      }
      Set(KEY_PREVIEW_SIZE, SizeText(size));
    }

    method GetPreviewSize() returns (size: Size)
      requires Valid()
      ensures size == SizeOf(NonEmpty(Lookup(entries, KEY_PREVIEW_SIZE)))
      ensures Lookup(entries, KEY_PREVIEW_SIZE).None? ==> size.width == -1 && size.height == -1
    {
      var text := Get(KEY_PREVIEW_SIZE);
      if text.None? {
        NoSize(text);
      }
      size := SizeOf(text);
    }
  }
}
