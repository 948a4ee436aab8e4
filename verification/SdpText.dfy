/** Text primitives behind src/rtp/sdp.cpp: getline, trimming, find, sscanf and decimal numbers. */
module SdpText {
  import opened Common


  // ---------------------------------------------------------------- characters and search

  predicate IsDigit(c: char) {
    '0' <= c <= '9'
  }

  predicate IsSpace(c: char) {
    c == ' ' || 9 <= c as int <= 13
  }

  predicate IsTrimmed(c: char) {
    c == '\r' || c == '\n' || c == ' '
  }

  /** Trim: strip trailing CR, LF and blanks. */
  function Trim(s: string): string {
    if s != [] && IsTrimmed(s[|s| - 1]) then Trim(s[..|s| - 1]) else s
  }

  /** Index of the first c at or after `from`, or |s|. */
  function Find(s: string, c: char, from: nat): (i: nat)
    requires from <= |s|
    ensures from <= i <= |s| && (i < |s| ==> s[i] == c)
    ensures forall k :: from <= k < i ==> s[k] != c
    decreases |s| - from
  {
    if from == |s| || s[from] == c then from else Find(s, c, from + 1)
  }

  /** Index of the last c, if any. */
  function FindLast(s: string, c: char): (r: Option<nat>)
    ensures r.Some? ==> r.value < |s| && s[r.value] == c && forall k :: r.value < k < |s| ==> s[k] != c
    ensures r.None? ==> forall k :: 0 <= k < |s| ==> s[k] != c
  {
    if s == [] then None
    else if s[|s| - 1] == c then Some(|s| - 1)
    else FindLast(s[..|s| - 1], c)
  }

  /** std::getline until the end of the stream. */
  function Lines(s: string): seq<string>
    decreases |s|
  {
    if s == [] then []
    else
      var k := Find(s, '\n', 0);
      if k == |s| then [s] else [s[..k]] + Lines(s[k + 1..])
  }

  function Join(lines: seq<string>): string {
    if lines == [] then "" else lines[0] + "\r\n" + Join(lines[1..])
  }

  function WithCr(lines: seq<string>): seq<string> {
    if lines == [] then [] else [lines[0] + "\r"] + WithCr(lines[1..])
  }

  lemma {:induction false} LinesOfJoin(lines: seq<string>)
    requires forall i :: 0 <= i < |lines| ==> '\n' !in lines[i]
    ensures Lines(Join(lines)) == WithCr(lines)
  {
    if lines != [] {
      var s := Join(lines);
      var head, tail := lines[0] + "\r", Join(lines[1..]);
      assert s == head + "\n" + tail;
      assert s[|head|] == '\n' && s[..|head|] == head && s[|head| + 1..] == tail;
      assert forall k :: 0 <= k < |head| ==> s[k] != '\n';
      assert Find(s, '\n', 0) == |head|;
      LinesOfJoin(lines[1..]);
    }
  }

  predicate Clean(line: string) {
    line == [] || !IsTrimmed(line[|line| - 1])
  }

  lemma TrimCr(line: string)
    requires Clean(line)
    ensures Trim(line + "\r") == line
  {
    assert (line + "\r")[..|line|] == line;
  }

  // ---------------------------------------------------------------- numbers

  function Digit(n: nat): (c: char)
    requires n < 10
    ensures IsDigit(c)
  {
    ('0' as int + n) as char
  }

  /** operator<< of a non-negative integer. */
  function Decimal(n: nat): (s: string)
    ensures |s| > 0
  {
    if n < 10 then [Digit(n)] else Decimal(n / 10) + [Digit(n % 10)]
  }

  predicate AllDigits(s: string) {
    forall i :: 0 <= i < |s| ==> IsDigit(s[i])
  }

  function Number(s: string): nat
    requires AllDigits(s)
  {
    if s == [] then 0 else Number(s[..|s| - 1]) * 10 + (s[|s| - 1] as int - '0' as int)
  }

  lemma {:induction false} DecimalDigits(n: nat)
    ensures AllDigits(Decimal(n)) && Number(Decimal(n)) == n
  {
    if n < 10 {
      assert [Digit(n)][..0] == [];
    } else {
      DecimalDigits(n / 10);
      var s := Decimal(n / 10) + [Digit(n % 10)];
      assert s[..|s| - 1] == Decimal(n / 10);
    }
  }

  function DigitsOf(s: string): (d: string)
    ensures AllDigits(d)
  {
    if s == [] || !IsDigit(s[0]) then [] else [s[0]] + DigitsOf(s[1..])
  }

  lemma {:induction false} DigitsPrefix(d: string, rest: string)
    requires AllDigits(d) && (rest == [] || !IsDigit(rest[0]))
    ensures DigitsOf(d + rest) == d
  {
    if d == [] {
      assert d + rest == rest;
    } else {
      assert (d + rest)[1..] == d[1..] + rest;
      DigitsPrefix(d[1..], rest);
    }
  }

  function SkipSpace(s: string): string {
    if s != [] && IsSpace(s[0]) then SkipSpace(s[1..]) else s
  }

  /** strtol on the front of s: the value and what is left, or nothing if there is no number. */
  function ScanInt(s: string): Option<(int, string)> {
    var t := SkipSpace(s);
    var negative := t != [] && t[0] == '-';
    var u := if t != [] && (t[0] == '-' || t[0] == '+') then t[1..] else t;
    var d := DigitsOf(u);
    DigitsLength(u);
    if d == [] then None
    else Some((if negative then -(Number(d) as int) else Number(d), u[|d|..]))
  }

  lemma {:induction false} DigitsLength(s: string)
    ensures |DigitsOf(s)| <= |s|
  {
    if s != [] && IsDigit(s[0]) {
      DigitsLength(s[1..]);
    }
  }

  lemma ScanDecimal(n: nat, rest: string)
    requires rest == [] || !IsDigit(rest[0])
    ensures ScanInt(Decimal(n) + rest) == Some((n, rest))
  {
    var d := Decimal(n);
    DecimalDigits(n);
    DigitsPrefix(d, rest);
    assert (d + rest)[0] == d[0];
    assert (d + rest)[|d|..] == rest;
  }

  /** operator<< of an int. */
  function Printed(n: int): (s: string)
    ensures |s| > 0
  {
    if n < 0 then "-" + Decimal(-n) else Decimal(n)
  }

  lemma ScanPrinted(n: int, rest: string)
    requires rest == [] || !IsDigit(rest[0])
    ensures ScanInt(Printed(n) + rest) == Some((n, rest))
  {
    if n >= 0 {
      ScanDecimal(n, rest);
    } else {
      assert Printed(n) + rest == "-" + (Decimal(-n) + rest);
      ScanNegative(-n, rest);
    }
  }

  lemma ScanNegative(m: nat, rest: string)
    requires rest == [] || !IsDigit(rest[0])
    ensures ScanInt("-" + (Decimal(m) + rest)) == Some((-(m as int), rest))
  {
    var d := Decimal(m);
    var s := "-" + (d + rest);
    DecimalDigits(m);
    DigitsPrefix(d, rest);
    assert SkipSpace(s) == s && s[0] == '-' && s[1..] == d + rest;
    assert (d + rest)[|d|..] == rest;
  }

  /** A printed number starts with a sign or a digit and goes on with digits. */
  lemma PrintedForm(n: int)
    ensures !IsSpace(Printed(n)[0]) && !IsTrimmed(Printed(n)[|Printed(n)| - 1])
    ensures forall c :: c in Printed(n) ==> c == '-' || IsDigit(c)
  {
    var m: nat := if n < 0 then -n else n;
    DecimalDigits(m);
    assert forall c :: c in Decimal(m) ==> IsDigit(c);
    assert Printed(n)[|Printed(n)| - 1] == Decimal(m)[|Decimal(m)| - 1];
  }

  /** atoi: 0 if there is no number. */
  function ParseInt(s: string): int {
    var r := ScanInt(s);
    if r.Some? then r.value.0 else 0
  }

  // ---------------------------------------------------------------- sscanf

  /** A format is its literal characters, blanks, and %d. */
  datatype Directive = Literal(c: char) | Blank | Int

  function Scan(format: seq<Directive>, s: string): (values: seq<int>)
  {
    if format == [] then []
    else
      match format[0]
      case Literal(c) => if s != [] && s[0] == c then Scan(format[1..], s[1..]) else []
      case Blank => Scan(format[1..], SkipSpace(s))
      case Int =>
        var r := ScanInt(s);
        if r.None? then [] else [r.value.0] + Scan(format[1..], r.value.1)
  }

  function Literals(s: string): (f: seq<Directive>)
    ensures |f| == |s|
  {
    seq(|s|, i requires 0 <= i < |s| => Literal(s[i]))
  }

  lemma {:induction false} ScanLiterals(lit: string, format: seq<Directive>, s: string)
    ensures Scan(Literals(lit) + format, lit + s) == Scan(format, s)
  {
    var f := Literals(lit) + format;
    if lit == [] {
      assert f == format && lit + s == s;
    } else {
      assert Literals(lit)[1..] == Literals(lit[1..]);
      assert f[1..] == Literals(lit[1..]) + format && (lit + s)[1..] == lit[1..] + s;
      assert f[0] == Literal(lit[0]) && (lit + s)[0] == lit[0];
      ScanLiterals(lit[1..], format, s);
    }
  }

  lemma ScanNumber(n: int, format: seq<Directive>, rest: string)
    requires rest == [] || !IsDigit(rest[0])
    ensures Scan([Int] + format, Printed(n) + rest) == [n] + Scan(format, rest)
  {
    ScanPrinted(n, rest);
    assert ([Int] + format)[1..] == format;
  }

  lemma ScanLast(n: int)
    ensures Scan([Int], Printed(n)) == [n]
  {
    assert Printed(n) + [] == Printed(n);
    ScanPrinted(n, []);
    assert [Int][1..] == [];
  }

  lemma ScanBlank(format: seq<Directive>, s: string)
    requires s != [] && !IsSpace(s[0])
    ensures Scan([Blank] + format, " " + s) == Scan(format, s)
  {
    assert ([Blank] + format)[1..] == format;
    assert (" " + s)[1..] == s;
    assert SkipSpace(s) == s;
    assert SkipSpace(" " + s) == s;
  }

  // ---------------------------------------------------------------- words

  function WordOf(s: string): (w: string)
    ensures |w| <= |s|
  {
    if s == [] || IsSpace(s[0]) then [] else [s[0]] + WordOf(s[1..])
  }

  lemma {:induction false} SkipShortens(s: string)
    ensures |SkipSpace(s)| <= |s|
  {
    if s != [] && IsSpace(s[0]) {
      SkipShortens(s[1..]);
    }
  }

  /** Repeated extraction of whitespace-separated words. */
  function Words(s: string): seq<string>
    decreases |s|
  {
    var t := SkipSpace(s);
    SkipShortens(s);
    var w := WordOf(t);
    if w == [] then [] else [w] + Words(t[|w|..])
  }

  predicate IsWord(w: string) {
    w != [] && forall i :: 0 <= i < |w| ==> !IsSpace(w[i])
  }

  lemma {:induction false} WordPrefix(w: string, rest: string)
    requires (forall i :: 0 <= i < |w| ==> !IsSpace(w[i])) && (rest == [] || IsSpace(rest[0]))
    ensures WordOf(w + rest) == w
  {
    if w == [] {
      assert w + rest == rest;
    } else {
      assert (w + rest)[1..] == w[1..] + rest;
      WordPrefix(w[1..], rest);
    }
  }

  lemma TwoWords(a: string, b: string)
    requires IsWord(a) && IsWord(b)
    ensures Words(a + " " + b) == [a, b]
  {
    var s := a + " " + b;
    assert s == a + (" " + b) && s[0] == a[0];
    WordPrefix(a, " " + b);
    assert s[|a|..] == " " + b;
    assert (" " + b)[1..] == b && SkipSpace(b) == b && SkipSpace(" " + b) == b;
    assert b + [] == b;
    WordPrefix(b, []);
    assert b[|b|..] == [];
    assert Words([]) == [];
    assert Words(" " + b) == [b];
  }

  predicate StartsWith(s: string, prefix: string) {
    |prefix| <= |s| && s[..|prefix|] == prefix
  }

  lemma StartsWithSelf(prefix: string, rest: string)
    ensures StartsWith(prefix + rest, prefix) && (prefix + rest)[|prefix|..] == rest
  {
  }
}
