/**
 The string operations the source borrows from Rust's standard library, on sequences of characters, with the facts about
 them that several modules need: what `find` finds, how `split` works across a separator, and when lines written to a
 text are the lines read from it. Case folding is ASCII only; white space is the Unicode property.
 */
module Text {
  import opened Options

  /** Rust's `char::is_whitespace`: the Unicode White_Space property. */
  predicate IsWhitespace(c: char) {
    || '\t' <= c <= '\r' || c == ' ' || c == '\U{85}' || c == '\U{A0}' || c == '\U{1680}'
    || '\U{2000}' <= c <= '\U{200A}' || c == '\U{2028}' || c == '\U{2029}' || c == '\U{202F}' || c == '\U{205F}'
    || c == '\U{3000}'
  }

  /** The same characters one by one, by their code points. */
  lemma WhitespaceExactly(c: char)
    ensures IsWhitespace(c) <==>
      c as int in {0x09, 0x0A, 0x0B, 0x0C, 0x0D, 0x20, 0x85, 0xA0, 0x1680, 0x2000, 0x2001, 0x2002, 0x2003, 0x2004,
        0x2005, 0x2006, 0x2007, 0x2008, 0x2009, 0x200A, 0x2028, 0x2029, 0x202F, 0x205F, 0x3000}
  {
  }

  predicate IsDigit(c: char) {
    '0' <= c <= '9'
  }

  predicate IsAlphanumeric(c: char) {
    IsDigit(c) || 'a' <= c <= 'z' || 'A' <= c <= 'Z'
  }

  function LowerChar(c: char): char {
    if 'A' <= c <= 'Z' then (c as int + 32) as char else c
  }

  function UpperChar(c: char): char {
    if 'a' <= c <= 'z' then (c as int - 32) as char else c
  }

  function ToLower(s: string): (r: string)
    ensures |r| == |s|
  {
    seq(|s|, i requires 0 <= i < |s| => LowerChar(s[i]))
  }

  function ToUpper(s: string): (r: string)
    ensures |r| == |s|
  {
    seq(|s|, i requires 0 <= i < |s| => UpperChar(s[i]))
  }

  const DIGITS: string := "0123456789"
  const UPPER_CASE: string := "ABCDEFGHIJKLMNOPQRSTUVWXYZ"
  const LOWER_CASE: string := "abcdefghijklmnopqrstuvwxyz"

  /** The two alphabets are turned into each other, keeping their order, and everything else stays. */
  lemma CaseFolding(c: char, d: char)
    ensures c in UPPER_CASE ==> LowerChar(c) in LOWER_CASE && UpperChar(LowerChar(c)) == c
    ensures c in LOWER_CASE ==> UpperChar(c) in UPPER_CASE && LowerChar(UpperChar(c)) == c
    ensures c in UPPER_CASE && d in UPPER_CASE && c < d ==> LowerChar(c) < LowerChar(d)
    ensures c !in UPPER_CASE ==> LowerChar(c) == c
    ensures c !in LOWER_CASE ==> UpperChar(c) == c
    ensures IsAlphanumeric(c) <==> c in DIGITS || c in UPPER_CASE || c in LOWER_CASE
  {
    Alphabets(c);
    if 'A' <= c <= 'Z' {
      Alphabets(LowerChar(c));
    } else if 'a' <= c <= 'z' {
      Alphabets(UpperChar(c));
    }
  }

  lemma Alphabets(c: char)
    ensures c in DIGITS <==> '0' <= c <= '9'
    ensures c in UPPER_CASE <==> 'A' <= c <= 'Z'
    ensures c in LOWER_CASE <==> 'a' <= c <= 'z'
  {
    InDigits(c);
    InUpper(c);
    InLower(c);
  }

  lemma InDigits(c: char)
    ensures c in "0123456789" <==> '0' <= c <= '9'
  {
  }

  lemma InUpper(c: char)
    ensures c in "ABCDEFGHIJKLMNOPQRSTUVWXYZ" <==> 'A' <= c <= 'Z'
  {
  }

  lemma InLower(c: char)
    ensures c in "abcdefghijklmnopqrstuvwxyz" <==> 'a' <= c <= 'z'
  {
  }

  /** Drops leading characters of `set_`. */
  function TrimStartOf(s: string, set_: string): string {
    if s != [] && s[0] in set_ then TrimStartOf(s[1..], set_) else s
  }

  function TrimEndOf(s: string, set_: string): string {
    if s != [] && s[|s| - 1] in set_ then TrimEndOf(s[..|s| - 1], set_) else s
  }

  function TrimStart(s: string): string {
    if s != [] && IsWhitespace(s[0]) then TrimStart(s[1..]) else s
  }

  function TrimEnd(s: string): string {
    if s != [] && IsWhitespace(s[|s| - 1]) then TrimEnd(s[..|s| - 1]) else s
  }

  function Trim(s: string): string {
    TrimEnd(TrimStart(s))
  }

  predicate EndsWith(s: string, suffix: string) {
    |suffix| <= |s| && s[|s| - |suffix|..] == suffix
  }

  /** The first place where `needle` occurs. */
  function Find(s: string, needle: string): (r: Option<nat>)
    ensures r.Some? ==> r.value + |needle| <= |s| && s[r.value..r.value + |needle|] == needle
  {
    if needle <= s then Some(0)
    else if s == [] then None
    else
      var rest := Find(s[1..], needle);
      if rest.Some? then Some(rest.value + 1) else None
  }

  lemma {:induction false} FindIsFirst(s: string, needle: string)
    ensures
      var r := Find(s, needle);
      && (r.Some? ==> forall j :: 0 <= j < r.value ==> !(needle <= s[j..]))
      && (r.None? ==> forall j :: 0 <= j <= |s| ==> !(needle <= s[j..]))
  {
    assert s[0..] == s;
    if s != [] && !(needle <= s) {
      FindIsFirst(s[1..], needle);
      assert forall j :: 1 <= j <= |s| ==> s[1..][j - 1..] == s[j..];
    }
  }

  lemma FindIs(s: string, needle: string, i: nat)
    requires i <= |s| && needle <= s[i..] && needle != []
    requires forall j :: 0 <= j < i ==> !(needle <= s[j..])
    ensures Find(s, needle) == Some(i)
  {
    var r := Find(s, needle);
    if r.None? {
      NotInside(s, needle, i);
    } else {
      FindIsThere(s, needle, r.value);
      if i < r.value {
        NotEarlier(s, needle, i);
      }
    }
  }

  lemma NotEarlier(s: string, needle: string, j: nat)
    requires Find(s, needle).Some? && j < Find(s, needle).value
    ensures !(needle <= s[j..])
  {
    FindIsFirst(s, needle);
  }

  lemma FindIsThere(s: string, needle: string, at: nat)
    requires Find(s, needle) == Some(at)
    ensures at + |needle| <= |s| && needle <= s[at..]
  {
    assert s[at..][..|needle|] == s[at..at + |needle|];
  }

  lemma NotInside(s: string, needle: string, j: nat)
    requires Find(s, needle).None? && j <= |s|
    ensures !(needle <= s[j..])
  {
    FindIsFirst(s, needle);
  }

  predicate Contains(s: string, needle: string) {
    needle <= s || (s != [] && Contains(s[1..], needle))
  }

  /** The phrase stands somewhere in the text. */
  ghost predicate Says(s: string, phrase: string) {
    exists j :: 0 <= j <= |s| && phrase <= s[j..]
  }

  lemma {:induction false} ContainsExactlyWhen(s: string, needle: string)
    ensures Contains(s, needle) <==> Says(s, needle)
  {
    assert s[0..] == s;
    if s != [] && !(needle <= s) {
      ContainsExactlyWhen(s[1..], needle);
      assert forall j :: 1 <= j <= |s| ==> s[1..][j - 1..] == s[j..];
    }
  }

  /** `replace(needle, "")`: drops the non-overlapping occurrences found from the left. */
  function RemoveAll(s: string, needle: string): string
    requires needle != []
    decreases |s|
  {
    if s == [] then []
    else if needle <= s then RemoveAll(s[|needle|..], needle)
    else [s[0]] + RemoveAll(s[1..], needle)
  }

  /** The longest prefix made of digits. */
  function LeadingDigits(s: string): (r: string)
    ensures r <= s && forall c :: c in r ==> IsDigit(c)
  {
    if s != [] && IsDigit(s[0]) then [s[0]] + LeadingDigits(s[1..]) else []
  }

  function DigitsValue(s: string): nat
    requires forall c :: c in s ==> IsDigit(c)
  {
    if s == [] then 0
    else
      assert IsDigit(s[|s| - 1]);
      DigitsValue(s[..|s| - 1]) * 10 + (s[|s| - 1] as int - '0' as int)
  }

  /** `str::parse` for an unsigned type holding values up to `max`. */
  function ParseUnsigned(s: string, max: nat): Option<nat> {
    var digits := if s != [] && s[0] == '+' then s[1..] else s;
    if digits != [] && (forall c :: c in digits ==> IsDigit(c)) && DigitsValue(digits) <= max
    then Some(DigitsValue(digits))
    else None
  }

  /** `split(sep)`: always at least one piece. */
  function Split(s: string, sep: char): (r: seq<string>)
    ensures |r| > 0
  {
    if s == [] then [[]]
    else
      var rest := Split(s[1..], sep);
      if s[0] == sep then [[]] + rest else [[s[0]] + rest[0]] + rest[1..]
  }

  lemma {:induction false} SplitAt(a: string, rest: string, sep: char)
    requires sep !in a
    ensures Split(a + [sep] + rest, sep) == [a] + Split(rest, sep)
  {
    var s := a + [sep] + rest;
    if a == [] {
      assert s[1..] == rest;
    } else {
      assert s[1..] == a[1..] + [sep] + rest;
      SplitAt(a[1..], rest, sep);
      assert [a[0]] + a[1..] == a;
    }
  }

  lemma {:induction false} SplitNone(a: string, sep: char)
    requires sep !in a
    ensures Split(a, sep) == [a]
  {
    if a != [] {
      SplitNone(a[1..], sep);
      assert [a[0]] + a[1..] == a;
    }
  }

  // ---- Lines --------------------------------------------------------------------------------

  /** Drops one carriage return at the end. */
  function ChopReturn(s: string): string {
    if s != [] && s[|s| - 1] == '\r' then s[..|s| - 1] else s
  }

  /** `str::lines`: cut after each line feed, which goes with the carriage return before it. */
  function Lines(text: string): seq<string>
    decreases |text|
  {
    if text == [] then []
    else
      var feed := Find(text, "\n");
      if feed.None? then [text] else [ChopReturn(text[..feed.value])] + Lines(text[feed.value + 1..])
  }

  /** Each line with a line feed after it. */
  function Unlines(lines: seq<string>): string {
    if lines == [] then [] else lines[0] + "\n" + Unlines(lines[1..])
  }

  /** What stays one line when it is written to a text and read again. */
  predicate IsOneLine(s: string) {
    '\n' !in s && ChopReturn(s) == s
  }

  lemma {:induction false} UnlinesConcat(a: seq<string>, b: seq<string>)
    ensures Unlines(a + b) == Unlines(a) + Unlines(b)
  {
    if a == [] {
      assert a + b == b;
    } else {
      assert (a + b)[1..] == a[1..] + b;
      UnlinesConcat(a[1..], b);
    }
  }

  lemma UnlinesOne(line: string)
    ensures Unlines([line]) == line + "\n"
  {
    assert [line][1..] == [];
  }

  lemma {:induction false} FindFeed(line: string, rest: string)
    requires '\n' !in line
    ensures Find(line + "\n" + rest, "\n") == Some(|line|)
  {
    var s := line + "\n" + rest;
    if line != [] {
      assert s[1..] == line[1..] + "\n" + rest;
      assert s[0] == line[0];
      FindFeed(line[1..], rest);
    }
  }

  /** Lines that hold no line feed and end in no carriage return are read as they were written. */
  lemma {:induction false} LinesOfUnlines(lines: seq<string>)
    requires forall i :: 0 <= i < |lines| ==> IsOneLine(lines[i])
    ensures Lines(Unlines(lines)) == lines
  {
    if lines != [] {
      var rest := Unlines(lines[1..]);
      var text := lines[0] + "\n" + rest;
      FindFeed(lines[0], rest);
      assert text[..|lines[0]|] == lines[0] && text[|lines[0]| + 1..] == rest;
      LinesOfUnlines(lines[1..]);
    }
  }

  lemma NoFeedBefore(text: string, at: nat)
    requires Find(text, "\n") == Some(at)
    ensures at < |text| && '\n' !in text[..at]
  {
    FindIsFirst(text, "\n");
    forall j | 0 <= j < at ensures text[j] != '\n' {
      assert !("\n" <= text[j..]);
    }
  }

  lemma NoFeedAtAll(text: string)
    requires Find(text, "\n").None?
    ensures '\n' !in text
  {
    FindIsFirst(text, "\n");
    forall j | 0 <= j < |text| ensures text[j] != '\n' {
      assert !("\n" <= text[j..]);
    }
  }

  /** No line that is read holds a line feed. */
  lemma {:induction false} LinesHaveNoFeed(text: string)
    ensures forall i :: 0 <= i < |Lines(text)| ==> '\n' !in Lines(text)[i]
    decreases |text|
  {
    if text != [] {
      var feed := Find(text, "\n");
      if feed.None? {
        NoFeedAtAll(text);
      } else {
        NoFeedBefore(text, feed.value);
        LinesHaveNoFeed(text[feed.value + 1..]);
      }
    }
  }

  function Join(parts: seq<string>, sep: string): string {
    if parts == [] then []
    else if |parts| == 1 then parts[0]
    else parts[0] + sep + Join(parts[1..], sep)
  }

  /** Decimal digits of `n`, as `format!("{}", n)` writes them. */
  function Decimal(n: nat): (r: string)
    ensures |r| > 0 && forall c :: c in r ==> IsDigit(c)
    ensures DigitsValue(r) == n
  {
    var last := ('0' as int + n % 10) as char;
    if n < 10 then [last]
    else
      var front := Decimal(n / 10);
      assert (front + [last])[..|front|] == front;
      front + [last]
  }
}
