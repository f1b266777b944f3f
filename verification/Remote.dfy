/**
 Reading JSON out of noisy shell output (`crates/orrch-core/src/remote.rs`): stripping ANSI escape sequences, then
 scanning for balanced objects. Text is a sequence of bytes.
 */
module Remote {
  import opened Options

  type Byte = x: int | 0 <= x < 256
  type Bytes = seq<Byte>

  const BEL: Byte := 0x07
  const ESC: Byte := 0x1B
  const QUOTE: Byte := 0x22
  const COMMA: Byte := 0x2C
  const COLON: Byte := 0x3A
  const LBRACKET: Byte := 0x5B
  const BACKSLASH: Byte := 0x5C
  const RBRACKET: Byte := 0x5D
  const LBRACE: Byte := 0x7B
  const RBRACE: Byte := 0x7D

  // ---- Escape sequences ---------------------------------------------------------------------

  predicate IsFinal(b: Byte) {
    0x40 <= b <= 0x7E
  }

  /** `]`, `P`, `X`, `^` and `_` introduce a string that runs to a terminator. */
  predicate IsStringIntroducer(b: Byte) {
    b == 0x5D || b == 0x50 || b == 0x58 || b == 0x5E || b == 0x5F
  }

  /** `(`, `)`, `*` and `+` are followed by a character set. */
  predicate IsCharsetIntroducer(b: Byte) {
    b == 0x28 || b == 0x29 || b == 0x2A || b == 0x2B
  }

  /** What is left after the final byte of a control sequence. */
  function AfterControl(s: Bytes): (r: Bytes)
    ensures |r| <= |s|
  {
    if s == [] then [] else if IsFinal(s[0]) then s[1..] else AfterControl(s[1..])
  }

  /** What is left after BEL or ST. */
  function AfterString(s: Bytes): (r: Bytes)
    ensures |r| <= |s|
  {
    if s == [] then []
    else if s[0] == BEL then s[1..]
    else if s[0] == ESC && |s| > 1 && s[1] == BACKSLASH then s[2..]
    else AfterString(s[1..])
  }

  /** What is left after the escape sequence `s` begins with. */
  function AfterEscape(s: Bytes): (r: Bytes)
    requires |s| > 1 && s[0] == ESC
    ensures |r| < |s|
  {
    if s[1] == LBRACKET then AfterControl(s[2..])
    else if IsStringIntroducer(s[1]) then AfterString(s[2..])
    else if IsCharsetIntroducer(s[1]) && |s| > 2 then s[3..]
    else s[2..]
  }

  function Strip(s: Bytes): Bytes
    decreases |s|
  {
    if s == [] then []
    else if s[0] == ESC && |s| > 1 then Strip(AfterEscape(s))
    else if s[0] == BEL then Strip(s[1..])
    else [s[0]] + Strip(s[1..])
  }

  method StripAnsi(bytes: Bytes) returns (out: Bytes)
    ensures out == Strip(bytes)
  {
    out := [];
    var i := 0;
    while i < |bytes|
      invariant 0 <= i <= |bytes|
      invariant out + Strip(bytes[i..]) == Strip(bytes)
    {
      var b := bytes[i];
      if b == ESC && i + 1 < |bytes| {
        i := SkipEscape(bytes, i);
      } else if b == BEL {
        i := i + 1;
      } else {
        out := out + [b];
        i := i + 1;
      }
    }
  }

  method SkipEscape(bytes: Bytes, start: nat) returns (i: nat)
    requires start + 1 < |bytes| && bytes[start] == ESC
    ensures start < i <= |bytes| && bytes[i..] == AfterEscape(bytes[start..])
  {
    var next := bytes[start + 1];
    i := start + 2;
    assert bytes[start..][2..] == bytes[i..];
    if next == LBRACKET {
      while i < |bytes| && !IsFinal(bytes[i])
        invariant start + 2 <= i <= |bytes|
        invariant AfterControl(bytes[i..]) == AfterControl(bytes[start + 2..])
      {
        i := i + 1;
      }
      if i < |bytes| {
        i := i + 1;
      }
    } else if IsStringIntroducer(next) {
      while i < |bytes|
        invariant start + 2 <= i <= |bytes|
        invariant AfterString(bytes[i..]) == AfterString(bytes[start + 2..])
      {
        if bytes[i] == BEL {
          i := i + 1;
          return;
        }
        if bytes[i] == ESC && i + 1 < |bytes| && bytes[i + 1] == BACKSLASH {
          i := i + 2;
          return;
        }
        i := i + 1;
      }
    } else if IsCharsetIntroducer(next) && i < |bytes| {
      assert bytes[start..][3..] == bytes[i + 1..];
      i := i + 1;
    }
  }

  /** No bell, and no escape except as the very last byte. */
  predicate Clean(s: Bytes) {
    forall k :: 0 <= k < |s| ==> s[k] != BEL && (s[k] == ESC ==> k == |s| - 1)
  }

  lemma {:induction false} StripIsClean(s: Bytes)
    ensures Clean(Strip(s))
    decreases |s|
  {
    if s != [] {
      if s[0] == ESC && |s| > 1 {
        StripIsClean(AfterEscape(s));
      } else {
        StripIsClean(s[1..]);
      }
    }
  }

  lemma {:induction false} CleanIsKept(s: Bytes)
    requires Clean(s)
    ensures Strip(s) == s
  {
    if s != [] {
      forall k | 0 <= k < |s[1..]|
        ensures s[1..][k] != BEL && (s[1..][k] == ESC ==> k == |s[1..]| - 1)
      {
        assert s[1..][k] == s[k + 1];
      }
      CleanIsKept(s[1..]);
    }
  }

  lemma StripIdempotent(s: Bytes)
    ensures Strip(Strip(s)) == Strip(s)
  {
    StripIsClean(s);
    CleanIsKept(Strip(s));
  }

  // ---- The brace scanner --------------------------------------------------------------------

  function Later(n: nat, r: Option<nat>): Option<nat> {
    if r.Some? then Some(n + r.value) else None
  }

  /** The scanner's variables. */
  datatype Pos = Pos(depth: int, inString: bool, escape: bool)

  const START: Pos := Pos(0, false, false)

  function Next(at: Pos, b: Byte): Pos {
    if at.inString then
      if at.escape then at.(escape := false)
      else if b == BACKSLASH then at.(escape := true)
      else at.(inString := b != QUOTE)
    else if b == QUOTE then at.(inString := true)
    else if b == LBRACE then at.(depth := at.depth + 1)
    else if b == RBRACE then at.(depth := at.depth - 1)
    else at
  }

  predicate Closes(at: Pos, b: Byte) {
    !at.inString && b == RBRACE && at.depth == 1
  }

  /** How many bytes reach the brace that closes the object. */
  function Scan(s: Bytes, at: Pos): (r: Option<nat>)
    decreases |s|
    ensures r.Some? ==> 0 < r.value <= |s|
  {
    if s == [] then None
    else if Closes(at, s[0]) then Some(1)
    else Later(1, Scan(s[1..], Next(at, s[0])))
  }

  /** Where the first opening brace is, or the length of the text. */
  function BraceAt(s: Bytes): (i: nat)
    ensures i <= |s|
    ensures i < |s| ==> s[i] == LBRACE
  {
    if s == [] || s[0] == LBRACE then 0 else 1 + BraceAt(s[1..])
  }

  /** Where the first balanced object begins and ends. */
  function FirstObject(s: Bytes): (r: Option<(nat, nat)>)
    ensures r.Some? ==> r.value.0 < r.value.1 <= |s|
  {
    var start := BraceAt(s);
    var n := Scan(s[start..], START);
    if n.None? then None else Some((start, start + n.value))
  }

  function Objects(s: Bytes): seq<Bytes>
    decreases |s|
  {
    var found := FirstObject(s);
    if found.None? then [] else [s[found.value.0..found.value.1]] + Objects(s[found.value.1..])
  }

  /** The objects found in noisy text. */
  function JsonObjects(text: Bytes): seq<Bytes> {
    Objects(Strip(text))
  }

  method FindJsonObject(bytes: Bytes) returns (r: Option<(nat, nat)>)
    ensures r == FirstObject(bytes)
  {
    var start := 0;
    while start < |bytes| && bytes[start] != LBRACE
      invariant 0 <= start <= |bytes|
      invariant BraceAt(bytes) == start + BraceAt(bytes[start..])
    {
      start := start + 1;
    }
    if start == |bytes| {
      return None;
    }
    var end := ObjectEnd(bytes, start);
    r := if end.None? then None else Some((start, end.value));
  }

  /** Counts braces outside strings from `start` until they balance. */
  method ObjectEnd(bytes: Bytes, start: nat) returns (r: Option<nat>)
    requires start <= |bytes|
    ensures r == Later(start, Scan(bytes[start..], START))
  {
    var depth, inString, escape := 0, false, false;
    var i := start;
    while i < |bytes|
      invariant start <= i <= |bytes|
      invariant Scan(bytes[start..], START) == Later(i - start, Scan(bytes[i..], Pos(depth, inString, escape)))
    {
      var b := bytes[i];
      assert bytes[i..][1..] == bytes[i + 1..];
      if inString {
        if escape {
          escape := false;
        } else if b == BACKSLASH {
          escape := true;
        } else if b == QUOTE {
          inString := false;
        }
      } else {
        if b == QUOTE {
          inString := true;
        } else if b == LBRACE {
          depth := depth + 1;
        } else if b == RBRACE {
          depth := depth - 1;
          if depth == 0 {
            return Some(i + 1);
          }
        }
      }
      i := i + 1;
    }
    return None;
  }

  lemma ObjectsStep(s: Bytes, start: nat, end: nat)
    requires FirstObject(s) == Some((start, end))
    ensures Objects(s) == [s[start..end]] + Objects(s[end..])
  {
  }

  lemma NoObjects(s: Bytes)
    requires s == []
    ensures Objects(s) == []
  {
  }

  method IterJsonObjects(text: Bytes) returns (out: seq<Bytes>)
    ensures out == JsonObjects(text)
  {
    var clean := StripAnsi(text);
    out := [];
    var rest := clean;
    var found := FindJsonObject(rest);
    while found.Some?
      invariant found == FirstObject(rest)
      invariant out + Objects(rest) == Objects(clean)
      decreases |rest|
    {
      var (start, end) := found.value;
      ObjectsStep(rest, start, end);
      assert out + ([rest[start..end]] + Objects(rest[end..])) == (out + [rest[start..end]]) + Objects(rest[end..]);
      out := out + [rest[start..end]];
      if end >= |rest| {
        NoObjects(rest[end..]);
        return;
      }
      rest := rest[end..];
      found := FindJsonObject(rest);
    }
  }

  // ---- JSON texts (sections 2 to 7 of RFC 8259) ---------------------------------------------

  datatype StrChar = Raw(b: Byte) | Escaped(b: Byte) | Unicode(h0: Byte, h1: Byte, h2: Byte, h3: Byte)

  /** Numbers and literal names are any run of letters, digits, signs and points; the grammar's own are among them. */
  datatype Json =
    | Atom(text: Bytes)
    | Str(chars: seq<StrChar>)
    | Arr(space: Bytes, elements: Elements)
    | Obj(space: Bytes, members: Members)

  datatype Elements =
    | NoElement
    | LastElement(v: Json, after: Bytes)
    | Element(v: Json, after: Bytes, before: Bytes, more: Elements)

  datatype Members =
    | NoMember
    | LastMember(key: seq<StrChar>, after: Bytes, before: Bytes, v: Json, end: Bytes)
    | Member(key: seq<StrChar>, after: Bytes, before: Bytes, v: Json, end: Bytes, next: Bytes, more: Members)

  predicate IsHex(b: Byte) {
    0x30 <= b <= 0x39 || 0x41 <= b <= 0x46 || 0x61 <= b <= 0x66
  }

  predicate IsSpace(s: Bytes) {
    forall b :: b in s ==> b == 0x20 || b == 0x09 || b == 0x0A || b == 0x0D
  }

  predicate ValidChar(c: StrChar) {
    match c
    case Raw(b) => b >= 0x20 && b != 0x22 && b != 0x5C
    case Escaped(b) => b in [0x22, 0x5C, 0x2F, 0x62, 0x66, 0x6E, 0x72, 0x74]
    case Unicode(h0, h1, h2, h3) => IsHex(h0) && IsHex(h1) && IsHex(h2) && IsHex(h3)
  }

  predicate ValidChars(chars: seq<StrChar>) {
    forall c :: c in chars ==> ValidChar(c)
  }

  predicate IsAtomByte(b: Byte) {
    0x30 <= b <= 0x39 || 0x41 <= b <= 0x5A || 0x61 <= b <= 0x7A || b == 0x2B || b == 0x2D || b == 0x2E
  }

  predicate Valid(v: Json) {
    match v
    case Atom(text) => forall b :: b in text ==> IsAtomByte(b)
    case Str(chars) => ValidChars(chars)
    case Arr(space, elements) => IsSpace(space) && ValidElements(elements)
    case Obj(space, members) => IsSpace(space) && ValidMembers(members)
  }

  predicate ValidElements(e: Elements) {
    match e
    case NoElement => true
    case LastElement(v, after) => Valid(v) && IsSpace(after)
    case Element(v, after, before, more) => Valid(v) && IsSpace(after) && IsSpace(before) && !more.NoElement? && ValidElements(more)
  }

  predicate ValidMembers(m: Members) {
    match m
    case NoMember => true
    case LastMember(key, after, before, v, end) => ValidChars(key) && IsSpace(after) && IsSpace(before) && Valid(v) && IsSpace(end)
    case Member(key, after, before, v, end, next, more) =>
      && ValidChars(key) && IsSpace(after) && IsSpace(before) && Valid(v) && IsSpace(end) && IsSpace(next)
      && !more.NoMember? && ValidMembers(more)
  }

  function PrintChar(c: StrChar): Bytes {
    match c
    case Raw(b) => [b]
    case Escaped(b) => [0x5C, b]
    case Unicode(h0, h1, h2, h3) => [0x5C, 0x75, h0, h1, h2, h3]
  }

  function PrintChars(chars: seq<StrChar>): Bytes {
    if chars == [] then [] else PrintChar(chars[0]) + PrintChars(chars[1..])
  }

  function PrintString(chars: seq<StrChar>): Bytes {
    [0x22] + (PrintChars(chars) + [0x22])
  }

  function Print(v: Json): Bytes {
    match v
    case Atom(text) => text
    case Str(chars) => PrintString(chars)
    case Arr(space, elements) => [0x5B] + (space + (PrintElements(elements) + [0x5D]))
    case Obj(space, members) => [0x7B] + (space + (PrintMembers(members) + [0x7D]))
  }

  function PrintElements(e: Elements): Bytes {
    match e
    case NoElement => []
    case LastElement(v, after) => Print(v) + after
    case Element(v, after, before, more) => Print(v) + (after + ([0x2C] + (before + PrintElements(more))))
  }

  function PrintMembers(m: Members): Bytes {
    match m
    case NoMember => []
    case LastMember(key, after, before, v, end) => PrintString(key) + (after + ([0x3A] + (before + (Print(v) + end))))
    case Member(key, after, before, v, end, next, more) =>
      PrintString(key) + (after + ([0x3A] + (before + (Print(v) + (end + ([0x2C] + (next + PrintMembers(more))))))))
  }

  // ---- The scanner passes over JSON texts ---------------------------------------------------

  /** Where the scanner is after `text`; `None` when an object closes inside it. */
  function After(at: Pos, text: Bytes): Option<Pos>
    decreases |text|
  {
    if text == [] then Some(at)
    else if Closes(at, text[0]) then None
    else After(Next(at, text[0]), text[1..])
  }

  lemma {:induction false} AfterConcat(at: Pos, a: Bytes, b: Bytes)
    decreases |a|
    ensures After(at, a + b) == if After(at, a).None? then None else After(After(at, a).value, b)
  {
    if a == [] {
      assert a + b == b;
    } else {
      assert (a + b)[1..] == a[1..] + b;
      if !Closes(at, a[0]) {
        AfterConcat(Next(at, a[0]), a[1..], b);
      }
    }
  }

  lemma {:induction false} ScanPasses(at: Pos, text: Bytes, rest: Bytes)
    requires After(at, text).Some?
    decreases |text|
    ensures Scan(text + rest, at) == Later(|text|, Scan(rest, After(at, text).value))
  {
    if text == [] {
      assert text + rest == rest;
    } else {
      assert (text + rest)[1..] == text[1..] + rest;
      ScanPasses(Next(at, text[0]), text[1..], rest);
    }
  }

  /** The scanner comes out of `text` as it went in. */
  predicate Keeps(at: Pos, text: Bytes) {
    After(at, text) == Some(at)
  }

  lemma KeepsConcat(at: Pos, a: Bytes, b: Bytes)
    requires Keeps(at, a) && Keeps(at, b)
    ensures Keeps(at, a + b)
  {
    AfterConcat(at, a, b);
  }

  /** Between tokens, inside at least one brace. */
  predicate Between(at: Pos) {
    at.depth >= 1 && !at.inString && !at.escape
  }

  predicate IsInert(b: Byte) {
    b != QUOTE && b != LBRACE && b != RBRACE
  }

  lemma {:induction false} KeepsInert(at: Pos, text: Bytes)
    requires Between(at) && forall b :: b in text ==> IsInert(b)
    ensures Keeps(at, text)
  {
    if text != [] {
      assert IsInert(text[0]);
      KeepsInert(at, text[1..]);
    }
  }

  lemma KeepsChar(at: Pos, c: StrChar)
    requires at.inString && !at.escape && ValidChar(c)
    ensures Keeps(at, PrintChar(c))
  {
    match c
    case Raw(b) =>
      assert After(at, [b]) == After(Next(at, b), []);
    case Escaped(b) =>
      assert [BACKSLASH, b][1..] == [b];
      assert After(at.(escape := true), [b]) == After(at, []);
    case Unicode(h0, h1, h2, h3) =>
      KeepsHex(at, [h0, h1, h2, h3]);
      assert [BACKSLASH, 0x75, h0, h1, h2, h3] == [BACKSLASH] + ([0x75] + [h0, h1, h2, h3]);
      assert PrintChar(c)[1..] == [0x75] + [h0, h1, h2, h3];
      assert ([0x75] + [h0, h1, h2, h3])[1..] == [h0, h1, h2, h3];
      assert After(at.(escape := true), [0x75] + [h0, h1, h2, h3]) == After(at, [h0, h1, h2, h3]);
  }

  lemma {:induction false} KeepsHex(at: Pos, digits: Bytes)
    requires at.inString && !at.escape && forall b :: b in digits ==> IsHex(b)
    ensures Keeps(at, digits)
  {
    if digits != [] {
      assert IsHex(digits[0]);
      KeepsHex(at, digits[1..]);
    }
  }

  lemma {:induction false} KeepsChars(at: Pos, chars: seq<StrChar>)
    requires at.inString && !at.escape && ValidChars(chars)
    ensures Keeps(at, PrintChars(chars))
  {
    if chars != [] {
      assert ValidChar(chars[0]);
      KeepsChar(at, chars[0]);
      KeepsChars(at, chars[1..]);
      KeepsConcat(at, PrintChar(chars[0]), PrintChars(chars[1..]));
    }
  }

  lemma KeepsString(at: Pos, chars: seq<StrChar>)
    requires Between(at) && ValidChars(chars)
    ensures Keeps(at, PrintString(chars))
  {
    var inside := at.(inString := true);
    KeepsChars(inside, chars);
    AfterConcat(inside, PrintChars(chars), [QUOTE]);
    assert After(inside, [QUOTE]) == After(at, []);
    assert PrintString(chars)[1..] == PrintChars(chars) + [QUOTE];
  }

  lemma {:induction false} KeepsValue(at: Pos, v: Json)
    requires Between(at) && Valid(v)
    ensures Keeps(at, Print(v))
    decreases v
  {
    match v
    case Atom(text) =>
      KeepsInert(at, text);
    case Str(chars) =>
      KeepsString(at, chars);
    case Arr(space, elements) =>
      KeepsInert(at, [LBRACKET]);
      KeepsInert(at, space);
      KeepsElements(at, elements);
      KeepsInert(at, [RBRACKET]);
      KeepsConcat(at, PrintElements(elements), [RBRACKET]);
      KeepsConcat(at, space, PrintElements(elements) + [RBRACKET]);
      KeepsConcat(at, [LBRACKET], space + (PrintElements(elements) + [RBRACKET]));
    case Obj(space, members) =>
      var inside := at.(depth := at.depth + 1);
      KeepsMembers(inside, members);
      InsideObject(at, v);
      AfterConcat(inside, space + PrintMembers(members), [RBRACE]);
      assert After(inside, [RBRACE]) == After(at, []);
  }

  lemma ObjectText(v: Json)
    requires v.Obj?
    ensures Print(v) == [LBRACE] + (v.space + PrintMembers(v.members)) + [RBRACE]
    ensures Print(v)[1..] == v.space + PrintMembers(v.members) + [RBRACE]
  {
  }

  /** After its opening brace, up to its closing one, an object keeps the scanner one level deeper. */
  lemma InsideObject(at: Pos, v: Json)
    requires v.Obj? && Valid(v) && !at.inString && !at.escape && at.depth >= 0
    requires Keeps(at.(depth := at.depth + 1), PrintMembers(v.members))
    ensures Keeps(at.(depth := at.depth + 1), v.space + PrintMembers(v.members))
    ensures After(at, Print(v)) == After(at.(depth := at.depth + 1), v.space + PrintMembers(v.members) + [RBRACE])
  {
    var inside := at.(depth := at.depth + 1);
    KeepsInert(inside, v.space);
    KeepsConcat(inside, v.space, PrintMembers(v.members));
    ObjectText(v);
    AfterBrace(at, v.space + PrintMembers(v.members) + [RBRACE]);
    assert Print(v) == [LBRACE] + (v.space + PrintMembers(v.members) + [RBRACE]);
  }

  lemma AfterBrace(at: Pos, text: Bytes)
    requires !at.inString && !at.escape && at.depth >= 0
    ensures After(at, [LBRACE] + text) == After(at.(depth := at.depth + 1), text)
  {
    var inside := at.(depth := at.depth + 1);
    assert After(at, [LBRACE]) == Some(inside) by {
      assert [LBRACE][1..] == [];
      assert After(inside, []) == Some(inside);
    }
    AfterConcat(at, [LBRACE], text);
  }

  lemma {:induction false} KeepsElements(at: Pos, e: Elements)
    requires Between(at) && ValidElements(e)
    ensures Keeps(at, PrintElements(e))
    decreases e
  {
    match e
    case NoElement =>
    case LastElement(v, after) =>
      KeepsValue(at, v);
      KeepsInert(at, after);
      KeepsConcat(at, Print(v), after);
    case Element(v, after, before, more) =>
      KeepsValue(at, v);
      KeepsElements(at, more);
      KeepsGlued(at, after, COMMA, before, PrintElements(more));
      KeepsConcat(at, Print(v), after + ([COMMA] + (before + PrintElements(more))));
  }

  lemma KeepsGlued(at: Pos, after: Bytes, sep: Byte, before: Bytes, text: Bytes)
    requires Between(at) && IsSpace(after) && IsSpace(before) && IsInert(sep) && Keeps(at, text)
    ensures Keeps(at, after + ([sep] + (before + text)))
  {
    KeepsInert(at, after);
    KeepsInert(at, [sep]);
    KeepsInert(at, before);
    KeepsConcat(at, before, text);
    KeepsConcat(at, [sep], before + text);
    KeepsConcat(at, after, [sep] + (before + text));
  }

  lemma {:induction false} KeepsMembers(at: Pos, m: Members)
    requires Between(at) && ValidMembers(m)
    ensures Keeps(at, PrintMembers(m))
    decreases m
  {
    match m
    case NoMember =>
    case LastMember(key, after, before, v, end) =>
      KeepsString(at, key);
      KeepsValue(at, v);
      KeepsInert(at, end);
      KeepsConcat(at, Print(v), end);
      KeepsGlued(at, after, COLON, before, Print(v) + end);
      KeepsConcat(at, PrintString(key), after + ([COLON] + (before + (Print(v) + end))));
    case Member(key, after, before, v, end, next, more) =>
      var tail := end + ([COMMA] + (next + PrintMembers(more)));
      KeepsString(at, key);
      KeepsValue(at, v);
      KeepsMembers(at, more);
      KeepsGlued(at, end, COMMA, next, PrintMembers(more));
      KeepsConcat(at, Print(v), tail);
      KeepsGlued(at, after, COLON, before, Print(v) + tail);
      KeepsConcat(at, PrintString(key), after + ([COLON] + (before + (Print(v) + tail))));
  }

  /** From its opening brace, the scanner stops exactly at the end of a JSON object, whatever follows. */
  lemma ScanObject(v: Json, rest: Bytes)
    requires v.Obj? && Valid(v)
    ensures Scan(Print(v) + rest, START) == Some(|Print(v)|)
  {
    var body := [LBRACE] + (v.space + PrintMembers(v.members));
    var inside := Pos(1, false, false);
    KeepsMembers(inside, v.members);
    InsideObject(START, v);
    ObjectText(v);
    assert body[1..] == v.space + PrintMembers(v.members);
    assert After(START, body) == Some(inside);
    ScanPasses(START, body, [RBRACE] + rest);
    assert Print(v) + rest == body + ([RBRACE] + rest);
  }

  // ---- Reading back what was printed --------------------------------------------------------

  /** Shell noise: text without escapes or opening braces, and complete escape sequences. */
  datatype Noise =
    | Plain(text: Bytes)
    | Control(body: Bytes, final: Byte)
    | BelString(introducer: Byte, body: Bytes)
    | StString(introducer: Byte, body: Bytes)
    | Charset(introducer: Byte, set_: Byte)
    | TwoByte(b: Byte)

  datatype Segment = Noisy(noise: Noise) | Object(v: Json)

  /** OSC, DCS, SOS, PM and APC (section 5.6 of ECMA-48). */
  predicate OpensString(b: Byte) {
    b in {0x5D, 0x50, 0x58, 0x5E, 0x5F}
  }

  /** Designations of the four character sets. */
  predicate Designates(b: Byte) {
    b in {0x28, 0x29, 0x2A, 0x2B}
  }

  predicate StringBody(body: Bytes) {
    0x07 !in body && 0x1B !in body
  }

  /**
   A control sequence has parameter and intermediate bytes 0x20 to 0x3F and a final byte 0x40 to 0x7E (section 5.4 of
   ECMA-48); a control string ends with BEL or ST; a designation has one more byte, any other escape none.
   */
  predicate ValidNoise(n: Noise) {
    match n
    case Plain(text) => 0x7B !in text && 0x1B !in text
    case Control(body, final) => 0x40 <= final <= 0x7E && forall k :: 0 <= k < |body| ==> 0x20 <= body[k] <= 0x3F
    case BelString(i, body) => OpensString(i) && StringBody(body)
    case StString(i, body) => OpensString(i) && StringBody(body)
    case Charset(i, _) => Designates(i)
    case TwoByte(b) => b != 0x5B && !OpensString(b) && !Designates(b)
  }

  predicate ValidSegment(g: Segment) {
    match g
    case Noisy(noise) => ValidNoise(noise)
    case Object(v) => v.Obj? && Valid(v)
  }

  function NoiseBytes(n: Noise): Bytes {
    match n
    case Plain(text) => text
    case Control(body, final) => [0x1B, 0x5B] + (body + [final])
    case BelString(i, body) => [0x1B, i] + (body + [0x07])
    case StString(i, body) => [0x1B, i] + (body + [0x1B, 0x5C])
    case Charset(i, c) => [0x1B, i, c]
    case TwoByte(b) => [0x1B, b]
  }

  function SegmentBytes(g: Segment): Bytes {
    match g
    case Noisy(noise) => NoiseBytes(noise)
    case Object(v) => Print(v)
  }

  function Render(doc: seq<Segment>): Bytes {
    if doc == [] then [] else SegmentBytes(doc[0]) + Render(doc[1..])
  }

  function Printed(doc: seq<Segment>): seq<Bytes> {
    if doc == [] then []
    else (if doc[0].Object? then [Print(doc[0].v)] else []) + Printed(doc[1..])
  }

  function WithoutBel(s: Bytes): Bytes {
    if s == [] then [] else (if s[0] == 0x07 then [] else [s[0]]) + WithoutBel(s[1..])
  }

  /** What is left of a segment once escapes are stripped. */
  function Visible(g: Segment): Bytes {
    match g
    case Noisy(noise) => if noise.Plain? then WithoutBel(noise.text) else []
    case Object(v) => Print(v)
  }

  lemma {:induction false} StripPlain(text: Bytes, rest: Bytes)
    requires 0x1B !in text
    ensures Strip(text + rest) == WithoutBel(text) + Strip(rest)
  {
    if text == [] {
      assert text + rest == rest;
    } else {
      StripPlain(text[1..], rest);
      StripByte(text[0], text[1..] + rest);
      assert text + rest == [text[0]] + (text[1..] + rest);
      var first := if text[0] == 0x07 then [] else [text[0]];
      Regroup(first, WithoutBel(text[1..]), Strip(rest));
    }
  }

  lemma Regroup(a: Bytes, b: Bytes, c: Bytes)
    ensures a + (b + c) == a + b + c
  {
  }

  lemma StripByte(b: Byte, rest: Bytes)
    requires b != 0x1B
    ensures Strip([b] + rest) == (if b == 0x07 then [] else [b]) + Strip(rest)
  {
    assert ([b] + rest)[1..] == rest;
  }

  lemma {:induction false} SkipControl(body: Bytes, final: Byte, rest: Bytes)
    requires 0x40 <= final <= 0x7E && forall k :: 0 <= k < |body| ==> 0x20 <= body[k] <= 0x3F
    ensures AfterControl(body + [final] + rest) == rest
  {
    var s := body + [final] + rest;
    if body == [] {
      assert s[1..] == rest;
    } else {
      assert s[1..] == body[1..] + [final] + rest;
      SkipControl(body[1..], final, rest);
    }
  }

  lemma {:induction false} SkipString(body: Bytes, end: Bytes, rest: Bytes)
    requires StringBody(body) && (end == [0x07] || end == [0x1B, 0x5C])
    ensures AfterString(body + end + rest) == rest
  {
    var s := body + end + rest;
    if body == [] {
      assert s[|end|..] == rest;
    } else {
      assert s[1..] == body[1..] + end + rest;
      SkipString(body[1..], end, rest);
    }
  }

  lemma StripControl(body: Bytes, final: Byte, rest: Bytes)
    requires ValidNoise(Control(body, final))
    ensures Strip([0x1B, 0x5B] + (body + [final]) + rest) == Strip(rest)
  {
    SkipControl(body, final, rest);
    assert ([0x1B, 0x5B] + (body + [final]) + rest)[2..] == body + [final] + rest;
  }

  lemma StripString(introducer: Byte, body: Bytes, end: Bytes, rest: Bytes)
    requires OpensString(introducer) && StringBody(body) && (end == [0x07] || end == [0x1B, 0x5C])
    ensures Strip([0x1B, introducer] + (body + end) + rest) == Strip(rest)
  {
    SkipString(body, end, rest);
    assert ([0x1B, introducer] + (body + end) + rest)[2..] == body + end + rest;
  }

  lemma StripNoise(n: Noise, rest: Bytes)
    requires ValidNoise(n)
    ensures Strip(NoiseBytes(n) + rest) == Visible(Noisy(n)) + Strip(rest)
  {
    match n
    case Plain(text) => StripPlain(text, rest);
    case Control(body, final) => StripControl(body, final, rest);
    case BelString(i, body) => StripString(i, body, [0x07], rest);
    case StString(i, body) => StripString(i, body, [0x1B, 0x5C], rest);
    case Charset(i, c) => assert ([0x1B, i, c] + rest)[3..] == rest;
    case TwoByte(b) => assert ([0x1B, b] + rest)[2..] == rest;
  }

  predicate IsVisible(b: Byte) {
    b != 0x1B && b != 0x07
  }

  predicate Visibles(s: Bytes) {
    forall b :: b in s ==> IsVisible(b)
  }

  lemma {:induction false} VisibleKept(s: Bytes)
    requires Visibles(s)
    ensures WithoutBel(s) == s
  {
    if s != [] {
      assert IsVisible(s[0]);
      VisibleKept(s[1..]);
    }
  }

  lemma {:induction false} CharsVisible(chars: seq<StrChar>)
    requires ValidChars(chars)
    ensures Visibles(PrintString(chars)) && Visibles(PrintChars(chars))
  {
    if chars != [] {
      assert ValidChar(chars[0]);
      CharsVisible(chars[1..]);
    }
  }

  lemma {:induction false} ValueVisible(v: Json)
    requires Valid(v)
    ensures Visibles(Print(v))
    decreases v
  {
    match v
    case Atom(text) =>
    case Str(chars) => CharsVisible(chars);
    case Arr(_, elements) => ElementsVisible(elements);
    case Obj(_, members) => MembersVisible(members);
  }

  lemma {:induction false} ElementsVisible(e: Elements)
    requires ValidElements(e)
    ensures Visibles(PrintElements(e))
    decreases e
  {
    match e
    case NoElement =>
    case LastElement(v, _) => ValueVisible(v);
    case Element(v, _, _, more) =>
      ValueVisible(v);
      ElementsVisible(more);
  }

  lemma {:induction false} MembersVisible(m: Members)
    requires ValidMembers(m)
    ensures Visibles(PrintMembers(m))
    decreases m
  {
    match m
    case NoMember =>
    case LastMember(key, after, before, v, end) =>
      CharsVisible(key);
      ValueVisible(v);
      GluedVisible(after, COLON, before, Print(v) + end);
      ConcatVisible(PrintString(key), after + ([COLON] + (before + (Print(v) + end))));
    case Member(key, after, before, v, end, next, more) =>
      CharsVisible(key);
      ValueVisible(v);
      MembersVisible(more);
      var tail := end + ([COMMA] + (next + PrintMembers(more)));
      GluedVisible(end, COMMA, next, PrintMembers(more));
      ConcatVisible(Print(v), tail);
      GluedVisible(after, COLON, before, Print(v) + tail);
      ConcatVisible(PrintString(key), after + ([COLON] + (before + (Print(v) + tail))));
  }

  lemma ConcatVisible(a: Bytes, b: Bytes)
    requires Visibles(a) && Visibles(b)
    ensures Visibles(a + b)
  {
  }

  lemma GluedVisible(after: Bytes, sep: Byte, before: Bytes, text: Bytes)
    requires Visibles(after) && IsVisible(sep) && Visibles(before) && Visibles(text)
    ensures Visibles(after + ([sep] + (before + text)))
  {
    ConcatVisible(before, text);
    ConcatVisible([sep], before + text);
    ConcatVisible(after, [sep] + (before + text));
  }

  lemma StripSegment(g: Segment, rest: Bytes)
    requires ValidSegment(g)
    ensures Strip(SegmentBytes(g) + rest) == Visible(g) + Strip(rest)
  {
    match g
    case Noisy(noise) => StripNoise(noise, rest);
    case Object(v) =>
      ValueVisible(v);
      assert 0x1B !in Print(v);
      StripPlain(Print(v), rest);
      VisibleKept(Print(v));
  }

  lemma {:induction false} BraceFreeSkipped(text: Bytes, rest: Bytes)
    requires 0x7B !in text
    ensures BraceAt(text + rest) == |text| + BraceAt(rest)
  {
    if text == [] {
      assert text + rest == rest;
    } else {
      assert (text + rest)[1..] == text[1..] + rest;
      BraceFreeSkipped(text[1..], rest);
    }
  }

  lemma FirstObjectShifts(text: Bytes, rest: Bytes)
    requires 0x7B !in text
    ensures FirstObject(text + rest)
         == match FirstObject(rest) case None => None case Some((a, b)) => Some((|text| + a, |text| + b))
  {
    BraceFreeSkipped(text, rest);
    assert (text + rest)[|text| + BraceAt(rest)..] == rest[BraceAt(rest)..];
  }

  lemma SameObjects(s: Bytes, a: nat, b: nat, t: Bytes, a': nat, b': nat)
    requires FirstObject(s) == Some((a, b)) && FirstObject(t) == Some((a', b'))
    requires s[a..b] == t[a'..b'] && s[b..] == t[b'..]
    ensures Objects(s) == Objects(t)
  {
    ObjectsStep(s, a, b);
    ObjectsStep(t, a', b');
  }

  lemma ShiftedSlices(text: Bytes, rest: Bytes, a: nat, b: nat)
    requires a <= b <= |rest|
    ensures (text + rest)[|text| + a..|text| + b] == rest[a..b]
    ensures (text + rest)[|text| + b..] == rest[b..]
  {
  }

  lemma ObjectsSkip(text: Bytes, rest: Bytes)
    requires 0x7B !in text
    ensures Objects(text + rest) == Objects(rest)
  {
    FirstObjectShifts(text, rest);
    if FirstObject(rest).Some? {
      var (a, b) := FirstObject(rest).value;
      ShiftedSlices(text, rest, a, b);
      SameObjects(text + rest, |text| + a, |text| + b, rest, a, b);
    }
  }

  lemma ObjectsTake(v: Json, rest: Bytes)
    requires v.Obj? && Valid(v)
    ensures Objects(Print(v) + rest) == [Print(v)] + Objects(rest)
  {
    ScanObject(v, rest);
    var s := Print(v) + rest;
    assert BraceAt(s) == 0 && s[0..] == s;
    assert s[0..|Print(v)|] == Print(v) && s[|Print(v)|..] == rest;
  }

  lemma {:induction false} WithoutBelKeepsBraceFree(s: Bytes)
    requires 0x7B !in s
    ensures 0x7B !in WithoutBel(s)
  {
    if s != [] {
      WithoutBelKeepsBraceFree(s[1..]);
    }
  }

  // ---- Sequences that do not end ------------------------------------------------------------

  lemma {:induction false} NoFinal(body: Bytes)
    requires forall k :: 0 <= k < |body| ==> !(0x40 <= body[k] <= 0x7E)
    ensures AfterControl(body) == []
  {
    if body != [] {
      NoFinal(body[1..]);
    }
  }

  lemma {:induction false} NoTerminator(body: Bytes)
    requires NeverEnds(body)
    ensures AfterString(body) == []
  {
    if body != [] {
      assert forall k :: 0 <= k < |body[1..]| ==> body[1..][k..] == body[k + 1..];
      assert body[0..] == body;
      NoTerminator(body[1..]);
    }
  }

  /** No BEL and no ST anywhere. */
  predicate NeverEnds(body: Bytes) {
    forall k :: 0 <= k < |body| ==> !([0x07] <= body[k..]) && !([0x1B, 0x5C] <= body[k..])
  }

  /** A control sequence without a final byte, or a control string without a terminator, swallows the rest of the text. */
  lemma UnfinishedSwallowsTheRest(introducer: Byte, body: Bytes)
    requires
      || (introducer == 0x5B && forall k :: 0 <= k < |body| ==> !(0x40 <= body[k] <= 0x7E))
      || (OpensString(introducer) && NeverEnds(body))
    ensures Strip([0x1B, introducer] + body) == []
  {
    assert ([0x1B, introducer] + body)[2..] == body;
    if introducer == 0x5B {
      NoFinal(body);
    } else {
      NoTerminator(body);
    }
  }

  /** At the very end of the text an escape stays, and a designation without its byte goes. */
  lemma EscapesAtTheEnd(introducer: Byte)
    requires Designates(introducer)
    ensures Strip([0x1B]) == [0x1B] && Strip([0x1B, introducer]) == []
  {
    assert [0x1B, introducer][2..] == [];
  }

  /** Whatever complete noise surrounds them, exactly the printed objects come back, in order. */
  lemma {:induction false} ReadsBackPrintedObjects(doc: seq<Segment>)
    requires forall g :: g in doc ==> ValidSegment(g)
    ensures JsonObjects(Render(doc)) == Printed(doc)
  {
    if doc == [] {
      NoObjects(Strip([]));
    } else {
      var g, rest := doc[0], Render(doc[1..]);
      ReadsBackPrintedObjects(doc[1..]);
      StripSegment(g, rest);
      match g
      case Object(v) => ObjectsTake(v, Strip(rest));
      case Noisy(noise) =>
        if noise.Plain? {
          WithoutBelKeepsBraceFree(noise.text);
        }
        ObjectsSkip(Visible(g), Strip(rest));
    }
  }

  // ---- Objects that do not end --------------------------------------------------------------

  lemma {:induction false} NeverCloses(at: Pos, text: Bytes)
    requires After(at, text).Some?
    ensures Scan(text, at) == None
    decreases |text|
  {
    if text != [] {
      NeverCloses(Next(at, text[0]), text[1..]);
    }
  }

  /** Complete noise without quotes and closing braces, and JSON objects. */
  predicate Harmless(g: Segment) {
    ValidSegment(g) && (g.Noisy? && g.noise.Plain? ==> 0x22 !in g.noise.text && 0x7D !in g.noise.text)
  }

  lemma {:induction false} WithoutBelIsPart(s: Bytes)
    ensures forall b :: b in WithoutBel(s) ==> b in s
  {
    if s != [] {
      WithoutBelIsPart(s[1..]);
    }
  }

  lemma {:induction false} KeepsHarmless(at: Pos, doc: seq<Segment>)
    requires Between(at) && forall g :: g in doc ==> Harmless(g)
    ensures Keeps(at, Strip(Render(doc)))
  {
    if doc != [] {
      var g := doc[0];
      assert Harmless(g);
      KeepsHarmless(at, doc[1..]);
      StripSegment(g, Render(doc[1..]));
      KeepsSegment(at, g);
      KeepsConcat(at, Visible(g), Strip(Render(doc[1..])));
    }
  }

  lemma KeepsSegment(at: Pos, g: Segment)
    requires Between(at) && Harmless(g)
    ensures Keeps(at, Visible(g))
  {
    match g
    case Object(v) => KeepsValue(at, v);
    case Noisy(noise) =>
      if noise.Plain? {
        WithoutBelIsPart(noise.text);
        KeepsInert(at, WithoutBel(noise.text));
      }
  }

  /** An opening brace that is never closed hides every object behind it. */
  lemma UnclosedBraceHidesObjects(doc: seq<Segment>)
    requires forall g :: g in doc ==> Harmless(g)
    ensures JsonObjects([0x7B] + Render(doc)) == []
  {
    var at, text := Pos(1, false, false), Strip(Render(doc));
    KeepsHarmless(at, doc);
    StripByte(0x7B, Render(doc));
    AfterBrace(START, text);
    NeverCloses(START, [0x7B] + text);
    assert BraceAt([0x7B] + text) == 0 && ([0x7B] + text)[0..] == [0x7B] + text;
  }
}
