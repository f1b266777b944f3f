/**
 Whole-word mentions of a project name (`word_boundary_match` and `count_word_boundary_matches` in
 `crates/orrch-core/src/feedback.rs`), on UTF-8 bytes: slicing inside a character panics.
 */
module Mentions {
  import opened Options

  type byte = x: int | 0 <= x < 256
  type Bytes = seq<byte>

  predicate IsAscii(b: byte) {
    b < 0x80
  }

  predicate IsAlphanumericByte(b: byte) {
    0x30 <= b <= 0x39 || 0x41 <= b <= 0x5A || 0x61 <= b <= 0x7A
  }

  predicate IsContinuation(b: byte) {
    0x80 <= b < 0xC0
  }

  /** Part of what UTF-8 (section 3 of RFC 3629) demands: a continuation byte follows every lead byte and no ASCII byte. */
  predicate WellFormed(text: Bytes) {
    && (text != [] ==> !IsContinuation(text[0]))
    && (forall i :: 0 <= i < |text| - 1 && IsAscii(text[i]) ==> !IsContinuation(text[i + 1]))
    && (forall i :: 0 <= i < |text| && text[i] >= 0xC0 ==> i + 1 < |text| && IsContinuation(text[i + 1]))
  }

  predicate Occurs(text: Bytes, name: Bytes, i: nat) {
    i + |name| <= |text| && text[i..i + |name|] == name
  }

  predicate IsMention(text: Bytes, name: Bytes, i: nat) {
    && Occurs(text, name, i)
    && (i == 0 || !IsAlphanumericByte(text[i - 1]))
    && (i + |name| >= |text| || !IsAlphanumericByte(text[i + |name|]))
  }

  /** The search goes on one byte after an occurrence at `i`, where no character starts. */
  predicate CutsCharacter(text: Bytes, name: Bytes, i: nat) {
    Occurs(text, name, i) && i + 1 < |text| && IsContinuation(text[i + 1])
  }

  function FindFrom(text: Bytes, name: Bytes, start: nat): (r: Option<nat>)
    requires start <= |text|
    ensures r.Some? ==> start <= r.value <= |text| && Occurs(text, name, r.value)
    ensures r.Some? ==> forall j :: start <= j < r.value ==> !Occurs(text, name, j)
    ensures r.None? ==> forall j :: start <= j ==> !Occurs(text, name, j)
    decreases |text| - start
  {
    if Occurs(text, name, start) then Some(start)
    else if start == |text| then None
    else FindFrom(text, name, start + 1)
  }

  /** Mentions before byte `n`. */
  function MentionsBelow(text: Bytes, name: Bytes, n: nat): nat {
    if n == 0 then 0 else MentionsBelow(text, name, n - 1) + if IsMention(text, name, n - 1) then 1 else 0
  }

  /** Where an occurrence can start; the empty name is not looked for at the end. */
  function Places(text: Bytes): nat {
    if text == [] then 1 else |text|
  }

  /** Some occurrence before byte `n` makes the search cut a character. */
  predicate CutBelow(text: Bytes, name: Bytes, n: nat) {
    n > 0 && (CutBelow(text, name, n - 1) || CutsCharacter(text, name, n - 1))
  }

  lemma {:induction false} NoneBetween(text: Bytes, name: Bytes, a: nat, b: nat)
    requires a <= b && forall j :: a <= j < b ==> !Occurs(text, name, j)
    ensures MentionsBelow(text, name, b) == MentionsBelow(text, name, a)
    ensures CutBelow(text, name, b) == CutBelow(text, name, a)
  {
    if a < b {
      NoneBetween(text, name, a, b - 1);
    }
  }

  /** What the search learns when it finds `pos`. */
  lemma FoundNext(text: Bytes, name: Bytes, start: nat, pos: nat)
    requires start < Places(text) && start <= |text| && FindFrom(text, name, start) == Some(pos)
    ensures start <= pos < Places(text)
    ensures MentionsBelow(text, name, pos + 1) == MentionsBelow(text, name, start) + if IsMention(text, name, pos) then 1 else 0
    ensures CutBelow(text, name, pos + 1) == (CutBelow(text, name, start) || CutsCharacter(text, name, pos))
  {
    NoneBetween(text, name, start, pos);
    if name == [] {
      assert Occurs(text, name, start);
    }
  }

  lemma FoundNoMore(text: Bytes, name: Bytes, start: nat)
    requires start < Places(text) && start <= |text| && FindFrom(text, name, start) == None
    ensures MentionsBelow(text, name, Places(text)) == MentionsBelow(text, name, start)
    ensures CutBelow(text, name, Places(text)) == CutBelow(text, name, start)
  {
    NoneBetween(text, name, start, Places(text));
  }

  datatype Count = Counted(mentions: nat) | CountPanics

  datatype Match = Mentioned | NotMentioned | MatchPanics

  /** One search step: past the next occurrence, whether it is a mention, and whether going on cuts a character. */
  method Advance(text: Bytes, name: Bytes, start: nat) returns (next: Option<nat>, mention: bool, cut: bool)
    requires start < Places(text) && start <= |text|
    ensures next.None? ==>
      && MentionsBelow(text, name, Places(text)) == MentionsBelow(text, name, start)
      && CutBelow(text, name, Places(text)) == CutBelow(text, name, start)
    ensures next.Some? ==>
      && start < next.value <= Places(text)
      && MentionsBelow(text, name, next.value) == MentionsBelow(text, name, start) + (if mention then 1 else 0)
      && CutBelow(text, name, next.value) == (CutBelow(text, name, start) || cut)
      && (MatchModel(text, name, start) == NotMentioned ==>
            MatchModel(text, name, next.value)
            == if mention then Mentioned else if cut then MatchPanics else NotMentioned)
  {
    var pos := FindFrom(text, name, start);
    if pos.None? {
      FoundNoMore(text, name, start);
      return None, false, false;
    }
    var at := pos.value;
    FoundNext(text, name, start, at);
    FoundDecides(text, name, start, at);
    mention := AtBoundary(text, name, at);
    next, cut := Some(at + 1), at + 1 < |text| && IsContinuation(text[at + 1]);
  }

  method AtBoundary(text: Bytes, name: Bytes, at: nat) returns (ok: bool)
    requires Occurs(text, name, at)
    ensures ok == IsMention(text, name, at)
  {
    var end := at + |name|;
    var leftOk := at == 0 || !IsAlphanumericByte(text[at - 1]);
    var rightOk := end >= |text| || !IsAlphanumericByte(text[end]);
    ok := leftOk && rightOk;
  }

  lemma FoundDecides(text: Bytes, name: Bytes, start: nat, at: nat)
    requires start <= |text| && FindFrom(text, name, start) == Some(at)
    ensures MatchModel(text, name, start) == NotMentioned ==>
      MatchModel(text, name, at + 1)
      == if IsMention(text, name, at) then Mentioned else if CutsCharacter(text, name, at) then MatchPanics else NotMentioned
  {
    NothingFound(text, name, start);
    NothingFound(text, name, at);
    NoneBetween(text, name, start, at);
  }

  method CountWordBoundaryMatches(text: Bytes, name: Bytes) returns (r: Count)
    ensures r == if CutBelow(text, name, Places(text)) then CountPanics else Counted(MentionsBelow(text, name, Places(text)))
  {
    var count, start: nat := 0, 0;
    while true
      invariant start < Places(text)
      invariant count == MentionsBelow(text, name, start) && !CutBelow(text, name, start)
      decreases Places(text) - start
    {
      var next, mention, cut := Advance(text, name, start);
      if next.None? {
        return Counted(count);
      }
      start := next.value;
      if mention {
        count := count + 1;
      }
      if cut {
        CutStays(text, name, start, Places(text));
        return CountPanics;
      }
      if start >= |text| {
        return Counted(count);
      }
    }
  }

  method WordBoundaryMatch(text: Bytes, name: Bytes) returns (r: Match)
    ensures r == MatchModel(text, name, Places(text))
  {
    if |name| > |text| {
      NoneBetween(text, name, 0, Places(text));
      NothingFound(text, name, Places(text));
      return NotMentioned;
    }
    var start: nat := 0;
    while true
      invariant start < Places(text) && MatchModel(text, name, start) == NotMentioned
      decreases Places(text) - start
    {
      var next, mention, cut := Advance(text, name, start);
      NothingFound(text, name, start);
      if next.None? {
        NothingFound(text, name, Places(text));
        return NotMentioned;
      }
      start := next.value;
      if mention || cut {
        DecidedStays(text, name, start, Places(text));
        return if mention then Mentioned else MatchPanics;
      }
      if start >= |text| {
        return NotMentioned;
      }
    }
  }

  /** The first mention or the first cut character, whichever comes first, decides; a mention does at the same place. */
  function MatchModel(text: Bytes, name: Bytes, n: nat): Match {
    if n == 0 then NotMentioned
    else
      var before := MatchModel(text, name, n - 1);
      if before != NotMentioned then before
      else if IsMention(text, name, n - 1) then Mentioned
      else if CutsCharacter(text, name, n - 1) then MatchPanics
      else NotMentioned
  }

  lemma {:induction false} CutStays(text: Bytes, name: Bytes, a: nat, b: nat)
    requires a <= b && CutBelow(text, name, a)
    ensures CutBelow(text, name, b)
  {
    if a < b {
      CutStays(text, name, a, b - 1);
    }
  }

  lemma {:induction false} DecidedStays(text: Bytes, name: Bytes, a: nat, b: nat)
    requires a <= b && MatchModel(text, name, a) != NotMentioned
    ensures MatchModel(text, name, b) == MatchModel(text, name, a)
  {
    if a < b {
      DecidedStays(text, name, a, b - 1);
    }
  }

  lemma {:induction false} NothingFound(text: Bytes, name: Bytes, n: nat)
    ensures MatchModel(text, name, n) == NotMentioned <==> MentionsBelow(text, name, n) == 0 && !CutBelow(text, name, n)
  {
    if n > 0 {
      NothingFound(text, name, n - 1);
    }
  }

  /** An occurrence is a mention exactly when no ASCII letter or digit touches it. */
  lemma MentionExactlyWhen(text: Bytes, name: Bytes, i: nat)
    ensures IsMention(text, name, i) <==>
            && i + |name| <= |text| && text[i..i + |name|] == name
            && (i > 0 ==> !LetterOrDigit(text[i - 1] as char))
            && (i + |name| < |text| ==> !LetterOrDigit(text[i + |name|] as char))
  {
    if i + |name| <= |text| {
      if i > 0 {
        SameBytes(text[i - 1]);
      }
      if i + |name| < |text| {
        SameBytes(text[i + |name|]);
      }
    }
  }

  /** The ASCII letters and digits, one by one. */
  predicate LetterOrDigit(c: char) {
    c in "0123456789" || c in "ABCDEFGHIJKLMNOPQRSTUVWXYZ" || c in "abcdefghijklmnopqrstuvwxyz"
  }

  lemma SameBytes(b: byte)
    ensures IsAlphanumericByte(b) <==> LetterOrDigit(b as char)
  {
    InDigits(b);
    InUpper(b);
    InLower(b);
  }

  lemma InDigits(b: byte)
    ensures b as char in "0123456789" <==> 0x30 <= b <= 0x39
  {
  }

  lemma InUpper(b: byte)
    ensures b as char in "ABCDEFGHIJKLMNOPQRSTUVWXYZ" <==> 0x41 <= b <= 0x5A
  {
  }

  lemma InLower(b: byte)
    ensures b as char in "abcdefghijklmnopqrstuvwxyz" <==> 0x61 <= b <= 0x7A
  {
  }

  // ---- The two searches agree ---------------------------------------------------------------

  /** When neither panics, the match answers whether the count is not zero. */
  lemma MatchIsPositiveCount(text: Bytes, name: Bytes)
    requires !CutBelow(text, name, Places(text))
    ensures MatchModel(text, name, Places(text))
         == if MentionsBelow(text, name, Places(text)) > 0 then Mentioned else NotMentioned
  {
    NothingFound(text, name, Places(text));
    NoPanicBelow(text, name, Places(text));
  }

  lemma {:induction false} NoPanicBelow(text: Bytes, name: Bytes, n: nat)
    requires !CutBelow(text, name, n)
    ensures !MatchModel(text, name, n).MatchPanics?
  {
    if n > 0 {
      NoPanicBelow(text, name, n - 1);
    }
  }

  lemma {:induction false} CutBelowIs(text: Bytes, name: Bytes, n: nat)
    ensures CutBelow(text, name, n) <==> exists i :: 0 <= i < n && CutsCharacter(text, name, i)
  {
    if n > 0 {
      CutBelowIs(text, name, n - 1);
    }
  }

  /** Scoring calls the match and, when that finds a mention, the count. */
  predicate ScoringPanics(text: Bytes, name: Bytes) {
    MatchModel(text, name, Places(text)).MatchPanics?
    || (MatchModel(text, name, Places(text)) == Mentioned && CutBelow(text, name, Places(text)))
  }

  /**
   For well-formed text and a non-empty well-formed name, scoring panics exactly when the name starts with a character
   that is not ASCII and the text contains it.
   */
  lemma ScoringPanicsExactlyWhen(text: Bytes, name: Bytes)
    requires WellFormed(text) && WellFormed(name) && name != []
    ensures ScoringPanics(text, name) <==> name[0] >= 0x80 && exists i :: 0 <= i < |text| && Occurs(text, name, i)
  {
    var n := Places(text);
    CutBelowIs(text, name, n);
    CutsEnd(text, name);
    forall i | 0 <= i < |text| && Occurs(text, name, i)
      ensures CutsCharacter(text, name, i) <==> !IsAscii(name[0])
    {
      assert text[i] == name[0];
      if name[0] >= 0xC0 {
        assert text[i + 1] == name[1];
      }
    }
    if i: nat :| i < n && CutsCharacter(text, name, i) {
      assert Occurs(text, name, i);
    }
    if !IsAscii(name[0]) && exists i :: 0 <= i < |text| && Occurs(text, name, i) {
      var i: nat :| i < |text| && Occurs(text, name, i);
      assert CutsCharacter(text, name, i);
    }
  }

  /** A name and a text that are both the one letter e with an acute accent: scoring panics. */
  lemma ScoringCanPanic()
    ensures
      var e: Bytes := [0xC3, 0xA9];
      WellFormed(e) && ScoringPanics(e, e)
  {
    var e: Bytes := [0xC3, 0xA9];
    assert WellFormed(e);
    assert e[0..0 + |e|] == e && Occurs(e, e, 0);
    ScoringPanicsExactlyWhen(e, e);
  }

  /** A cut character ends the scoring with a panic, sooner or later. */
  lemma CutsEnd(text: Bytes, name: Bytes)
    ensures ScoringPanics(text, name) <==> CutBelow(text, name, Places(text))
  {
    NothingFound(text, name, Places(text));
    if !CutBelow(text, name, Places(text)) {
      NoPanicBelow(text, name, Places(text));
    }
  }
}
