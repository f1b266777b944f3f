/**
 Marking a feature as verified in a PLAN.md file (`mark_verified_in_plan` in `crates/orrch-core/src/plan_parser.rs`) and
 how the rewritten line is read. The edit changes one character, so most of this module follows two lines that differ in
 one place through the parser's trimming and through the bullets, numbers and checkpoint labels before a status marker.
 */
module PlanVerify {
  import opened Options
  import opened Text
  import opened PlanText
  import opened PlanParser
  import opened PlanMove
  import opened PlanRows
  import opened PlanAppend

  // ---- The edit -----------------------------------------------------------------------------

  predicate Matches(line: string, needle: string) {
    Find(line, "[x]").Some? && Contains(line, needle)
  }

  /** The first `[x]` of the line becomes `[v]`. */
  function Marked(line: string): (r: string)
    requires Find(line, "[x]").Some?
    ensures |r| == |line|
  {
    var pos := Find(line, "[x]").value;
    line[..pos] + "[v]" + line[pos + 3..]
  }

  function FirstMatch(lines: seq<string>, needle: string): (r: Option<nat>)
    ensures r.Some? ==> r.value < |lines| && Matches(lines[r.value], needle)
  {
    if lines == [] then None
    else
      var r := FirstMatch(lines[..|lines| - 1], needle);
      if r.Some? then r else if Matches(lines[|lines| - 1], needle) then Some(|lines| - 1) else None
  }

  /** The rewritten lines; `None` is the source's `Ok(false)`. */
  function MarkVerified(lines: seq<string>, title: string): Option<seq<string>> {
    var r := FirstMatch(lines, Trim(title));
    if Trim(title) == [] || r.None? then None else Some(lines[r.value := Marked(lines[r.value])])
  }

  method MarkVerifiedInPlan(lines: seq<string>, title: string) returns (r: Option<seq<string>>)
    ensures r == MarkVerified(lines, title)
  {
    var needle := Trim(title);
    if needle == [] {
      return None;
    }
    var out, changed := MarkFirst(lines, needle);
    r := if changed then Some(out) else None;
  }

  /** What the loop has written after the lines of `done`. */
  function Written(done: seq<string>, needle: string): seq<string> {
    var r := FirstMatch(done, needle);
    if r.None? then done else done[r.value := Marked(done[r.value])]
  }

  method MarkFirst(lines: seq<string>, needle: string) returns (out: seq<string>, changed: bool)
    ensures changed == FirstMatch(lines, needle).Some? && out == Written(lines, needle)
  {
    out, changed := [], false;
    var i := 0;
    while i < |lines|
      invariant i <= |lines|
      invariant changed == FirstMatch(lines[..i], needle).Some? && out == Written(lines[..i], needle)
    {
      assert lines[..i + 1] == lines[..i] + [lines[i]];
      out, changed := WriteNext(lines[..i], lines[i], needle, out, changed);
      i := i + 1;
    }
    assert lines[..i] == lines;
  }

  method WriteNext(ghost done: seq<string>, line: string, needle: string, out: seq<string>, changed: bool)
    returns (out': seq<string>, changed': bool)
    requires changed == FirstMatch(done, needle).Some? && out == Written(done, needle)
    ensures changed' == FirstMatch(done + [line], needle).Some? && out' == Written(done + [line], needle)
  {
    WriteOne(done, line, needle);
    if !changed && Matches(line, needle) {
      var marked := MarkLine(line);
      out', changed' := out + [marked], true;
    } else {
      out', changed' := out + [line], changed;
    }
  }

  method MarkLine(line: string) returns (r: string)
    requires Find(line, "[x]").Some?
    ensures r == Marked(line)
  {
    var pos := Find(line, "[x]").value;
    r := line[..pos];
    r := r + "[v]";
    r := r + line[pos + 3..];
  }

  lemma WriteOne(done: seq<string>, line: string, needle: string)
    ensures
      var first := FirstMatch(done, needle).None? && Matches(line, needle);
      && FirstMatch(done + [line], needle).Some? == (FirstMatch(done, needle).Some? || first)
      && Written(done + [line], needle) == Written(done, needle) + [if first then Marked(line) else line]
  {
    assert (done + [line])[..|done|] == done;
  }

  /** `t` is `s` with the `x` at `at` made a `v`. */
  predicate Flipped(s: string, t: string, at: nat) {
    at < |s| && s[at] == 'x' && t == s[at := 'v']
  }

  lemma MarkedIsFlipped(line: string)
    requires Find(line, "[x]").Some?
    ensures Flipped(line, Marked(line), Find(line, "[x]").value + 1)
  {
    var pos := Find(line, "[x]").value;
    assert line[pos..pos + 3] == "[x]";
    assert line[pos] == "[x]"[0] && line[pos + 1] == "[x]"[1] && line[pos + 2] == "[x]"[2];
  }

  /** Every other line is kept, and of the one that changes every other character: an `x` becomes a `v`. */
  lemma OneCharacterChanges(lines: seq<string>, title: string)
    requires MarkVerified(lines, title).Some?
    ensures
      var r, i := MarkVerified(lines, title).value, FirstMatch(lines, Trim(title)).value;
      var at := Find(lines[i], "[x]").value + 1;
      r == lines[i := lines[i][at := 'v']] && lines[i][at] == 'x' && Contains(lines[i], Trim(title))
  {
    MarkedIsFlipped(lines[FirstMatch(lines, Trim(title)).value]);
  }

  lemma MatchesIs(line: string, needle: string)
    ensures Matches(line, needle) <==> Says(line, "[x]") && Says(line, needle)
  {
    ContainsExactlyWhen(line, needle);
    FindIsFirst(line, "[x]");
    if Find(line, "[x]").Some? {
      FindIsThere(line, "[x]", Find(line, "[x]").value);
    }
  }

  lemma {:induction false} FirstMatchIs(lines: seq<string>, needle: string, i: nat)
    requires i <= |lines| && (i < |lines| ==> Matches(lines[i], needle)) && forall j :: 0 <= j < i ==> !Matches(lines[j], needle)
    ensures FirstMatch(lines, needle) == if i < |lines| then Some(i) else None
  {
    if lines != [] {
      FirstMatchIs(lines[..|lines| - 1], needle, if i == |lines| then i - 1 else i);
    }
  }

  /** The first line that says both `[x]` and the trimmed title is marked; a blank title, or no such line, marks nothing. */
  lemma MarksExactlyWhen(lines: seq<string>, title: string, i: nat)
    requires i <= |lines|
    requires forall j :: 0 <= j < i ==> !(Says(lines[j], "[x]") && Says(lines[j], Trim(title)))
    requires i < |lines| ==> Says(lines[i], "[x]") && Says(lines[i], Trim(title))
    ensures MarkVerified(lines, title).Some? <==> Trim(title) != [] && i < |lines|
    ensures Trim(title) != [] && i < |lines| ==>
      var r := MarkVerified(lines, title).value;
      |r| == |lines| && (forall j :: 0 <= j < |lines| && j != i ==> r[j] == lines[j]) && r[i] != lines[i]
  {
    forall j | 0 <= j < |lines| ensures Matches(lines[j], Trim(title)) <==> Says(lines[j], "[x]") && Says(lines[j], Trim(title)) {
      MatchesIs(lines[j], Trim(title));
    }
    FirstMatchIs(lines, Trim(title), i);
    if Trim(title) != [] && i < |lines| {
      OneCharacterChanges(lines, title);
    }
  }

  // ---- Trimming and prefixes of two lines that differ in one character -----------------------

  lemma {:induction false} TrimStartIs(s: string, n: nat)
    requires n < |s| && !IsWhitespace(s[n]) && forall i :: 0 <= i < n ==> IsWhitespace(s[i])
    ensures TrimStart(s) == s[n..]
  {
    if n > 0 {
      TrimStartIs(s[1..], n - 1);
      assert s[1..][n - 1..] == s[n..];
    }
  }

  /** Where `TrimStart` stops. */
  lemma {:induction false} TrimStartStops(s: string) returns (n: nat)
    requires TrimStart(s) != []
    ensures n < |s| && !IsWhitespace(s[n]) && TrimStart(s) == s[n..] && forall i :: 0 <= i < n ==> IsWhitespace(s[i])
  {
    if IsWhitespace(s[0]) {
      n := TrimStartStops(s[1..]);
      n := n + 1;
      assert s[1..][n - 1..] == s[n..];
    } else {
      n := 0;
    }
  }

  lemma {:induction false} DotsStop(s: string) returns (n: nat)
    ensures n <= |s| && TrimStartOf(s, ".") == s[n..] && (n < |s| ==> s[n] != '.') && forall i :: 0 <= i < n ==> s[i] == '.'
  {
    if s != [] && s[0] == '.' {
      n := DotsStop(s[1..]);
      n := n + 1;
      assert s[1..][n - 1..] == s[n..];
    } else {
      n := 0;
    }
  }

  lemma {:induction false} DotsAre(s: string, n: nat)
    requires n < |s| && s[n] != '.' && forall i :: 0 <= i < n ==> s[i] == '.'
    ensures TrimStartOf(s, ".") == s[n..]
  {
    if n > 0 {
      DotsAre(s[1..], n - 1);
      assert s[1..][n - 1..] == s[n..];
    }
  }

  lemma {:induction false} DigitsStop(s: string)
    ensures
      var n := |LeadingDigits(s)|;
      n <= |s| && LeadingDigits(s) == s[..n] && (n < |s| ==> !IsDigit(s[n])) && forall i :: 0 <= i < n ==> IsDigit(s[i])
  {
    if s != [] && IsDigit(s[0]) {
      DigitsStop(s[1..]);
      var n := |LeadingDigits(s[1..])|;
      assert s[..n + 1] == [s[0]] + s[1..][..n];
    }
  }

  lemma {:induction false} DigitsAre(s: string, n: nat)
    requires n < |s| && !IsDigit(s[n]) && forall i :: 0 <= i < n ==> IsDigit(s[i])
    ensures LeadingDigits(s) == s[..n]
  {
    if n > 0 {
      DigitsAre(s[1..], n - 1);
      assert s[..n] == [s[0]] + s[1..][..n - 1];
    }
  }

  lemma FlippedTail(s: string, t: string, at: nat, n: nat)
    requires Flipped(s, t, at) && n <= at
    ensures Flipped(s[n..], t[n..], at - n)
  {
  }

  lemma TrimStartFlipped(s: string, t: string, at: nat) returns (n: nat)
    requires Flipped(s, t, at)
    ensures n <= at && TrimStart(s) == s[n..] && TrimStart(t) == t[n..] && !IsWhitespace(s[n])
    ensures forall i :: 0 <= i < n ==> IsWhitespace(s[i])
  {
    KeepsStart(s, at);
    n := TrimStartStops(s);
    TrimStartIs(t, n);
  }

  lemma {:induction false} KeepsStart(s: string, at: nat)
    requires at < |s| && !IsWhitespace(s[at])
    ensures TrimStart(s) != []
  {
    if IsWhitespace(s[0]) {
      KeepsStart(s[1..], at - 1);
    }
  }

  lemma {:induction false} TrimEndFlipped(s: string, t: string, at: nat)
    requires Flipped(s, t, at)
    ensures |TrimEnd(s)| > at && Flipped(TrimEnd(s), TrimEnd(t), at)
  {
    if at < |s| - 1 && IsWhitespace(s[|s| - 1]) {
      TrimEndFlipped(s[..|s| - 1], t[..|s| - 1], at);
    }
  }

  /** Trimming both lines drops the same blanks. */
  lemma TrimFlipped(s: string, t: string, at: nat) returns (n: nat)
    requires Flipped(s, t, at)
    ensures n <= at && Flipped(Trim(s), Trim(t), at - n) && TrimStart(s) == s[n..]
    ensures forall i :: 0 <= i < n ==> IsWhitespace(s[i])
  {
    n := TrimStartFlipped(s, t, at);
    FlippedTail(s, t, at, n);
    TrimEndFlipped(s[n..], t[n..], at - n);
  }

  // ---- The prefix before the marker ---------------------------------------------------------

  /** `s` has only white space from `a` on, up to and without `b`. */
  predicate Blank(s: string, a: nat, b: nat) {
    a <= b < |s| && !IsWhitespace(s[b]) && forall i :: a <= i < b ==> IsWhitespace(s[i])
  }

  predicate Digits(s: string, a: nat, b: nat) {
    a < b < |s| && !IsDigit(s[b]) && forall i :: a <= i < b ==> IsDigit(s[i])
  }

  predicate Dots(s: string, a: nat, b: nat) {
    a <= b < |s| && s[b] != '.' && forall i :: a <= i < b ==> s[i] == '.'
  }

  /** Blanks up to `w`, a checkpoint number up to `d`, dots up to `e`, blanks up to `n`. */
  predicate Checkpoint(s: string, w: nat, d: nat, e: nat, n: nat) {
    Blank(s, 0, w) && w + 3 < |s| && s[w] == 'C' && s[w + 1] == 'P' && s[w + 2] == '-'
    && Digits(s, w + 3, d) && Dots(s, d, e) && Blank(s, e, n)
  }

  predicate Numbered(s: string, w: nat, d: nat, n: nat) {
    Blank(s, 0, w) && Digits(s, w, d) && s[d] == '.' && Blank(s, d + 1, n)
  }

  predicate Dashed(s: string, w: nat, n: nat) {
    Blank(s, 0, w) && w + 2 < |s| && s[w] == '-' && s[w + 1] == ' ' && Blank(s, w + 2, n)
  }

  lemma TrimFrom(s: string, a: nat, b: nat)
    requires Blank(s, a, b)
    ensures TrimStart(s[a..]) == s[b..]
  {
    TrimStartIs(s[a..], b - a);
    assert s[a..][b - a..] == s[b..];
  }

  lemma DigitsFrom(s: string, a: nat, b: nat)
    requires Digits(s, a, b)
    ensures LeadingDigits(s[a..]) == s[a..b]
  {
    DigitsAre(s[a..], b - a);
    assert s[a..][..b - a] == s[a..b];
  }

  lemma DotsFrom(s: string, a: nat, b: nat)
    requires Dots(s, a, b)
    ensures TrimStartOf(s[a..], ".") == s[b..]
  {
    DotsAre(s[a..], b - a);
    assert s[a..][b - a..] == s[b..];
  }

  lemma CheckpointStrips(s: string, w: nat, d: nat, e: nat, n: nat)
    requires Checkpoint(s, w, d, e, n)
    ensures StripFeaturePrefix(s) == Some((None, s[n..]))
  {
    TrimFrom(s, 0, w);
    assert s[0..] == s;
    var t := s[w..];
    assert "CP-" <= t && t[3..] == s[w + 3..];
    DigitsFrom(s, w + 3, d);
    assert t[3 + (d - w - 3)..] == s[d..];
    DotsFrom(s, d, e);
    TrimFrom(s, e, n);
  }

  lemma NumberedStrips(s: string, w: nat, d: nat, n: nat)
    requires Numbered(s, w, d, n)
    ensures StripFeaturePrefix(s) == Some((ParseUnsigned(s[w..d], U32_MAX), s[n..]))
  {
    TrimFrom(s, 0, w);
    assert s[0..] == s;
    var t := s[w..];
    assert t[0] == s[w];
    DigitsFrom(s, w, d);
    TrimFrom(s, d + 1, n);
    assert t[d - w] == '.' && t[d - w + 1..] == s[d + 1..];
    NumberStrips(s, t, s[w..d], s[n..]);
  }

  lemma NumberStrips(s: string, t: string, digits: string, rest: string)
    requires t == TrimStart(s) && t != [] && IsDigit(t[0])
    requires digits == LeadingDigits(t) != [] && |digits| < |t| && t[|digits|] == '.'
    requires rest == TrimStart(t[|digits| + 1..])
    ensures StripFeaturePrefix(s) == Some((ParseUnsigned(digits, U32_MAX), rest))
  {
    assert t[|digits|..][0] == '.';
    assert !("CP-" <= t);
  }

  lemma DashedStrips(s: string, w: nat, n: nat)
    requires Dashed(s, w, n)
    ensures StripFeaturePrefix(s) == Some((None, s[n..]))
  {
    TrimFrom(s, 0, w);
    assert s[0..] == s;
    var t := s[w..];
    assert t[0] == '-' && LeadingDigits(t) == [] && !("CP-" <= t) && "- " <= t;
    assert t[2..] == s[w + 2..];
    TrimFrom(s, w + 2, n);
  }

  datatype Prefix = CheckpointPrefix(w: nat, d: nat, e: nat) | NumberPrefix(w: nat, d: nat) | DashPrefix(w: nat)

  predicate HasPrefix(s: string, p: Prefix, n: nat) {
    match p
    case CheckpointPrefix(w, d, e) => Checkpoint(s, w, d, e, n)
    case NumberPrefix(w, d) => Numbered(s, w, d, n)
    case DashPrefix(w) => Dashed(s, w, n)
  }

  lemma BlankFrom(s: string, a: nat) returns (b: nat)
    requires a <= |s| && TrimStart(s[a..]) != []
    ensures Blank(s, a, b) && TrimStart(s[a..]) == s[b..]
  {
    var k := TrimStartStops(s[a..]);
    b := a + k;
    assert s[a..][k..] == s[b..];
    assert forall i :: a <= i < b ==> s[i] == s[a..][i - a];
  }

  /** What precedes the text that is left when a prefix is stripped. */
  lemma PrefixOf(s: string) returns (p: Prefix, n: nat)
    requires StripFeaturePrefix(s).Some? && StripFeaturePrefix(s).value.1 != []
    ensures HasPrefix(s, p, n) && StripFeaturePrefix(s).value.1 == s[n..]
  {
    assert s[0..] == s;
    var w := BlankFrom(s, 0);
    p, n := PrefixAfter(s, w, TrimStart(s));
  }

  lemma PrefixAfter(s: string, w: nat, t: string) returns (p: Prefix, n: nat)
    requires Blank(s, 0, w) && t == TrimStart(s) == s[w..]
    requires StripFeaturePrefix(s).Some? && StripFeaturePrefix(s).value.1 != []
    ensures HasPrefix(s, p, n) && StripFeaturePrefix(s).value.1 == s[n..]
  {
    if "CP-" <= t && LeadingDigits(t[3..]) != [] {
      p, n := CheckpointOf(s, w);
    } else if LeadingDigits(t) != [] && "." <= t[|LeadingDigits(t)|..] {
      p, n := NumberOf(s, w);
    } else {
      p, n := DashOf(s, w);
    }
  }

  lemma NumberOf(s: string, w: nat) returns (p: Prefix, n: nat)
    requires Blank(s, 0, w) && LeadingDigits(s[w..]) != []
    requires
      var t, k := s[w..], |LeadingDigits(s[w..])|;
      k <= |t| && "." <= t[k..] && TrimStart(t[k + 1..]) != []
    ensures HasPrefix(s, p, n)
    ensures
      var t, k := s[w..], |LeadingDigits(s[w..])|;
      TrimStart(t[k + 1..]) == s[n..]
  {
    var t := s[w..];
    var d := DigitsUpTo(s, w);
    assert s[d] == t[d - w] == t[d - w..][0];
    assert t[d - w + 1..] == s[d + 1..];
    n := BlankFrom(s, d + 1);
    p := NumberPrefix(w, d);
  }

  lemma DashOf(s: string, w: nat) returns (p: Prefix, n: nat)
    requires Blank(s, 0, w) && "- " <= s[w..] && TrimStart(s[w..][2..]) != []
    ensures HasPrefix(s, p, n) && TrimStart(s[w..][2..]) == s[n..]
  {
    var t := s[w..];
    assert s[w] == t[0] && s[w + 1] == t[1] && t[2..] == s[w + 2..];
    n := BlankFrom(s, w + 2);
    p := DashPrefix(w);
  }

  lemma CheckpointOf(s: string, w: nat) returns (p: Prefix, n: nat)
    requires Blank(s, 0, w) && "CP-" <= s[w..] && LeadingDigits(s[w..][3..]) != []
    requires
      var t, k := s[w..], |LeadingDigits(s[w..][3..])|;
      3 + k <= |t| && TrimStart(TrimStartOf(t[3 + k..], ".")) != []
    ensures HasPrefix(s, p, n)
    ensures
      var t, k := s[w..], |LeadingDigits(s[w..][3..])|;
      TrimStart(TrimStartOf(t[3 + k..], ".")) == s[n..]
  {
    var t := s[w..];
    assert t[0] == s[w] && t[1] == s[w + 1] && t[2] == s[w + 2];
    assert t[3..] == s[w + 3..];
    var k := |LeadingDigits(s[w + 3..])|;
    assert t[3 + k..] == s[w + 3 + k..];
    assert w + 3 + k < |s|;
    var d := DigitsUpTo(s, w + 3);
    var e := DotsUpTo(s, d);
    n := BlankFrom(s, e);
    p := CheckpointPrefix(w, d, e);
  }

  lemma DigitsUpTo(s: string, a: nat) returns (d: nat)
    requires a <= |s| && LeadingDigits(s[a..]) != [] && a + |LeadingDigits(s[a..])| < |s|
    ensures Digits(s, a, d) && d == a + |LeadingDigits(s[a..])|
  {
    var t := s[a..];
    DigitsStop(t);
    d := a + |LeadingDigits(t)|;
    assert s[d] == t[d - a];
    assert forall i :: a <= i < d ==> s[i] == t[i - a];
  }

  lemma DotsUpTo(s: string, a: nat) returns (e: nat)
    requires a <= |s| && TrimStartOf(s[a..], ".") != []
    ensures Dots(s, a, e) && TrimStartOf(s[a..], ".") == s[e..]
  {
    var t := s[a..];
    var k := DotsStop(t);
    e := a + k;
    assert t[k..] == s[e..];
    assert s[e] == t[k];
    assert forall i :: a <= i < e ==> s[i] == t[i - a];
  }

  lemma PrefixFlipped(s: string, t: string, p: Prefix, n: nat)
    requires HasPrefix(s, p, n) && n + 1 < |s| && Flipped(s, t, n + 1) && s[n] == '['
    ensures HasPrefix(t, p, n) && forall i :: 0 <= i < n ==> s[i] != '['
  {
  }

  /** The first `[x]` of a done bullet is its marker; with a `v` in it the prefix and the rest stay. */
  lemma StripFlipped(s: string, t: string, n: nat, p: Prefix)
    requires HasPrefix(s, p, n) && n + 1 < |s| && Flipped(s, t, n + 1) && s[n] == '['
    requires StripFeaturePrefix(s).Some? && StripFeaturePrefix(s).value.1 == s[n..]
    ensures StripFeaturePrefix(t) == Some((StripFeaturePrefix(s).value.0, t[n..]))
  {
    PrefixFlipped(s, t, p, n);
    match p
    case CheckpointPrefix(w, d, e) =>
      CheckpointStrips(s, w, d, e, n);
      CheckpointStrips(t, w, d, e, n);
    case NumberPrefix(w, d) =>
      NumberedStrips(s, w, d, n);
      NumberedStrips(t, w, d, n);
      assert s[w..d] == t[w..d];
    case DashPrefix(w) =>
      DashedStrips(s, w, n);
      DashedStrips(t, w, n);
  }

  // ---- The marked line ----------------------------------------------------------------------

  /** A bullet, numbered or checkpoint line whose marker is `[x]`. */
  predicate DoneBullet(trimmed: string) {
    StripFeaturePrefix(trimmed).Some? && "[x]" <= StripFeaturePrefix(trimmed).value.1
  }

  function AsVerified(f: PlanFeature): PlanFeature {
    f.(status := Verified, userVerified := true)
  }

  lemma MarkersOf(rest: string, rest': string)
    requires "[x]" <= rest && Flipped(rest, rest', 1)
    ensures ParseStatusMarker(rest) == Some(Done) && ParseStatusMarker(rest') == Some(Verified)
    ensures rest[3..] == rest'[3..]
  {
    assert rest'[..3] == ['[', 'v', ']'];
    assert "[v]" <= rest';
  }

  lemma BulletFlipped(s: string, t: string, n: nat, p: Prefix)
    requires HasPrefix(s, p, n) && StripFeaturePrefix(s).Some? && StripFeaturePrefix(s).value.1 == s[n..]
    requires "[x]" <= s[n..] && Flipped(s, t, n + 1) && ParseBulletFeatureLine(s).Some?
    ensures ParseBulletFeatureLine(t) == Some(AsVerified(ParseBulletFeatureLine(s).value))
  {
    assert s[n] == s[n..][0];
    StripFlipped(s, t, n, p);
    FlippedTail(s, t, n + 1, n);
    MarkersOf(s[n..], t[n..]);
    OtherMarker(s, t, StripFeaturePrefix(s).value.0, s[n..], t[n..]);
  }

  lemma OtherMarker(s: string, t: string, id: Option<nat>, rest: string, rest': string)
    requires StripFeaturePrefix(s) == Some((id, rest)) && StripFeaturePrefix(t) == Some((id, rest'))
    requires ParseStatusMarker(rest) == Some(Done) && ParseStatusMarker(rest') == Some(Verified)
    requires rest[3..] == rest'[3..] && ParseBulletFeatureLine(s).Some?
    ensures ParseBulletFeatureLine(t) == Some(AsVerified(ParseBulletFeatureLine(s).value))
  {
  }

  /** The first character of a line with a prefix is none that starts a heading or a table row. */
  lemma PrefixedIsBullet(s: string, p: Prefix, n: nat)
    requires HasPrefix(s, p, n) && !IsWhitespace(s[0])
    ensures MarkdownHeading(s) == None && ParseTableFeatureLine(s) == None
  {
    assert s[0] != '#' && s[0] != '|';
    assert HashCount(s) == 0;
    assert !("|" <= s);
  }

  lemma {:induction false} TrimStartsBare(s: string)
    ensures Trim(s) != [] ==> !IsWhitespace(Trim(s)[0])
    ensures Trim(s) <= TrimStart(s)
  {
    TrimStartTwice(s);
    TrimEndIsPrefix(TrimStart(s));
    if Trim(s) != [] {
      assert Trim(s)[0] == TrimStart(s)[0];
    }
  }

  /** Where the marker of a done bullet is in its line: the first `[x]`. */
  lemma MarkerIsFirst(line: string, s: string, n: nat) returns (off: nat)
    requires s == Trim(line) && n < |s| && "[x]" <= s[n..] && forall i :: 0 <= i < n ==> s[i] != '['
    ensures off + n + 3 <= |line| && TrimStart(line) == line[off..] && forall i :: 0 <= i < off ==> IsWhitespace(line[i])
    ensures Find(line, "[x]") == Some(off + n)
  {
    TrimStartsBare(line);
    off := TrimStartStops(line);
    PrefixInLine(line, off, s, n);
    FirstIsAt(line, off + n);
  }

  lemma PrefixInLine(line: string, off: nat, s: string, n: nat)
    requires off <= |line| && s <= line[off..] && n <= |s| && "[x]" <= s[n..]
    requires (forall i :: 0 <= i < off ==> IsWhitespace(line[i])) && forall i :: 0 <= i < n ==> s[i] != '['
    ensures off + n + 3 <= |line| && "[x]" <= line[off + n..]
    ensures forall i :: 0 <= i < off + n ==> line[i] != '['
  {
    assert s[n..][..3] == s[n..n + 3] == line[off..][n..n + 3] == line[off + n..off + n + 3];
    assert line[off + n..][..3] == line[off + n..off + n + 3];
    forall i | 0 <= i < off + n ensures line[i] != '[' {
      if i >= off {
        assert line[i] == line[off..][i - off] == s[i - off];
      }
    }
  }

  lemma FirstIsAt(line: string, at: nat)
    requires at <= |line| && "[x]" <= line[at..] && forall i :: 0 <= i < at ==> line[i] != '['
    ensures Find(line, "[x]") == Some(at)
  {
    forall j | 0 <= j < at ensures !("[x]" <= line[j..]) {
      assert line[j..][0] == line[j];
    }
    FindIs(line, "[x]", at);
  }

  lemma NoBracketBefore(s: string, p: Prefix, n: nat)
    requires HasPrefix(s, p, n)
    ensures n < |s| && forall i :: 0 <= i < n ==> s[i] != '['
  {
  }

  /** Marking a done bullet's line makes it parse as the same feature, verified by the user. */
  lemma MarkedLineParses(line: string)
    requires Classify(line).Body? && Classify(line).feature.Some? && DoneBullet(Trim(line))
    ensures Find(line, "[x]").Some?
    ensures
      var marked := Classify(Marked(line));
      marked.Body? && marked.feature == Some(AsVerified(Classify(line).feature.value))
  {
    var p, n := MarkedTrims(line);
    var marked, g := Marked(line), AsVerified(Classify(line).feature.value);
    BulletLineFlipped(line, Trim(line), Trim(marked), n, p);
    ClassifyBullet(marked, Trim(marked), g);
  }

  lemma ClassifyBullet(line: string, t: string, g: PlanFeature)
    requires t == Trim(line) && MarkdownHeading(t) == None && ParseTableFeatureLine(t) == None
    requires ParseBulletFeatureLine(t) == Some(g)
    ensures Classify(line).Body? && Classify(line).feature == Some(g)
  {
    TrimTwice(line);
  }

  lemma MarkedTrims(line: string) returns (p: Prefix, n: nat)
    requires DoneBullet(Trim(line))
    ensures Find(line, "[x]").Some?
    ensures
      var s := Trim(line);
      && HasPrefix(s, p, n) && StripFeaturePrefix(s).value.1 == s[n..] && "[x]" <= s[n..]
      && Flipped(s, Trim(Marked(line)), n + 1)
  {
    p, n := PrefixOf(Trim(line));
    NoBracketBefore(Trim(line), p, n);
    var off := MarkerIsFirst(line, Trim(line), n);
    MarkedIsFlipped(line);
    var n0 := TrimFlipped(line, Marked(line), off + n + 1);
    assert n0 == off by {
      assert |line[n0..]| == |line[off..]|;
    }
  }

  lemma BulletLineFlipped(line: string, s: string, t: string, n: nat, p: Prefix)
    requires s == Trim(line) && Classify(line).Body? && Classify(line).feature.Some?
    requires HasPrefix(s, p, n) && StripFeaturePrefix(s).Some? && StripFeaturePrefix(s).value.1 == s[n..]
    requires "[x]" <= s[n..] && Flipped(s, t, n + 1)
    ensures MarkdownHeading(t) == None && ParseTableFeatureLine(t) == None
    ensures ParseBulletFeatureLine(t) == Some(AsVerified(Classify(line).feature.value))
  {
    TrimStartsBare(line);
    assert s[n] == s[n..][0];
    PrefixFlipped(s, t, p, n);
    assert t[0] == s[0];
    PrefixedIsBullet(s, p, n);
    PrefixedIsBullet(t, p, n);
    ReadAsBullet(line, s);
    BulletFlipped(s, t, n, p);
  }

  lemma ReadAsBullet(line: string, s: string)
    requires s == Trim(line) && ParseTableFeatureLine(s) == None && Classify(line).Body?
    ensures Classify(line).feature == ParseBulletFeatureLine(s)
  {
    TrimTwice(line);
  }
}
