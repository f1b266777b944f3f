/**
 What single lines of a PLAN.md file mean (`crates/orrch-core/src/plan_parser.rs`): which headings start a region or name
 a phase and what the phase is called; which status, number, title and description a bullet has with any of its leads and
 markers; and how the cells of a table row are read. The markers, words and dashes are spelled out.
 */
module PlanLines {
  import opened Options
  import opened Text
  import opened PlanText
  import opened PlanAppend
  import opened PlanVerify

  // ---- Headings -----------------------------------------------------------------------------

  function Hashes(n: nat): (r: string)
    ensures |r| == n
  {
    if n == 0 then [] else ['#'] + Hashes(n - 1)
  }

  lemma {:induction false} HashesCount(n: nat, rest: string)
    requires rest == [] || rest[0] != '#'
    ensures HashCount(Hashes(n) + rest) == n && (Hashes(n) + rest)[n..] == rest
  {
    if n == 0 {
      assert Hashes(n) + rest == rest;
    } else {
      assert (Hashes(n) + rest)[1..] == Hashes(n - 1) + rest;
      HashesCount(n - 1, rest);
    }
  }

  /** A heading has two to six number signs and a space after them. */
  lemma HeadingExactlyWhen(n: nat, rest: string)
    requires rest == [] || rest[0] != '#'
    ensures MarkdownHeading(Hashes(n) + rest)
         == if 2 <= n <= 6 && rest != [] && rest[0] == ' ' then Some((n, Trim(rest))) else None
  {
    HashesCount(n, rest);
    HashCountBound(Hashes(n) + rest);
    if rest != [] && rest[0] == ' ' {
      assert " " <= rest;
    }
  }

  /** A number such as `2.1` and blanks stand before the words. */
  ghost predicate NumberedRoadmap(h: string) {
    exists j :: 0 <= j <= |h| && "feature roadmap" <= h[j..] && IsNumbering(Trim(h[..j]))
  }

  predicate IsNumbering(s: string) {
    s != [] && forall c :: c in s ==> c in "0123456789."
  }

  /** The words are the whole heading, or a colon, a dash or a parenthesis follows them. */
  predicate NamedAlone(h: string, words: string) {
    words <= h && (h == words ||
      (TrimStart(h[|words|..]) != [] && TrimStart(h[|words|..])[0] in [':', '-', '\U{2014}', '\U{2013}', '(']))
  }

  const ROADMAP_PHRASES: seq<string> :=
    ["feature roadmap", "roadmap", "development phases", "phases", "plan", "milestones", "critical path"]

  /** One of the seven phrases, with nothing else in the heading before or right behind it. */
  ghost predicate NamedRoadmap(h: string) {
    exists k :: 0 <= k < |ROADMAP_PHRASES| && NamedAlone(h, ROADMAP_PHRASES[k])
  }

  /** Which headings open a roadmap region: a numbered feature roadmap, or one of seven phrases alone. */
  lemma RegionHeadingExactlyWhen(heading: string, h: string)
    requires h == NormalizedHeading(heading)
    ensures IsRoadmapRegionHeading(heading) <==> NumberedRoadmap(h) || NamedRoadmap(h)
  {
    ListedIs(h);
    StartsIs(h, "feature roadmap");
  }

  lemma StartsIs(h: string, words: string)
    requires words == "feature roadmap"
    ensures StartsWithNumber(h) <==> NumberedRoadmap(h)
  {
    var pos := Find(h, words);
    NumberedIs(h, pos);
    if pos.Some? {
      NumberingIs(Trim(h[..pos.value]));
    }
  }

  /** Which headings name a phase. */
  lemma PhaseLikeExactlyWhen(heading: string)
    ensures
      var h := NormalizedHeading(heading);
      IsPhaseLikeHeading(heading) <==>
        "phase " <= h || Says(h, "critical path") || Says(h, "cross-cutting") || Says(h, "cross cutting")
  {
    var h := NormalizedHeading(heading);
    ContainsExactlyWhen(h, "critical path");
    ContainsExactlyWhen(h, "cross-cutting");
    ContainsExactlyWhen(h, "cross cutting");
  }

  lemma NumberingIs(s: string)
    ensures IsNumbering(s) <==> s != [] && forall c :: c in s ==> IsDigit(c) || c == '.'
  {
    forall c ensures c in "0123456789." <==> IsDigit(c) || c == '.' {
      DigitOrDot(c);
    }
  }

  lemma DigitOrDot(c: char)
    ensures c in "0123456789." <==> IsDigit(c) || c == '.'
  {
  }

  /** Only the first place where the words stand can have nothing but a number before it. */
  lemma NumberedIs(h: string, pos: Option<nat>)
    requires pos == Find(h, "feature roadmap")
    ensures NumberedRoadmap(h) <==> pos.Some? && IsNumbering(Trim(h[..pos.value]))
  {
    if pos.Some? {
      FindIsThere(h, "feature roadmap", pos.value);
    }
    if NumberedRoadmap(h) {
      var j :| 0 <= j <= |h| && "feature roadmap" <= h[j..] && IsNumbering(Trim(h[..j]));
      if pos.None? {
        NotInside(h, "feature roadmap", j);
      } else if pos.value < j {
        var letter := h[pos.value];
        assert letter == h[pos.value..][0] == 'f';
        assert letter == h[..j][pos.value];
        StaysInTrim(h[..j], letter);
        DigitOrDot(letter);
      } else if j < pos.value {
        NotEarlier(h, "feature roadmap", j);
      }
    }
  }

  lemma {:induction false} StaysInEnd(s: string, c: char)
    requires c in s && !IsWhitespace(c)
    ensures c in TrimEnd(s)
  {
    if IsWhitespace(s[|s| - 1]) {
      assert s == s[..|s| - 1] + [s[|s| - 1]];
      StaysInEnd(s[..|s| - 1], c);
    }
  }

  lemma {:induction false} StaysInTrim(s: string, c: char)
    requires c in s && !IsWhitespace(c)
    ensures c in Trim(s)
  {
    if IsWhitespace(s[0]) {
      assert s == [s[0]] + s[1..];
      StaysInTrim(s[1..], c);
    } else {
      StaysInEnd(s, c);
    }
  }

  lemma ListedIs(h: string)
    ensures StartsWithName(h) <==> NamedRoadmap(h)
  {
    SamePhrases(ROADMAP_HEADINGS, ROADMAP_PHRASES);
    InList(h, ROADMAP_HEADINGS);
  }

  lemma SamePhrases(all: seq<string>, same: seq<string>)
    requires all == ROADMAP_HEADINGS && same == ROADMAP_PHRASES
    ensures all == same
  {
  }

  lemma InList(h: string, all: seq<string>)
    ensures
      (exists words :: words in all && words <= h && (words == h || AnnotatedRoadmap(h[|words|..]))) <==>
      exists k :: 0 <= k < |all| && NamedAlone(h, all[k])
  {
    forall words | words <= h ensures NamedAlone(h, words) <==> words == h || AnnotatedRoadmap(h[|words|..]) {
    }
    if k :| 0 <= k < |all| && NamedAlone(h, all[k]) {
      assert all[k] in all;
    }
  }

  // ---- Headings without their dressing ------------------------------------------------------

  /** Nothing to trim and nothing struck through. */
  predicate IsPlain(s: string) {
    s != [] && Trim(s) == s && '~' !in s
  }

  lemma {:induction false} NothingRemoved(s: string)
    requires '~' !in s
    ensures RemoveAll(s, "~~") == s && RemoveAll(s + "~~", "~~") == s
  {
    var struck := s + "~~";
    if s == [] {
      assert struck[2..] == [];
    } else {
      assert s[0] in s && struck[0] == s[0];
      assert struck[1..] == s[1..] + "~~" && s == [s[0]] + s[1..];
      NothingRemoved(s[1..]);
    }
  }

  lemma StrikeGoes(s: string)
    requires '~' !in s
    ensures RemoveAll("~~" + s + "~~", "~~") == s
  {
    var struck := "~~" + s + "~~";
    assert struck[2..] == s + "~~" && struck[0] == '~' && struck[1] == '~';
    NothingRemoved(s);
  }

  lemma {:induction false} HashesGo(s: string, n: nat)
    requires s != [] && s[|s| - 1] != '#'
    ensures TrimEndOf(s + Hashes(n), "#") == s
  {
    var all, set_: string := s + Hashes(n), "#";
    if n == 0 {
      assert all == s && s[|s| - 1] !in set_;
    } else {
      HashesSnoc(n - 1);
      assert all[..|all| - 1] == s + Hashes(n - 1) && all[|all| - 1] == set_[0];
      HashesGo(s, n - 1);
    }
  }

  lemma {:induction false} HashesSnoc(n: nat)
    ensures Hashes(n + 1) == Hashes(n) + ['#']
  {
    if n > 0 {
      HashesSnoc(n - 1);
    }
  }

  /** Blanks around it, a strike through all of it and number signs after it do not change what a heading says. */
  lemma HeadingIsNormalized(s: string, n: nat)
    requires IsPlain(s) && s[|s| - 1] != '#'
    ensures NormalizedHeading(s) == ToLower(s)
    ensures NormalizedHeading("~~" + s + "~~") == ToLower(s)
    ensures NormalizedHeading(s + " " + Hashes(n)) == ToLower(s)
  {
    NothingRemoved(s);
    StrikeGoes(s);
    HashesGo(s, 0);
    assert s + Hashes(0) == s;
    HashesHaveNoTilde(n);
    NothingRemoved(s + " " + Hashes(n));
    ClosingGoes(s, n);
  }

  lemma ClosingGoes(s: string, n: nat)
    requires IsPlain(s) && s[|s| - 1] != '#'
    ensures Trim(TrimEndOf(Trim(s + " " + Hashes(n)), "#")) == s
  {
    var closed := s + " " + Hashes(n);
    PlainEnds(s);
    TrimBlank(s);
    if n == 0 {
      assert closed == s + " ";
      HashesGo(s, 0);
      assert s + Hashes(0) == s;
    } else {
      HashesSnoc(n - 1);
      assert closed[|closed| - 1] == '#' && closed[0] == s[0];
      assert Trim(closed) == closed;
      HashesGo(s + " ", n);
    }
  }

  lemma {:induction false} HashesHaveNoTilde(n: nat)
    ensures '~' !in Hashes(n)
  {
    if n > 0 {
      HashesHaveNoTilde(n - 1);
    }
  }

  lemma PlainEnds(s: string)
    requires s != [] && Trim(s) == s
    ensures !IsWhitespace(s[0]) && !IsWhitespace(s[|s| - 1])
  {
    TrimStartTwice(s);
    TrimEndIsPrefix(TrimStart(s));
    TrimEndIsPrefix(s[..|s| - 1]);
  }

  lemma TrimBlank(s: string)
    requires s != [] && !IsWhitespace(s[0]) && !IsWhitespace(s[|s| - 1])
    ensures Trim(s + " ") == s
  {
    var t := s + " ";
    assert t[0] == s[0] && t[..|t| - 1] == s && IsWhitespace(t[|t| - 1]);
    assert TrimEnd(s) == s;
  }

  // ---- Phases -------------------------------------------------------------------------------

  lemma FindOne(a: string, c: char, b: string)
    requires c !in a
    ensures Find(a + [c] + b, [c]) == Some(|a|) && (a + [c] + b)[..|a|] == a && (a + [c] + b)[|a| + 1..] == b
  {
    var s := a + [c] + b;
    assert s[|a|..] == [c] + b;
    forall j | 0 <= j < |a| ensures !([c] <= s[j..]) {
      assert s[j..][0] == a[j];
    }
    FindIs(s, [c], |a|);
  }

  lemma {:induction false} FindNone(s: string, c: char)
    requires c !in s
    ensures Find(s, [c]) == None
  {
    if s != [] {
      assert s[0] in s;
      FindNone(s[1..], c);
    }
  }

  lemma PhaseIs(s: string)
    requires IsPlain(s) && "phase " <= ToLower(s)
    ensures
      var at := NameSeparator(s);
      ParsePhaseHeading(s)
      == PlanPhase(
           if at.Some? then Trim(s[at.value + 1..]) else s, ParseUnsigned(LeadingDigits(ToLower(s)[6..]), U8_MAX), [])
  {
    NothingRemoved(s);
  }

  lemma EmDashParts(before: string, after: string)
    requires '\U{2014}' !in before
    ensures NameSeparator(before + ['\U{2014}'] + after) == Some(|before|)
  {
    FindOne(before, '\U{2014}', after);
  }

  lemma EnDashParts(before: string, after: string)
    requires '\U{2013}' !in before && '\U{2014}' !in before + ['\U{2013}'] + after
    ensures NameSeparator(before + ['\U{2013}'] + after) == Some(|before|)
  {
    FindNone(before + ['\U{2013}'] + after, '\U{2014}');
    FindOne(before, '\U{2013}', after);
  }

  lemma ColonParts(before: string, after: string)
    requires ':' !in before && '(' !in before
    requires '\U{2014}' !in before + [':'] + after && '\U{2013}' !in before + [':'] + after
    ensures NameSeparator(before + [':'] + after) == Some(|before|)
  {
    var s := before + [':'] + after;
    FindNone(s, '\U{2014}');
    FindNone(s, '\U{2013}');
    FindOne(before, ':', after);
    FoundBehind(s, '(', |before|);
  }

  lemma {:induction false} FoundBehind(s: string, c: char, n: nat)
    requires n < |s| && c !in s[..n] && s[n] != c
    ensures Find(s, [c]).Some? ==> n < Find(s, [c]).value
  {
    if n > 0 {
      assert s[0] == s[..n][0] && s[1..][..n - 1] == s[..n][1..];
      FoundBehind(s[1..], c, n - 1);
    }
  }

  /** The name of a phase stands after the first em dash, else the first en dash, else a colon before any parenthesis. */
  lemma PhaseNameReads(s: string, before: string, mark: char, after: string)
    requires IsPlain(s) && "phase " <= ToLower(s) && s == before + [mark] + after && mark !in before
    requires mark == '\U{2014}' || ('\U{2014}' !in s && (mark == '\U{2013}' ||
      ('\U{2013}' !in s && mark == ':' && '(' !in before)))
    ensures ParsePhaseHeading(s).name == Trim(after)
  {
    PhaseIs(s);
    if mark == '\U{2014}' {
      EmDashParts(before, after);
    } else if mark == '\U{2013}' {
      EnDashParts(before, after);
    } else {
      ColonParts(before, after);
    }
    assert s[|before| + 1..] == after;
  }

  /** Without a dash, and without a colon before the first parenthesis, the name is the whole heading. */
  lemma WholeHeadingIsName(s: string, before: string, after: string)
    requires IsPlain(s) && "phase " <= ToLower(s) && '\U{2014}' !in s && '\U{2013}' !in s
    requires ':' !in s || (s == before + ['('] + after && ':' !in before)
    ensures ParsePhaseHeading(s).name == s
  {
    PhaseIs(s);
    FindNone(s, '\U{2014}');
    FindNone(s, '\U{2013}');
    if ':' !in s {
      FindNone(s, ':');
    } else {
      FoundBefore(s, '(', |before|);
      FoundBehind(s, ':', |before|);
    }
  }

  lemma FoundBefore(s: string, c: char, i: nat)
    requires i < |s| && s[i] == c
    ensures Find(s, [c]).Some? && Find(s, [c]).value <= i
  {
    assert [c] <= s[i..];
    if Find(s, [c]).None? {
      NotInside(s, [c], i);
    } else if i < Find(s, [c]).value {
      NotEarlier(s, [c], i);
    }
  }

  /** The number of a phase is what its digits say, up to 255; a heading of another kind is its own name. */
  lemma PhaseNumberReads(word: string, n: nat, rest: string)
    requires ToLower(word) == "phase " && IsPlain(word + Decimal(n) + rest)
    requires rest != [] ==> !IsDigit(rest[0])
    ensures ParsePhaseHeading(word + Decimal(n) + rest).number == if n <= 255 then Some(n) else None
  {
    NumberAfter(word, Decimal(n), rest);
    DigitsRead(Decimal(n), n);
  }

  lemma NumberAfter(word: string, digits: string, rest: string)
    requires ToLower(word) == "phase " && IsPlain(word + digits + rest)
    requires (forall c :: c in digits ==> IsDigit(c)) && (rest != [] ==> !IsDigit(rest[0]))
    ensures ParsePhaseHeading(word + digits + rest).number == ParseUnsigned(digits, U8_MAX)
  {
    LowerParts(word, digits + rest);
    assert word + digits + rest == word + (digits + rest);
    PhaseIs(word + digits + rest);
    LowerDigits(digits, rest);
  }

  lemma LowerParts(a: string, b: string)
    ensures ToLower(a + b)[..|a|] == ToLower(a) && ToLower(a + b)[|a|..] == ToLower(b)
  {
  }

  lemma DigitsRead(digits: string, n: nat)
    requires digits != [] && (forall c :: c in digits ==> IsDigit(c)) && DigitsValue(digits) == n
    ensures ParseUnsigned(digits, U8_MAX) == if n <= 255 then Some(n) else None
  {
    assert digits[0] in digits;
  }

  lemma LowerDigits(digits: string, rest: string)
    requires (forall c :: c in digits ==> IsDigit(c)) && (rest != [] ==> !IsDigit(rest[0]))
    ensures LeadingDigits(ToLower(digits + rest)) == digits
  {
    assert ToLower(digits) == digits by {
      assert forall i :: 0 <= i < |digits| ==> digits[i] in digits && LowerChar(digits[i]) == digits[i];
    }
    assert ToLower(digits + rest) == digits + ToLower(rest);
    if rest == [] {
      assert digits + ToLower(rest) == digits;
      AllDigits(digits);
    } else {
      DigitsLead(digits, ToLower(rest));
    }
  }

  lemma {:induction false} AllDigits(digits: string)
    requires forall c :: c in digits ==> IsDigit(c)
    ensures LeadingDigits(digits) == digits
  {
    if digits != [] {
      AllDigits(digits[1..]);
      assert digits == [digits[0]] + digits[1..];
    }
  }

  lemma UnnumberedReads(s: string)
    requires IsPlain(s)
    ensures !("phase " <= ToLower(s)) ==> ParsePhaseHeading(s) == PlanPhase(s, None, [])
    ensures "phase " <= ToLower(s) && |s| > 6 && !IsDigit(s[6]) ==> ParsePhaseHeading(s).number == None
  {
    NothingRemoved(s);
    if "phase " <= ToLower(s) && |s| > 6 && !IsDigit(s[6]) {
      assert ToLower(s)[6..][0] == LowerChar(s[6]);
    }
  }

  // ---- Bullets ------------------------------------------------------------------------------

  /** What a feature line may begin with. */
  datatype Lead = Dash | Number(n: nat) | CheckpointNumber(n: nat)

  function LeadText(lead: Lead): (r: string)
    ensures r != []
  {
    match lead
    case Dash => "- "
    case Number(n) => Decimal(n) + ". "
    case CheckpointNumber(n) => "CP-" + Decimal(n) + ". "
  }

  /** Only a plain number numbers the feature, and only if it is a `u32`. */
  function LeadId(lead: Lead): Option<nat> {
    if lead.Number? && lead.n <= 4294967295 then Some(lead.n) else None
  }

  lemma LeadStrips(lead: Lead, rest: string)
    requires rest != [] && !IsWhitespace(rest[0])
    ensures StripFeaturePrefix(LeadText(lead) + rest) == Some((LeadId(lead), rest))
  {
    match lead
    case Dash => AfterDash(rest);
    case Number(n) => AfterNumber(Decimal(n), rest);
    case CheckpointNumber(n) => AfterCheckpoint(Decimal(n), rest);
  }

  lemma AfterDash(rest: string)
    requires rest != [] && !IsWhitespace(rest[0])
    ensures StripFeaturePrefix("- " + rest) == Some((None, rest))
  {
    var s := "- " + rest;
    assert s[0] == '-' && s[1] == ' ' && s[2] == rest[0] && s[2..] == rest;
    DashedStrips(s, 0, 2);
  }

  lemma AfterNumber(digits: string, rest: string)
    requires digits != [] && (forall c :: c in digits ==> IsDigit(c)) && rest != [] && !IsWhitespace(rest[0])
    ensures StripFeaturePrefix(digits + ". " + rest) == Some((ParseUnsigned(digits, U32_MAX), rest))
  {
    var s, d := digits + ". " + rest, |digits|;
    assert s[..d] == digits && s[d] == '.' && s[d + 1] == ' ' && s[d + 2] == rest[0] && s[d + 2..] == rest;
    assert forall i :: 0 <= i < d ==> s[i] == digits[i] && digits[i] in digits;
    assert s[0] == digits[0];
    NumberedStrips(s, 0, d, d + 2);
    assert s[0..d] == digits;
  }

  lemma AfterCheckpoint(digits: string, rest: string)
    requires digits != [] && (forall c :: c in digits ==> IsDigit(c)) && rest != [] && !IsWhitespace(rest[0])
    ensures StripFeaturePrefix("CP-" + digits + ". " + rest) == Some((None, rest))
  {
    var s, d := "CP-" + digits + ". " + rest, 3 + |digits|;
    assert s[0] == 'C' && s[1] == 'P' && s[2] == '-';
    assert s[d] == '.' && s[d + 1] == ' ' && s[d + 2] == rest[0] && s[d + 2..] == rest;
    assert forall i :: 3 <= i < d ==> s[i] == digits[i - 3] && digits[i - 3] in digits;
    CheckpointStrips(s, 0, d, d + 1, d + 2);
  }

  /** The words that make a planned feature a deprecated one. */
  ghost predicate SaysRetired(title: string, description: string) {
    || Says(ToUpper(description), "DEPRECATED") || Says(description, "MOVED") || Says(ToUpper(title), "DEPRECATED")
  }

  lemma RetiredIs(title: string, description: string)
    ensures Retired(title, description) <==> SaysRetired(title, description)
  {
    ContainsExactlyWhen(ToUpper(description), "DEPRECATED");
    ContainsExactlyWhen(description, "MOVED");
    ContainsExactlyWhen(ToUpper(title), "DEPRECATED");
  }

  /** A title and a description with this status, which makes way for words that retire a planned feature. */
  ghost function FeatureOf(id: Option<nat>, title: string, description: string, status: FeatureStatus): PlanFeature {
    var now := if status == Planned && SaysRetired(title, description) then Deprecated else status;
    PlanFeature(id, title, description, now, status == Verified)
  }

  /** A bullet with a marker has the status of the marker, and one without is planned. */
  lemma BulletReads(lead: Lead, mark: string, text: string, title: string, description: string)
    requires text != [] && !IsWhitespace(text[0]) && title != []
    requires ParseTitleDescription(text) == (title, description)
    ensures |mark| == 3 && ParseStatusMarker(mark).Some? ==>
              ParseBulletFeatureLine(LeadText(lead) + mark + " " + text)
              == Some(FeatureOf(LeadId(lead), title, description, ParseStatusMarker(mark).value))
    ensures ParseStatusMarker(text).None? && text[0] !in "#|>" && !("---" <= text) && !("```" <= text) ==>
              ParseBulletFeatureLine(LeadText(lead) + text) == Some(FeatureOf(LeadId(lead), title, description, Planned))
  {
    if |mark| == 3 && ParseStatusMarker(mark).Some? {
      MarkedBullet(lead, mark, text, title, description);
    }
    if ParseStatusMarker(text).None? && text[0] !in "#|>" && !("---" <= text) && !("```" <= text) {
      LeadStrips(lead, text);
      RetiredIs(title, description);
      assert !("#" <= text) && !("|" <= text) && !(">" <= text) by {
        assert '#' in "#|>" && '|' in "#|>" && '>' in "#|>";
      }
      PlainBullet(LeadText(lead) + text, LeadId(lead), text, title, description);
    }
  }

  lemma PlainBullet(line: string, id: Option<nat>, text: string, title: string, description: string)
    requires StripFeaturePrefix(line) == Some((id, text))
    requires ParseStatusMarker(text).None? && !LooksLikeMetadata(text)
    requires ParseTitleDescription(text) == (title, description) && title != []
    ensures ParseBulletFeatureLine(line)
         == Some(PlanFeature(id, title, description, if Retired(title, description) then Deprecated else Planned, false))
  {
  }

  lemma MarkedBullet(lead: Lead, mark: string, text: string, title: string, description: string)
    requires text != [] && !IsWhitespace(text[0]) && title != []
    requires ParseTitleDescription(text) == (title, description)
    requires |mark| == 3 && ParseStatusMarker(mark).Some?
    ensures ParseBulletFeatureLine(LeadText(lead) + mark + " " + text)
         == Some(FeatureOf(LeadId(lead), title, description, ParseStatusMarker(mark).value))
  {
    var rest, status := mark + " " + text, ParseStatusMarker(mark).value;
    assert LeadText(lead) + mark + " " + text == LeadText(lead) + rest;
    MarkedRest(mark, text);
    LeadStrips(lead, rest);
    RetiredIs(title, description);
    MarkedText(LeadText(lead) + rest, LeadId(lead), rest, status, text, title, description);
  }

  lemma MarkedRest(mark: string, text: string)
    requires |mark| == 3 && ParseStatusMarker(mark).Some? && text != [] && !IsWhitespace(text[0])
    ensures
      var rest := mark + " " + text;
      rest[0] == '[' && ParseStatusMarker(rest) == ParseStatusMarker(mark) && TrimStart(rest[3..]) == text
  {
    var rest := mark + " " + text;
    MarkerEnds(mark);
    SameMarker(mark, " " + text);
    assert mark + (" " + text) == rest && rest[3..] == " " + text;
    assert (" " + text)[1..] == text;
  }

  lemma SameMarker(mark: string, rest: string)
    requires |mark| == 3
    ensures ParseStatusMarker(mark + rest) == ParseStatusMarker(mark)
  {
    var s := mark + rest;
    assert s[0] == mark[0] && s[1] == mark[1] && s[2] == mark[2];
  }

  lemma MarkedText(
    line: string, id: Option<nat>, rest: string, status: FeatureStatus, text: string, title: string, description: string)
    requires StripFeaturePrefix(line) == Some((id, rest)) && ParseStatusMarker(rest) == Some(status)
    requires TrimStart(rest[3..]) == text && ParseTitleDescription(text) == (title, description) && title != []
    ensures
      var now := if status == Planned && Retired(title, description) then Deprecated else status;
      ParseBulletFeatureLine(line) == Some(PlanFeature(id, title, description, now, now == Verified))
  {
  }

  /** A line without a lead, or with nothing after it that could be a title, is no feature. */
  lemma NoBullet(lead: Lead, text: string)
    requires text != [] && !IsWhitespace(text[0]) && ParseStatusMarker(text).None?
    requires text[0] in "#|>" || "---" <= text || "```" <= text
    ensures ParseBulletFeatureLine(LeadText(lead) + text) == None
  {
    LeadStrips(lead, text);
    if text[0] == '#' {
      assert "#" <= text;
    } else if text[0] == '|' {
      assert "|" <= text;
    } else if text[0] == '>' {
      assert ">" <= text;
    }
  }

  /** A title stands in bold, or before the first em dash, or is the whole text. */
  lemma TitleReads(title: string, gap: string, description: string)
    requires title != [] && Find(title + "**", "**") == Some(|title|)
    requires forall c :: c in gap ==> c in SEPARATORS
    requires description == [] || (Trim(description) == description && description[0] !in SEPARATORS)
    ensures ParseTitleDescription("**" + title + "**" + gap + description) == (title, description)
  {
    assert "**" + title + "**" + gap + description == "**" + title + "**" + (gap + description);
    BoldTitleReads(title, gap + description, SEPARATORS);
    GapGoes(gap, description, SEPARATORS);
  }

  /** Blanks and dashes between a title and its description. */
  const SEPARATORS: string := [' ', '\U{2014}', '-', '\U{2013}']

  lemma BoldTitleReads(title: string, after: string, set_: string)
    requires title != [] && Find(title + "**", "**") == Some(|title|) && set_ == [' ', EM_DASH, '-', EN_DASH]
    ensures ParseTitleDescription("**" + title + "**" + after) == (title, Trim(TrimStartOf(after, set_)))
  {
    var text := "**" + title + "**" + after;
    assert text[2..] == title + "**" + after;
    FindSurvives(title + "**", after, "**");
    assert text[2..][..|title|] == title && text[2..][|title| + 2..] == after;
  }

  lemma {:induction false} GapGoes(gap: string, s: string, set_: string)
    requires (forall c :: c in gap ==> c in set_) && (s != [] ==> s[0] !in set_)
    ensures TrimStartOf(gap + s, set_) == s
  {
    if gap == [] {
      assert gap + s == s;
    } else {
      assert gap[0] in gap && (gap + s)[1..] == gap[1..] + s;
      GapGoes(gap[1..], s, set_);
    }
  }

  lemma PlainTitleReads(title: string, description: string)
    requires !("**" <= title + ['\U{2014}'] + description) && '\U{2014}' !in title
    ensures ParseTitleDescription(title + ['\U{2014}'] + description) == (Trim(title), Trim(description))
    ensures !("**" <= title) ==> ParseTitleDescription(title) == (Trim(title), [])
  {
    FindOne(title, '\U{2014}', description);
    FindNone(title, '\U{2014}');
  }

  /** Digits up to place `k`, and there a dot and a blank. */
  predicate IsNumberAt(s: string, k: int) {
    0 < k < |s| - 1 && s[k] == '.' && s[k + 1] == ' ' && forall i :: 0 <= i < k ==> IsDigit(s[i])
  }

  /** Which lines go on with the description above them, and which are steps of a numbered list. */
  lemma ContinuesExactlyWhen(s: string)
    ensures PlanText.IsContinuation(s) <==> s != [] && s[0] !in "#|>_" && !("---" <= s) && !("```" <= s)
    ensures IsNumberedListLine(s) <==>
            exists k :: IsNumberAt(s, k)
  {
    if s != [] {
      var c := s[0];
      assert c in "#|>_" <==> c == '#' || c == '|' || c == '>' || c == '_';
      assert ("#" <= s <==> c == '#') && ("|" <= s <==> c == '|') && (">" <= s <==> c == '>') && ("_" <= s <==> c == '_');
    }
    NumberedExactlyWhen(s);
  }

  lemma NumberedExactlyWhen(s: string)
    ensures IsNumberedListLine(s) <==>
            exists k :: IsNumberAt(s, k)
  {
    var digits := LeadingDigits(s);
    DigitsStop(s);
    var n := |digits|;
    if k :| IsNumberAt(s, k) {
      assert n == k;
      assert s[n..][0] == '.' && s[n..][1] == ' ';
    }
    if IsNumberedListLine(s) {
      assert s[n] == s[n..][0] && s[n + 1] == s[n..][1];
      assert IsNumberAt(s, n);
    }
  }

  /** A line with a lead is neither a heading nor a table row. */
  lemma LeadIsBullet(lead: Lead, rest: string)
    requires Trim(LeadText(lead) + rest) == LeadText(lead) + rest
    ensures
      var line := Classify(LeadText(lead) + rest);
      line.Body? && line.feature == ParseBulletFeatureLine(LeadText(lead) + rest)
  {
    var s := LeadText(lead) + rest;
    assert s[0] == LeadText(lead)[0];
    match lead
    case Dash => NoHeadingNoRow(s);
    case Number(n) =>
      assert Decimal(n)[0] in Decimal(n);
      NoHeadingNoRow(s);
    case CheckpointNumber(n) => NoHeadingNoRow(s);
  }

  lemma NoHeadingNoRow(s: string)
    requires s != [] && s[0] != '#' && s[0] != '|' && Trim(s) == s
    ensures Classify(s).Body? && Classify(s).feature == ParseBulletFeatureLine(s)
  {
    assert HashCount(s) == 0;
    assert !("|" <= s);
  }

  // ---- Table rows ---------------------------------------------------------------------------

  /** A row as it is usually written: a blank on each side of every cell. */
  function RowText(cells: seq<string>): string {
    if cells == [] then "|" else "| " + cells[0] + " " + RowText(cells[1..])
  }

  predicate IsCell(cell: string) {
    Trim(cell) == cell && '|' !in cell
  }

  predicate AllCells(cells: seq<string>) {
    forall i :: 0 <= i < |cells| ==> IsCell(cells[i])
  }

  /** The text between the outer bars. */
  function Between(cells: seq<string>): string
    requires cells != []
  {
    if |cells| == 1 then " " + cells[0] + " " else " " + cells[0] + " |" + Between(cells[1..])
  }

  lemma {:induction false} RowIsBetween(cells: seq<string>)
    requires cells != []
    ensures RowText(cells) == "|" + Between(cells) + "|"
  {
    if |cells| == 1 {
      assert cells[1..] == [];
      OneCell(cells[0]);
    } else {
      RowIsBetween(cells[1..]);
      MoreCells(cells[0], Between(cells[1..]));
    }
  }

  lemma OneCell(cell: string)
    ensures "| " + cell + " " + "|" == "|" + (" " + cell + " ") + "|"
  {
  }

  lemma MoreCells(cell: string, inner: string)
    ensures "| " + cell + " " + ("|" + inner + "|") == "|" + (" " + cell + " |" + inner) + "|"
  {
  }

  lemma {:induction false} BetweenEnds(cells: seq<string>)
    requires cells != []
    ensures Between(cells) != [] && Between(cells)[0] == ' ' && Between(cells)[|Between(cells)| - 1] == ' '
  {
    if |cells| > 1 {
      BetweenEnds(cells[1..]);
    }
  }

  lemma {:induction false} PiecesOfBetween(cells: seq<string>)
    requires cells != [] && AllCells(cells)
    ensures TrimAll(Split(Between(cells), '|')) == cells
  {
    var first := " " + cells[0] + " ";
    TrimPadded(cells[0]);
    assert '|' !in first;
    if |cells| == 1 {
      SplitNone(first, '|');
      assert [cells[0]] == cells;
    } else {
      var rest := Between(cells[1..]);
      assert Between(cells) == first + ['|'] + rest;
      SplitAt(first, rest, '|');
      PiecesOfBetween(cells[1..]);
      TrimAllCons(first, Split(rest, '|'));
      assert cells == [cells[0]] + cells[1..];
    }
  }

  lemma TrimAllCons(first: string, rest: seq<string>)
    ensures TrimAll([first] + rest) == [Trim(first)] + TrimAll(rest)
  {
  }

  lemma TrimPadded(cell: string)
    requires Trim(cell) == cell
    ensures Trim(" " + cell + " ") == cell
  {
    var s := " " + cell + " ";
    assert s[1..] == cell + " ";
    if cell == [] {
      assert s == "  " && s[1..] == " " && s[1..][1..] == [];
      assert TrimStart(s[1..][1..]) == [] && TrimStart(s[1..]) == [];
    } else {
      PlainEnds(cell);
      TrimBlank(cell);
    }
  }

  /** A row is read cell by cell. */
  lemma RowReads(cells: seq<string>)
    requires cells != [] && AllCells(cells)
    ensures ParseTableFeatureLine(RowText(cells)) == ReadRow(cells)
  {
    var row, inner := RowText(cells), Between(cells);
    RowIsBetween(cells);
    BetweenEnds(cells);
    BarsGo(inner);
    PiecesOfBetween(cells);
    assert row[0] == '|' && row[|row| - 1] == '|';
    assert "|" <= row && row[|row| - 1..] == "|";
  }

  lemma BarsGo(inner: string)
    requires inner != [] && inner[0] != '|' && inner[|inner| - 1] != '|'
    ensures Inner("|" + inner + "|") == inner
  {
    var bar := "|";
    var row := "|" + inner + "|";
    assert row[0] == bar[0] && row[1..] == inner + "|";
    assert (inner + "|")[0] == inner[0] && inner[0] !in bar;
    assert TrimStartOf(row, bar) == inner + "|";
    var tail := inner + "|";
    assert tail[|tail| - 1] == bar[0] && tail[..|tail| - 1] == inner && inner[|inner| - 1] !in bar;
    assert TrimEndOf(inner, bar) == inner;
  }

  function Filled(cells: seq<string>): seq<string> {
    if cells == [] then [] else (if cells[0] == [] then [] else [cells[0]]) + Filled(cells[1..])
  }

  ghost predicate NoStatus(cells: seq<string>) {
    forall i :: 0 <= i < |cells| ==> ParseStatusCell(cells[i]).None?
  }

  lemma {:induction false} FirstStatusIs(before: seq<string>, cell: string, after: seq<string>)
    requires NoStatus(before) && ParseStatusCell(cell).Some?
    ensures FirstStatusCell(before + [cell] + after) == Some(|before|)
  {
    var cells := before + [cell] + after;
    if before == [] {
      assert cells[0] == cell;
    } else {
      assert cells[0] == before[0] && cells[1..] == before[1..] + [cell] + after;
      assert forall i :: 0 <= i < |before| - 1 ==> before[1..][i] == before[i + 1];
      FirstStatusIs(before[1..], cell, after);
    }
  }

  /** The cells from the third on, without the status cell and without empty ones. */
  lemma {:induction false} DescriptionIs(cells: seq<string>, from: nat, q: nat)
    requires from <= |cells|
    ensures from <= q < |cells| ==> DescriptionCells(cells, from, q) == Filled(cells[from..q] + cells[q + 1..])
    ensures q < from ==> DescriptionCells(cells, from, q) == Filled(cells[from..])
    decreases |cells| - from
  {
    if from < |cells| {
      DescriptionIs(cells, from + 1, q);
      if from == q {
        assert cells[from..q] + cells[q + 1..] == cells[from + 1..];
      } else if from < q < |cells| {
        var rest := cells[from..q] + cells[q + 1..];
        assert rest[0] == cells[from] && rest[1..] == cells[from + 1..q] + cells[q + 1..];
      } else {
        assert cells[from..][1..] == cells[from + 1..];
      }
    }
  }

  /**
   A row that starts with a number cell and a title cell: the first cell with a marker after them gives the status, the
   title cell the title, and the description is the one in the title cell, or else all other cells that are not empty.
   */
  lemma MarkedRowReads(id: string, name: string, middle: seq<string>, mark: string, after: seq<string>)
    requires NoStatus([id, name] + middle) && ParseStatusCell(mark).Some? && ToLower(id) != "id"
    requires ParseTitleDescription(name).0 != []
    ensures
      var (title, described) := ParseTitleDescription(name);
      var description := if described == [] then Join(Filled(middle + after), " | ") else described;
      var status := ParseStatusCell(mark).value;
      ReadRow([id, name] + middle + [mark] + after)
      == Some(PlanFeature(ParseUnsigned(id, 4294967295), title, description, status, status == Verified))
  {
    var cells, q := [id, name] + middle + [mark] + after, 2 + |middle|;
    FirstStatusIs([id, name] + middle, mark, after);
    assert cells[q] == mark && cells[0] == id && cells[1] == name;
    ReadRowIs(cells, q);
    DescriptionIs(cells, 2, q);
    assert cells[2..q] == middle && cells[q + 1..] == after;
  }

  /** With the marker in the second cell, the title is what stands there, marker and all. */
  lemma MarkerSecondReads(id: string, mark: string, rest: seq<string>)
    requires ParseStatusCell(id).None? && ParseStatusCell(mark).Some? && ToLower(id) != "id" && rest != []
    requires ParseTitleDescription(mark).0 != []
    ensures
      var (title, described) := ParseTitleDescription(mark);
      var description := if described == [] then Join(Filled(rest), " | ") else described;
      var status := ParseStatusCell(mark).value;
      ReadRow([id, mark] + rest)
      == Some(PlanFeature(ParseUnsigned(id, 4294967295), title, description, status, status == Verified))
  {
    var cells := [id, mark] + rest;
    assert [id] + [mark] + rest == cells;
    FirstStatusIs([id], mark, rest);
    assert cells[0] == id && cells[1] == mark && cells[2..] == rest;
    ReadRowIs(cells, 1);
    DescriptionIs(cells, 2, 1);
  }

  lemma StatusIsNoRule(cell: string)
    requires ParseStatusCell(cell).Some?
    ensures !IsRuleCell(cell)
  {
    var core := Trim(TrimEndOf(TrimStartOf(Trim(cell), "`"), "`"));
    assert core[0] == '[';
    InTrimmed(Trim(cell), '[');
    InTrim(cell, '[');
    var rule := "-: ";
    assert '[' in cell && '[' !in rule;
  }

  lemma InTrimmed(s: string, c: char)
    requires c in Trim(TrimEndOf(TrimStartOf(s, "`"), "`"))
    ensures c in s
  {
    InTrim(TrimEndOf(TrimStartOf(s, "`"), "`"), c);
    InEndOf(TrimStartOf(s, "`"), "`", c);
    InStartOf(s, "`", c);
  }

  lemma {:induction false} InStartOf(s: string, set_: string, c: char)
    requires c in TrimStartOf(s, set_)
    ensures c in s
  {
    if s != [] && s[0] in set_ {
      InStartOf(s[1..], set_, c);
    }
  }

  lemma {:induction false} InEndOf(s: string, set_: string, c: char)
    requires c in TrimEndOf(s, set_)
    ensures c in s
  {
    if s != [] && s[|s| - 1] in set_ {
      InEndOf(s[..|s| - 1], set_, c);
    }
  }

  lemma InTrim(s: string, c: char)
    requires c in Trim(s)
    ensures c in s
  {
    TrimEndIsPrefix(TrimStart(s));
    InStart(s, c);
  }

  lemma {:induction false} InStart(s: string, c: char)
    ensures c in TrimStart(s) ==> c in s
  {
    if s != [] && IsWhitespace(s[0]) {
      InStart(s[1..], c);
    }
  }

  /** With the marker first, the title is in the first cell after it that is not empty. */
  lemma MarkerFirstReads(mark: string, rest: seq<string>)
    requires ParseStatusCell(mark).Some? && ToLower(mark) != "id" && |rest| >= 2
    requires Filled(rest) != [] && ParseTitleDescription(Filled(rest)[0]).0 != []
    ensures
      var (title, described) := ParseTitleDescription(Filled(rest)[0]);
      var description := if described == [] then Join(Filled(rest[1..]), " | ") else described;
      var status := ParseStatusCell(mark).value;
      ReadRow([mark] + rest)
      == Some(PlanFeature(ParseUnsigned(mark, 4294967295), title, description, status, status == Verified))
  {
    var cells := [mark] + rest;
    assert [] + [mark] + rest == cells;
    FirstStatusIs([], mark, rest);
    assert cells[0] == mark && cells[1..] == rest && cells[2..] == rest[1..];
    ReadRowIs(cells, 0);
    FirstFilled(rest);
    DescriptionIs(cells, 2, 0);
  }

  lemma ReadRowIs(cells: seq<string>, q: nat)
    requires |cells| >= 3 && FirstStatusCell(cells) == Some(q) && ToLower(cells[0]) != "id"
    ensures q < |cells| && ParseStatusCell(cells[q]).Some?
    ensures ReadRow(cells) == RowFeature(cells, q, ParseStatusCell(cells[q]).value)
  {
    StatusIsNoRule(cells[q]);
    assert cells[q] in cells;
  }

  lemma {:induction false} FirstFilled(cells: seq<string>)
    requires Filled(cells) != []
    ensures FirstNonEmpty(cells) == Filled(cells)[0]
  {
    if cells[0] == [] {
      FirstFilled(cells[1..]);
    }
  }

  /** No feature: fewer than three cells, the row of column names, the rule under it, and rows without a marker. */
  lemma NoRow(cells: seq<string>)
    requires |cells| < 3 || ToLower(cells[0]) == "id" || NoStatus(cells)
    ensures ReadRow(cells) == None
  {
    if FirstStatusCell(cells).Some? {
      assert ParseStatusCell(cells[FirstStatusCell(cells).value]).Some?;
    }
  }

  /** A status cell may stand in back quotes and among blanks. */
  lemma StatusCellReads(mark: string, n: nat)
    requires |mark| == 3 && ParseStatusMarker(mark).Some?
    ensures ParseStatusCell(mark) == ParseStatusMarker(mark)
    ensures ParseStatusCell("`" + mark + "`") == ParseStatusMarker(mark)
  {
    MarkerEnds(mark);
    var quote, quoted := "`", "`" + mark + "`";
    assert quoted[0] == '`' && quoted[|quoted| - 1] == '`' && quoted[1..] == mark + "`";
    assert mark[0] !in quote && mark[2] !in quote;
    assert TrimStartOf(mark, quote) == mark && TrimEndOf(mark, quote) == mark;
    assert (mark + "`")[0] == mark[0];
    assert TrimStartOf(quoted, quote) == mark + "`";
    assert (mark + "`")[..3] == mark && (mark + "`")[3] == quote[0];
    assert TrimEndOf(mark + "`", quote) == mark;
  }

  lemma MarkerEnds(mark: string)
    requires |mark| == 3 && ParseStatusMarker(mark).Some?
    ensures mark[0] == '[' && mark[2] == ']' && Trim(mark) == mark
  {
    MarkerMeans(mark, mark[1]);
    assert TrimStart(mark) == mark;
  }
}
