/**
 Documents on which moving a feature up panics (`move_feature_in_plan` in `crates/orrch-core/src/plan_parser.rs`): both
 titles stand in bold on the last line alone, below two phases whose features are plain bullets. The insertion point is
 taken before the line is removed, and lies beyond the end afterwards. Reading such a document takes a lemma for each kind
 of line.
 */
module PlanPanic {
  import opened Options
  import opened Text
  import opened PlanText
  import opened PlanParser
  import opened PlanMove
  import opened PlanRows

  /** A region with two phases of one feature each, and a last line with both titles in bold. */
  predicate IsDocument(lines: seq<string>, region: string, a: string, t: string, b: string, u: string) {
    && |lines| == 6 && lines[0] == "## " + region
    && lines[1] == "### " + a && lines[2] == "- " + t && lines[3] == "### " + b && lines[4] == "- " + u
    && lines[5] == Bold(t) + " " + Bold(u)
  }

  // ---- Reading its lines --------------------------------------------------------------------

  lemma NothingToTrim(s: string)
    requires s != [] && !IsWhitespace(s[0]) && !IsWhitespace(s[|s| - 1])
    ensures Trim(s) == s && TrimStart(s) == s
  {
  }

  lemma {:induction false} NothingToRemove(s: string)
    requires '~' !in s
    ensures RemoveAll(s, "~~") == s
  {
    if s != [] {
      assert s[0] != '~' && s == [s[0]] + s[1..];
      NothingToRemove(s[1..]);
    }
  }

  lemma {:induction false} NotThere(s: string, c: char)
    requires c !in s
    ensures Find(s, [c]).None?
  {
    if s != [] {
      assert s[0] != c;
      NotThere(s[1..], c);
    }
  }

  lemma HeadingOf(level: nat, prefix: string, text: string, line: string)
    requires (level == 2 && prefix == "## ") || (level == 3 && prefix == "### ")
    requires PlainWord(text) && line == prefix + text
    ensures Classify(line).Head?
    ensures Classify(line).heading.level == level
    ensures Classify(line).heading.namesRegion == IsRoadmapRegionHeading(text)
  {
    NothingToTrim(line);
    NothingToTrim(text);
    assert line[level..] == " " + text;
    assert (" " + text)[1..] == text;
    HashesOf(line, level);
    assert MarkdownHeading(line) == Some((level, text));
  }

  lemma {:induction false} HashesOf(line: string, level: nat)
    requires level < |line| && line[level] != '#' && forall i :: 0 <= i < level ==> line[i] == '#'
    ensures HashCount(line) == level
  {
    if level > 0 {
      HashesOf(line[1..], level - 1);
    }
  }

  lemma PlanIsRegion()
    ensures IsRoadmapRegionHeading("Plan")
  {
    NothingToRemove("Plan");
    NothingToTrim("Plan");
    assert TrimEndOf("Plan", "#") == "Plan";
    assert ToLower("Plan") == "plan";
    assert ROADMAP_HEADINGS[4] == "plan" && "plan" in ROADMAP_HEADINGS;
  }

  /** What a title in these documents looks like. */
  predicate PlainWord(title: string) {
    && title != [] && !IsWhitespace(title[0]) && !IsWhitespace(title[|title| - 1])
    && EM_DASH !in title && title[0] !in "[#->|`*"
  }

  lemma PlainTitleRead(title: string)
    requires PlainWord(title)
    ensures ParseStatusMarker(title).None? && !LooksLikeMetadata(title) && ParseTitleDescription(title) == (title, [])
  {
    NothingToTrim(title);
    NotThere(title, EM_DASH);
    assert forall c :: c in "[#->|`*" ==> title[0] != c;
    assert "[#->|`*"[0] == '[' && "[#->|`*"[1] == '#' && "[#->|`*"[2] == '-' && "[#->|`*"[3] == '>';
    assert "[#->|`*"[4] == '|' && "[#->|`*"[5] == '`' && "[#->|`*"[6] == '*';
  }

  lemma DashStripped(title: string, line: string)
    requires PlainWord(title) && line == "- " + title
    ensures Trim(line) == line && StripFeaturePrefix(line) == Some((None, title))
    ensures MarkdownHeading(line).None? && ParseTableFeatureLine(line).None?
  {
    NothingToTrim(line);
    NothingToTrim(title);
    assert line[0] == '-' && HashCount(line) == 0 && LeadingDigits(line) == [];
    assert line[2..] == title;
  }

  lemma PlainBullet(title: string, line: string)
    requires PlainWord(title) && line == "- " + title
    ensures Titled(Classify(line), title)
  {
    DashStripped(title, line);
    PlainTitleRead(title);
    BulletTitle(line, title);
  }

  lemma BulletTitle(line: string, title: string)
    requires Trim(line) == line && StripFeaturePrefix(line) == Some((None, title)) && title != []
    requires MarkdownHeading(line).None? && ParseTableFeatureLine(line).None?
    requires ParseStatusMarker(title).None? && !LooksLikeMetadata(title) && ParseTitleDescription(title) == (title, [])
    ensures Titled(Classify(line), title)
  {
    assert ParseFeatureLine(line) == ParseBulletFeatureLine(line);
  }

  lemma NoFeatureInBold(t: string, u: string, line: string)
    requires line == Bold(t) + " " + Bold(u)
    ensures Classify(line).Body? && Classify(line).feature.None?
  {
    assert line[0] == '*' && line[|line| - 1] == '*';
    NothingToTrim(line);
    assert HashCount(line) == 0 && LeadingDigits(line) == [];
  }

  // ---- Scanning it --------------------------------------------------------------------------

  predicate HasTitles(phases: seq<PlanPhase>, titles: seq<string>) {
    |phases| == |titles| && forall i :: 0 <= i < |phases| ==> |phases[i].features| == 1 && phases[i].features[0].title == titles[i]
  }

  predicate Titled(line: PlanLine, title: string) {
    line.Body? && line.feature.Some? && line.feature.value.title == title
  }

  /** One more phase is open, without features yet. */
  predicate Opened(st: Scan, titles: seq<string>) {
    && st.region == Explicit && st.open && |st.phases| == |titles| + 1
    && HasTitles(st.phases[..|titles|], titles) && st.phases[|titles|].features == []
  }

  lemma HeadingOpens(st: Scan, line: PlanLine, titles: seq<string>)
    requires Coherent(st) && st.region == Explicit && HasTitles(st.phases, titles)
    requires line.Head? && line.heading.level == 3 && line.heading.phase.features == []
    ensures Opened(ScanLine(st, line), titles)
  {
  }

  lemma BulletCounts(st: Scan, line: PlanLine, titles: seq<string>, title: string)
    requires Coherent(st) && Opened(st, titles) && Titled(line, title)
    ensures
      var st' := ScanLine(st, line);
      st'.region == Explicit && st'.open && HasTitles(st'.phases, titles + [title])
  {
    var phases := ScanLine(st, line).phases;
    forall i | 0 <= i < |phases| ensures |phases[i].features| == 1 && phases[i].features[0].title == (titles + [title])[i] {
      if i < |titles| {
        assert phases[i] == st.phases[..|titles|][i];
      }
    }
  }

  lemma TextContinues(st: Scan, line: PlanLine, titles: seq<string>)
    requires Coherent(st) && line.Body? && line.feature.None? && HasTitles(st.phases, titles)
    ensures HasTitles(ScanLine(st, line).phases, titles)
  {
  }

  predicate IsHeading(c: PlanLine, level: nat) {
    c.Head? && c.heading.level == level && c.heading.phase.features == []
  }

  /** A region, two phases of one feature each, and a line of text. */
  predicate TwoPhaseLines(read: seq<PlanLine>, t: string, u: string) {
    && |read| == 6 && IsHeading(read[0], 2) && read[0].heading.namesRegion
    && IsHeading(read[1], 3) && Titled(read[2], t)
    && IsHeading(read[3], 3) && Titled(read[4], u)
    && read[5].Body? && read[5].feature.None?
  }

  lemma ScanSix(region: PlanLine, a: PlanLine, x: PlanLine, b: PlanLine, y: PlanLine, text: PlanLine, t: string, u: string)
    requires TwoPhaseLines([region, a, x, b, y, text], t, u)
    ensures
      var half := ScanLine(ScanLine(ScanLine(START, region), a), x);
      HasTitles(ScanLine(ScanLine(ScanLine(half, b), y), text).phases, [] + [t] + [u])
  {
    var begun := ScanLine(START, region);
    HeadingOpens(begun, a, []);
    BulletCounts(ScanLine(begun, a), x, [], t);
    var half := ScanLine(ScanLine(begun, a), x);
    HeadingOpens(half, b, [] + [t]);
    BulletCounts(ScanLine(half, b), y, [] + [t], u);
    TextContinues(ScanLine(ScanLine(half, b), y), text, [] + [t] + [u]);
  }

  lemma SixScanned(c: PlanLine, d: PlanLine, e: PlanLine, f: PlanLine, g: PlanLine, h: PlanLine)
    ensures ScanLines([c, d, e, f, g, h])
         == ScanLine(ScanLine(ScanLine(ScanLine(ScanLine(ScanLine(START, c), d), e), f), g), h)
  {
    ScanSnoc([], c);
    ScanSnoc([] + [c], d);
    ScanSnoc([c] + [d], e);
    ScanSnoc([c, d] + [e], f);
    ScanSnoc([c, d, e] + [f], g);
    ScanSnoc([c, d, e, f] + [g], h);
    assert [] + [c] == [c] && [c] + [d] == [c, d] && [c, d] + [e] == [c, d, e] && [c, d, e] + [f] == [c, d, e, f];
    assert [c, d, e, f] + [g] == [c, d, e, f, g] && [c, d, e, f, g] + [h] == [c, d, e, f, g, h];
  }

  lemma TwoPhasesScanned(read: seq<PlanLine>, t: string, u: string)
    requires TwoPhaseLines(read, t, u)
    ensures HasTitles(ScanLines(read).phases, [t, u])
  {
    assert read == [read[0], read[1], read[2], read[3], read[4], read[5]];
    SixScanned(read[0], read[1], read[2], read[3], read[4], read[5]);
    ScanSix(read[0], read[1], read[2], read[3], read[4], read[5], t, u);
    assert [] + [t] + [u] == [t, u];
  }

  lemma {:induction false} AllKept(phases: seq<PlanPhase>)
    requires forall i :: 0 <= i < |phases| ==> phases[i].features != []
    ensures NonEmpty(phases) == phases
  {
    if phases != [] {
      var front, last := phases[..|phases| - 1], phases[|phases| - 1];
      AllKept(front);
      NonEmptySnoc(front, last);
      assert phases == front + [last];
    }
  }

  lemma HeadingAt(lines: seq<string>, read: seq<PlanLine>, i: nat, level: nat, prefix: string, text: string)
    requires read == Map(Classify, lines) && i < |lines| && lines[i] == prefix + text && PlainWord(text)
    requires (level == 2 && prefix == "## ") || (level == 3 && prefix == "### ")
    ensures IsHeading(read[i], level) && read[i].heading.namesRegion == IsRoadmapRegionHeading(text)
  {
    HeadingOf(level, prefix, text, lines[i]);
    MapAt(Classify, lines, i);
  }

  lemma BulletAt(lines: seq<string>, read: seq<PlanLine>, i: nat, title: string)
    requires read == Map(Classify, lines) && i < |lines| && lines[i] == "- " + title && PlainWord(title)
    ensures Titled(read[i], title)
  {
    PlainBullet(title, lines[i]);
    MapAt(Classify, lines, i);
  }

  lemma PhaseAt(lines: seq<string>, read: seq<PlanLine>, i: nat, name: string, title: string)
    requires read == Map(Classify, lines) && i + 1 < |lines| && PlainWord(name) && PlainWord(title)
    requires lines[i] == "### " + name && lines[i + 1] == "- " + title
    ensures IsHeading(read[i], 3) && Titled(read[i + 1], title)
  {
    HeadingAt(lines, read, i, 3, "### ", name);
    BulletAt(lines, read, i + 1, title);
  }

  lemma BoldAt(lines: seq<string>, read: seq<PlanLine>, i: nat, t: string, u: string)
    requires read == Map(Classify, lines) && i < |lines| && lines[i] == Bold(t) + " " + Bold(u)
    ensures read[i].Body? && read[i].feature.None?
  {
    NoFeatureInBold(t, u, lines[i]);
    MapAt(Classify, lines, i);
  }

  lemma LinesOfDocument(
    lines: seq<string>, read: seq<PlanLine>, region: string, a: string, t: string, b: string, u: string)
    requires IsDocument(lines, region, a, t, b, u) && read == Map(Classify, lines)
    requires IsHeading(read[0], 2) && read[0].heading.namesRegion
    requires PlainWord(a) && PlainWord(t) && PlainWord(b) && PlainWord(u)
    ensures TwoPhaseLines(read, t, u)
  {
    PhaseAt(lines, read, 1, a, t);
    PhaseAt(lines, read, 3, b, u);
    BoldAt(lines, read, 5, t, u);
  }

  lemma TwoPhasesParsed(lines: seq<string>, t: string, u: string)
    requires TwoPhaseLines(Map(Classify, lines), t, u)
    ensures HasTitles(ParsePlan(lines), [t, u])
  {
    ScanIsOfLines(lines);
    TwoPhasesScanned(Map(Classify, lines), t, u);
    AllKept(ScanAll(lines).phases);
  }

  lemma TwoPhases(lines: seq<string>, region: string, a: string, t: string, b: string, u: string)
    requires IsDocument(lines, region, a, t, b, u) && IsRoadmapRegionHeading(region)
    requires PlainWord(region) && PlainWord(a) && PlainWord(t) && PlainWord(b) && PlainWord(u)
    ensures HasTitles(ParsePlan(lines), [t, u])
  {
    HeadingAt(lines, Map(Classify, lines), 0, 2, "## ", region);
    LinesOfDocument(lines, Map(Classify, lines), region, a, t, b, u);
    TwoPhasesParsed(lines, t, u);
  }

  // ---- Moving its second feature up ---------------------------------------------------------

  lemma {:induction false} NoStars(line: string, title: string)
    requires '*' !in line
    ensures !HasBold(line, title)
  {
    var bold := Bold(title);
    assert bold[0] == '*';
    if line != [] {
      assert line[0] != '*';
      NoStars(line[1..], title);
    }
  }

  lemma {:induction false} ContainsBehind(a: string, b: string, needle: string)
    requires needle <= b
    ensures Contains(a + b, needle)
  {
    if a == [] {
      assert a + b == b;
    } else {
      assert (a + b)[1..] == a[1..] + b;
      ContainsBehind(a[1..], b, needle);
    }
  }

  lemma BoldOnLastLine(lines: seq<string>, t: string, u: string, title: string)
    requires |lines| > 0 && lines[|lines| - 1] == Bold(t) + " " + Bold(u) && (title == t || title == u)
    requires forall j :: 0 <= j < |lines| - 1 ==> '*' !in lines[j]
    ensures FindFeatureLine(lines, title) == Some(|lines| - 1)
  {
    forall j | 0 <= j < |lines| - 1 ensures !HasBold(lines[j], title) {
      NoStars(lines[j], title);
    }
    ContainsBehind([], lines[|lines| - 1], Bold(t));
    assert [] + lines[|lines| - 1] == lines[|lines| - 1];
    ContainsBehind(Bold(t) + " ", Bold(u), Bold(u));
    FirstWithBold(lines, title, |lines| - 1);
  }

  lemma PanicsOnLastLine(lines: seq<string>, t: string, u: string)
    requires HasTitles(ParsePlan(lines), [t, u]) && lines != []
    requires FindFeatureLine(lines, t) == FindFeatureLine(lines, u) == Some(|lines| - 1)
    ensures MoveFeature(lines, 1, 0, Up) == Panicked
  {
    MovePanicsExactlyWhen(lines, 1, 0, Up);
  }

  predicate StarFree(s: string) {
    '*' !in s
  }

  lemma NoStarsAbove(lines: seq<string>, region: string, a: string, t: string, b: string, u: string)
    requires IsDocument(lines, region, a, t, b, u)
    requires StarFree(region) && StarFree(a) && StarFree(t) && StarFree(b) && StarFree(u)
    ensures forall j :: 0 <= j < 5 ==> '*' !in lines[j]
  {
    assert StarFree("## ") && StarFree("### ") && StarFree("- ");
  }

  /** Moving the first feature of the second phase of such a document up panics. */
  lemma MovePanicsOn(lines: seq<string>, region: string, a: string, t: string, b: string, u: string)
    requires IsDocument(lines, region, a, t, b, u) && IsRoadmapRegionHeading(region)
    requires PlainWord(region) && PlainWord(a) && PlainWord(t) && PlainWord(b) && PlainWord(u)
    requires StarFree(region) && StarFree(a) && StarFree(t) && StarFree(b) && StarFree(u)
    ensures MoveFeature(lines, 1, 0, Up) == Panicked
  {
    TwoPhases(lines, region, a, t, b, u);
    NoStarsAbove(lines, region, a, t, b, u);
    BoldOnLastLine(lines, t, u, t);
    BoldOnLastLine(lines, t, u, u);
    PanicsOnLastLine(lines, t, u);
  }

  /** One of them. */
  lemma MoveCanPanic(lines: seq<string>)
    requires lines == ["## Plan", "### A", "- Alpha", "### B", "- Beta", "**Alpha** **Beta**"]
    ensures MoveFeature(lines, 1, 0, Up) == Panicked
  {
    PlanIsRegion();
    PlanWords();
    ThatDocument(lines);
    MovePanicsOn(lines, "Plan", "A", "Alpha", "B", "Beta");
  }

  lemma PlanWords()
    ensures PlainWord("Plan") && PlainWord("A") && PlainWord("Alpha") && PlainWord("B") && PlainWord("Beta")
    ensures StarFree("Plan") && StarFree("A") && StarFree("Alpha") && StarFree("B") && StarFree("Beta")
  {
  }

  lemma ThatDocument(lines: seq<string>)
    requires lines == ["## Plan", "### A", "- Alpha", "### B", "- Beta", "**Alpha** **Beta**"]
    ensures IsDocument(lines, "Plan", "A", "Alpha", "B", "Beta")
  {
    assert "## " + "Plan" == "## Plan" && "### " + "A" == "### A" && "### " + "B" == "### B";
    assert "- " + "Alpha" == "- Alpha" && "- " + "Beta" == "- Beta";
    assert Bold("Alpha") + " " + Bold("Beta") == "**Alpha** **Beta**";
  }
}
