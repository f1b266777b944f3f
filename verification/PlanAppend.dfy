/**
 Appending a feature to a phase of a PLAN.md file (`append_feature_to_plan` in `crates/orrch-core/src/plan_parser.rs`)
 and what parsing the rewritten file returns: the new line is read as the feature it was written for, and the feature is
 the last of its phase, numbered above all others.
 */
module PlanAppend {
  import opened Options
  import opened Text
  import opened PlanText
  import opened PlanParser
  import opened PlanMove
  import opened PlanRows

  // ---- The edit -----------------------------------------------------------------------------

  function Larger(a: nat, b: nat): nat {
    if a < b then b else a
  }

  function MaxIdOf(features: seq<PlanFeature>): nat {
    if features == [] then 0
    else
      var last := features[|features| - 1];
      Larger(MaxIdOf(features[..|features| - 1]), if last.id.Some? then last.id.value else 0)
  }

  /** The largest number in the whole plan, or 0. */
  function MaxId(phases: seq<PlanPhase>): nat {
    if phases == [] then 0 else Larger(MaxId(phases[..|phases| - 1]), MaxIdOf(phases[|phases| - 1].features))
  }

  /** One more than the largest number; the `u32` addition wraps in a release build. */
  function NextId(phases: seq<PlanPhase>): nat {
    if MaxId(phases) >= U32_MAX then 0 else MaxId(phases) + 1
  }

  const DESCRIPTION_DASH: string := [' ', EM_DASH, ' ']

  function Described(description: string): string {
    if description == [] then [] else DESCRIPTION_DASH + description
  }

  function NewLine(id: nat, title: string, description: string): string {
    Decimal(id) + (". [ ] " + (Bold(title) + Described(description)))
  }

  /** The line to insert below, or `None` when it is not found. */
  function LineAbove(lines: seq<string>, phase: PlanPhase): (r: Option<nat>)
    ensures r.Some? ==> r.value < |lines|
  {
    if phase.features == [] then FindPhaseHeaderLine(lines, phase.name)
    else FindFeatureLine(lines, phase.features[|phase.features| - 1].title)
  }

  function AddBelow(lines: seq<string>, above: Option<nat>, line: string): Option<seq<string>>
    requires above.Some? ==> above.value < |lines|
  {
    if above.None? then None else Some(Insert(lines, above.value + 1, line))
  }

  function AddLine(lines: seq<string>, phases: seq<PlanPhase>, p: nat, line: string): Option<seq<string>> {
    if p >= |phases| then None else AddBelow(lines, LineAbove(lines, phases[p]), line)
  }

  /** The rewritten lines; `None` is the source's `Ok(false)`. */
  function Append(lines: seq<string>, phases: seq<PlanPhase>, p: nat, title: string, description: string)
    : Option<seq<string>>
  {
    AddLine(lines, phases, p, NewLine(NextId(phases), title, description))
  }

  method ScanForHeader(lines: seq<string>, name: string) returns (r: Option<nat>)
    ensures r == FindPhaseHeaderLine(lines, name)
  {
    r := None;
    var i := 0;
    while i < |lines|
      invariant i <= |lines|
      invariant r == FindPhaseHeaderLine(lines[..i], name)
    {
      assert lines[..i + 1][..i] == lines[..i];
      if r.None? && IsHeaderOf(lines[i], name) {
        r := Some(i);
      }
      i := i + 1;
    }
    assert lines[..i] == lines;
  }

  method ScanForLineAbove(lines: seq<string>, phase: PlanPhase) returns (above: Option<nat>)
    ensures above == LineAbove(lines, phase)
  {
    if phase.features == [] {
      above := ScanForHeader(lines, phase.name);
    } else {
      above := ScanForFeature(lines, phase.features[|phase.features| - 1].title);
    }
  }

  method AddLineBelow(lines: seq<string>, phases: seq<PlanPhase>, p: nat, line: string) returns (r: Option<seq<string>>)
    ensures r == AddLine(lines, phases, p, line)
  {
    if p >= |phases| {
      return None;
    }
    var above := ScanForLineAbove(lines, phases[p]);
    if above.None? {
      return None;
    }
    r := Some(lines[..above.value + 1] + [line] + lines[above.value + 1..]);
  }

  method AppendFeatureToPlan(lines: seq<string>, p: nat, title: string, description: string)
    returns (r: Option<seq<string>>)
    ensures r == Append(lines, ParsePlan(lines), p, title, description)
  {
    var phases := ParsePlanLines(lines);
    r := AddLineBelow(lines, phases, p, NewLine(NextId(phases), title, description));
  }

  // ---- Numbers ------------------------------------------------------------------------------

  lemma {:induction false} MaxIdOfBounds(features: seq<PlanFeature>, k: nat)
    requires k < |features| && features[k].id.Some?
    ensures features[k].id.value <= MaxIdOf(features)
  {
    if k < |features| - 1 {
      MaxIdOfBounds(features[..|features| - 1], k);
    }
  }

  /** Below the limit of `u32` the new number is larger than every number in the plan. */
  lemma {:induction false} NextIdIsFresh(phases: seq<PlanPhase>, p: nat, k: nat)
    requires p < |phases| && k < |phases[p].features| && phases[p].features[k].id.Some?
    ensures phases[p].features[k].id.value <= MaxId(phases)
    ensures MaxId(phases) < U32_MAX ==> phases[p].features[k].id.value < NextId(phases)
  {
    if p < |phases| - 1 {
      NextIdIsFresh(phases[..|phases| - 1], p, k);
    } else {
      MaxIdOfBounds(phases[p].features, k);
    }
  }

  /** Some feature of the plan has this number. */
  ghost predicate IsTaken(phases: seq<PlanPhase>, id: nat) {
    exists p, k :: 0 <= p < |phases| && 0 <= k < |phases[p].features| && phases[p].features[k].id == Some(id)
  }

  lemma {:induction false} MaxIdOfIsTaken(features: seq<PlanFeature>)
    ensures MaxIdOf(features) == 0 || exists k :: 0 <= k < |features| && features[k].id == Some(MaxIdOf(features))
  {
    if features != [] {
      var front, last := features[..|features| - 1], features[|features| - 1];
      MaxIdOfIsTaken(front);
      if MaxIdOf(features) == MaxIdOf(front) != 0 {
        var k :| 0 <= k < |front| && front[k].id == Some(MaxIdOf(front));
        assert features[k] == front[k];
      }
    }
  }

  lemma {:induction false} MaxIdIsTaken(phases: seq<PlanPhase>)
    ensures MaxId(phases) == 0 || IsTaken(phases, MaxId(phases))
  {
    if phases != [] {
      var front, last := phases[..|phases| - 1], phases[|phases| - 1];
      MaxIdIsTaken(front);
      MaxIdOfIsTaken(last.features);
      if MaxId(phases) == MaxId(front) != 0 {
        var p, k :| 0 <= p < |front| && 0 <= k < |front[p].features| && front[p].features[k].id == Some(MaxId(front));
        assert phases[p] == front[p];
      }
    }
  }

  /** The new number follows one that is taken, or is 1 in a plan without numbers; above the last `u32` it is 0. */
  lemma NextIdFollows(phases: seq<PlanPhase>)
    ensures NextId(phases) > 0 ==> NextId(phases) == 1 || IsTaken(phases, NextId(phases) - 1)
    ensures NextId(phases) == 0 ==> exists id :: id >= 4294967295 && IsTaken(phases, id)
  {
    MaxIdIsTaken(phases);
  }

  // ---- Reading the new line -----------------------------------------------------------------

  /** A title on one line that the parser reads up to its own closing asterisks. */
  predicate PlainTitle(title: string) {
    title != [] && '\n' !in title && Find(title + "**", "**") == Some(|title|)
  }

  /** What the parser makes of the description: dashes and spaces around it are dropped. */
  function ReadDescription(description: string): string {
    Trim(TrimStartOf(TrimEnd(Described(description)), [' ', EM_DASH, '-', EN_DASH]))
  }

  predicate Retired(title: string, description: string) {
    Contains(ToUpper(description), "DEPRECATED") || Contains(description, "MOVED") || Contains(ToUpper(title), "DEPRECATED")
  }

  function NewFeature(id: nat, title: string, description: string): PlanFeature {
    var read := ReadDescription(description);
    PlanFeature(Some(id), title, read, if Retired(title, read) then Deprecated else Planned, false)
  }

  lemma {:induction false} TrimEndAfter(a: string, b: string)
    requires TrimEnd(b) != []
    ensures TrimEnd(a + b) == a + TrimEnd(b)
  {
    if IsWhitespace(b[|b| - 1]) {
      var front := b[..|b| - 1];
      assert (a + b)[..|a + b| - 1] == a + front;
      TrimEndAfter(a, front);
    }
  }

  lemma {:induction false} DigitsLead(digits: string, rest: string)
    requires (forall c :: c in digits ==> IsDigit(c)) && rest != [] && !IsDigit(rest[0])
    ensures LeadingDigits(digits + rest) == digits
  {
    if digits == [] {
      assert digits + rest == rest;
    } else {
      assert (digits + rest)[1..] == digits[1..] + rest;
      DigitsLead(digits[1..], rest);
      assert digits == [digits[0]] + digits[1..];
    }
  }

  lemma {:induction false} DescriptionStays(description: string)
    requires description != []
    ensures TrimEnd(Described(description)) != []
  {
    var d := Described(description);
    assert d[1] == EM_DASH && !IsWhitespace(EM_DASH);
    KeepsNonSpace(d, 1);
  }

  lemma {:induction false} KeepsNonSpace(s: string, i: nat)
    requires i < |s| && !IsWhitespace(s[i])
    ensures |TrimEnd(s)| > i
  {
    if IsWhitespace(s[|s| - 1]) {
      KeepsNonSpace(s[..|s| - 1], i);
    }
  }

  /** The part after the number, with trailing space dropped. */
  function Tail(title: string, description: string): string {
    "[ ] " + (Bold(title) + TrimEnd(Described(description)))
  }

  lemma StartsWithDigit(id: nat, rest: string)
    ensures IsDigit((Decimal(id) + rest)[0]) && TrimStart(Decimal(id) + rest) == Decimal(id) + rest
  {
    var digits := Decimal(id);
    assert IsDigit(digits[0]) && (digits + rest)[0] == digits[0];
  }

  lemma TrimmedEnd(head: string, description: string)
    requires head != [] && !IsWhitespace(head[|head| - 1])
    ensures TrimEnd(head + Described(description)) == head + TrimEnd(Described(description))
  {
    if description == [] {
      assert head + Described(description) == head == head + TrimEnd(Described(description));
    } else {
      DescriptionStays(description);
      TrimEndAfter(head, Described(description));
    }
  }

  lemma Reassociate(digits: string, bold: string, d: string)
    ensures digits + (". [ ] " + (bold + d)) == digits + (". [ ] " + bold) + d
    ensures digits + (". " + ("[ ] " + (bold + d))) == digits + (". [ ] " + bold) + d
  {
    assert ". " + ("[ ] " + (bold + d)) == ". [ ] " + bold + d;
  }

  lemma TrimmedLine(id: nat, title: string, description: string)
    ensures Trim(NewLine(id, title, description)) == Decimal(id) + (". " + Tail(title, description))
  {
    var digits, bold, d := Decimal(id), Bold(title), Described(description);
    StartsWithDigit(id, ". [ ] " + (bold + d));
    Reassociate(digits, bold, d);
    Reassociate(digits, bold, TrimEnd(d));
    assert bold[|bold| - 1] == '*';
    TrimmedEnd(digits + (". [ ] " + bold), description);
  }

  lemma NumberedPrefix(id: nat, tail: string)
    requires id <= U32_MAX && TrimStart(" " + tail) == tail
    ensures StripFeaturePrefix(Decimal(id) + (". " + tail)) == Some((Some(id), tail))
  {
    var digits, rest := Decimal(id), ". " + tail;
    var line := digits + rest;
    StartsWithDigit(id, rest);
    DigitsLead(digits, rest);
    assert line[|digits|..] == rest;
    assert line[|digits| + 1..] == " " + tail;
    assert line[0] == digits[0] && IsDigit(digits[0]);
    assert !("CP-" <= line);
    assert ParseUnsigned(digits, U32_MAX) == Some(id);
  }

  lemma SpaceBeforeTail(title: string, description: string)
    ensures TrimStart(" " + Tail(title, description)) == Tail(title, description)
  {
    var tail := Tail(title, description);
    assert (" " + tail)[1..] == tail && tail[0] == '[';
  }

  lemma MarkerOfTail(title: string, description: string)
    ensures ParseStatusMarker(Tail(title, description)) == Some(Planned)
    ensures TrimStart(Tail(title, description)[3..]) == Bold(title) + TrimEnd(Described(description))
  {
    var tail, rest := Tail(title, description), Bold(title) + TrimEnd(Described(description));
    assert tail[1] == ' ';
    assert "[ ]" <= tail;
    assert tail[3..] == " " + rest;
    assert (" " + rest)[1..] == rest && rest[0] == '*';
  }

  lemma {:induction false} FindSurvives(a: string, b: string, needle: string)
    requires needle != [] && Find(a, needle).Some? && Find(a, needle).value + |needle| == |a|
    ensures Find(a + b, needle) == Find(a, needle)
  {
    if needle <= a {
      assert needle <= a + b;
    } else {
      assert (a + b)[1..] == a[1..] + b;
      FindSurvives(a[1..], b, needle);
      assert (a + b)[..|needle|] == a[..|needle|];
    }
  }

  lemma TitleOfTail(title: string, description: string)
    requires PlainTitle(title)
    ensures ParseTitleDescription(Bold(title) + TrimEnd(Described(description))) == (title, ReadDescription(description))
  {
    var after := TrimEnd(Described(description));
    var text := Bold(title) + after;
    assert text[2..] == title + "**" + after;
    FindSurvives(title + "**", after, "**");
    assert text[2..][..|title|] == title;
    assert text[2..][|title| + 2..] == after;
  }

  lemma PlannedBullet(trimmed: string, id: nat, rest: string, text: string, title: string, description: string)
    requires StripFeaturePrefix(trimmed) == Some((Some(id), rest))
    requires ParseStatusMarker(rest) == Some(Planned) && TrimStart(rest[3..]) == text
    requires ParseTitleDescription(text) == (title, description) && title != []
    ensures ParseBulletFeatureLine(trimmed)
         == Some(PlanFeature(Some(id), title, description, if Retired(title, description) then Deprecated else Planned, false))
  {
  }

  lemma DigitIsNoHeading(line: string)
    requires line != [] && IsDigit(line[0])
    ensures MarkdownHeading(line) == None && ParseTableFeatureLine(line) == None
  {
    assert HashCount(line) == 0;
    assert !("|" <= line);
  }

  lemma {:induction false} TrimEndTwice(s: string)
    ensures TrimEnd(TrimEnd(s)) == TrimEnd(s)
  {
    if s != [] && IsWhitespace(s[|s| - 1]) {
      TrimEndTwice(s[..|s| - 1]);
    }
  }

  lemma {:induction false} TrimStartTwice(s: string)
    ensures TrimStart(TrimStart(s)) == TrimStart(s)
    ensures TrimStart(s) != [] ==> !IsWhitespace(TrimStart(s)[0])
  {
    if s != [] && IsWhitespace(s[0]) {
      TrimStartTwice(s[1..]);
    }
  }

  lemma {:induction false} TrimEndIsPrefix(s: string)
    ensures TrimEnd(s) <= s
  {
    if s != [] && IsWhitespace(s[|s| - 1]) {
      TrimEndIsPrefix(s[..|s| - 1]);
    }
  }

  lemma TrimTwice(s: string)
    ensures Trim(Trim(s)) == Trim(s)
  {
    var start := TrimStart(s);
    TrimStartTwice(s);
    TrimEndTwice(start);
    TrimEndIsPrefix(start);
    if TrimEnd(start) != [] {
      assert TrimEnd(start)[0] == start[0];
    }
  }

  /** The new line is one line of the file it is written to. */
  lemma NewLineIsOneLine(id: nat, title: string, description: string)
    requires '\n' !in title && '\n' !in description
    ensures '\n' !in NewLine(id, title, description)
  {
    var dash := DESCRIPTION_DASH;
    assert '\n' !in dash && '\n' !in Described(description) && '\n' !in Bold(title) && '\n' !in Decimal(id);
    assert '\n' !in ". [ ] ";
  }

  /** The new line stays one line and is read as the new feature. */
  lemma NewLineParses(id: nat, title: string, description: string)
    requires id <= U32_MAX && PlainTitle(title) && '\n' !in description
    ensures '\n' !in NewLine(id, title, description)
    ensures
      var line := Classify(NewLine(id, title, description));
      line.Body? && line.feature == Some(NewFeature(id, title, description))
  {
    NewLineIsOneLine(id, title, description);
    NewTextParses(id, title, description);
  }

  lemma NewTextParses(id: nat, title: string, description: string)
    requires id <= U32_MAX && PlainTitle(title)
    ensures
      var line := Classify(NewLine(id, title, description));
      line.Body? && line.feature == Some(NewFeature(id, title, description))
  {
    var line := NewLine(id, title, description);
    var tail := Tail(title, description);
    TrimmedLine(id, title, description);
    TrimTwice(line);
    StartsWithDigit(id, ". " + tail);
    DigitIsNoHeading(Trim(line));
    SpaceBeforeTail(title, description);
    NumberedPrefix(id, tail);
    MarkerOfTail(title, description);
    var text := Bold(title) + TrimEnd(Described(description));
    TitleOfTail(title, description);
    PlannedBullet(Trim(line), id, tail, text, title, ReadDescription(description));
  }

  // ---- What parsing the rewritten file returns ----------------------------------------------

  /** Features `x` in place of the one on line `i`. */
  function ReplacedAt(shapes: seq<Shape>, i: nat, x: seq<PlanFeature>): seq<Shape>
    requires i < |shapes|
  {
    shapes[..i] + FeatureShapes(x) + shapes[i + 1..]
  }

  lemma ReplacedRows(shapes: seq<Shape>, i: nat, x: seq<PlanFeature>, t: Rows, e: Rows)
    requires i < |shapes| && t == RowsOf(shapes[..i]) && t.open
    requires e == FeedAll(Seed(t), shapes[i + 1..])
    ensures t.phases != [] && e.phases != []
    ensures RowsOf(ReplacedAt(shapes, i, x)).phases
         == Front(t.phases) + [With(LastOf(t.phases), x + e.phases[0].features)] + e.phases[1..]
  {
    var before, after := shapes[..i], shapes[i + 1..];
    var t' := t.(phases := Grow(t.phases, x));
    FeedAllConcat(BLANK, before, FeatureShapes(x));
    FeedFeatures(t, x);
    FeedAllConcat(BLANK, before + FeatureShapes(x), after);
    assert Seed(t') == Seed(t);
    GraftAll(t', after);
    GrowFacts(t.phases, x, e.phases[0].features);
  }

  /** The line of the last feature of phase `p`; another feature below it becomes the last of that phase. */
  lemma AddAfterLast(shapes: seq<Shape>, phases: seq<PlanPhase>, p: nat, g: PlanFeature) returns (i: nat)
    requires phases == NonEmpty(RowsOf(shapes).phases) && p < |phases| && phases[p].features != []
    ensures i < |shapes| && Counted(shapes, i)
    ensures shapes[i].feature == phases[p].features[|phases[p].features| - 1]
    ensures NonEmpty(RowsOf(Insert(shapes, i + 1, FeatureShape(g))).phases) == phases[p := With(phases[p], [g])]
  {
    var k := |phases[p].features| - 1;
    i := Locate(shapes, p, k);
    var t, f := RowsOf(shapes[..i]), shapes[i].feature;
    var e := FeedAll(Seed(t), shapes[i + 1..]);
    assert ReplacedAt(shapes, i, [f]) == shapes;
    assert ReplacedAt(shapes, i, [f, g]) == Insert(shapes, i + 1, FeatureShape(g));
    ReplacedRows(shapes, i, [f], t, e);
    ReplacedRows(shapes, i, [f, g], t, e);
    var row, more := LastOf(t.phases), e.phases[0].features;
    NonEmptyAround(Front(t.phases), With(row, [f] + more), e.phases[1..]);
    NonEmptyAround(Front(t.phases), With(row, [f, g] + more), e.phases[1..]);
    AddShape(NonEmpty(Front(t.phases)), row, f, g, more, NonEmpty(e.phases[1..]), k);
  }

  lemma AddShape(
    before: seq<PlanPhase>, row: PlanPhase, f: PlanFeature, g: PlanFeature, more: seq<PlanFeature>, after: seq<PlanPhase>,
    k: nat)
    requires
      var phases := before + Kept(row, row.features + ([f] + more)) + after;
      |phases[|before|].features| == k + 1 && |row.features| == k
    ensures
      var phases := before + Kept(row, row.features + ([f] + more)) + after;
      phases[|before| := With(phases[|before|], [g])] == before + Kept(row, row.features + ([f, g] + more)) + after
  {
    assert more == [];
    assert row.features + ([f] + more) + [g] == row.features + ([f, g] + more);
  }

  lemma LastTitle(phases: seq<PlanPhase>, p: nat)
    requires p < |phases| && phases[p].features != []
    ensures
      var bare := BarePhases(phases)[p].features;
      bare != [] && LastTitleOf(BarePhases(phases)[p]) == LastTitleOf(phases[p])
  {
    BareTitles(phases, p, |phases[p].features| - 1);
  }

  /** A line read as feature `g`, put where the source puts it, makes `g` the last feature of the phase. */
  lemma LineAddedReparses(
    read: string -> Shape, lines: seq<string>, shapes: seq<Shape>, phases: seq<PlanPhase>, bare: seq<PlanPhase>, p: nat,
    line: string, g: PlanFeature)
    requires shapes == Map(read, lines) && read(line) == FeatureShape(g)
    requires bare == BarePhases(phases) == NonEmpty(RowsOf(shapes).phases)
    requires p < |phases| && phases[p].features != []
    requires OwnLine(lines, shapes, LastTitleOf(phases[p]))
    ensures
      var r := AddLine(lines, phases, p, line);
      r.Some? && NonEmpty(RowsOf(Map(read, r.value)).phases) == bare[p := With(bare[p], [g])]
  {
    LastTitle(phases, p);
    var i := LineOfLast(lines, shapes, bare, p, g);
    AddsAt(lines, phases, p, line, i);
    MapInsert(read, lines, i + 1, line);
  }

  lemma AddsAt(lines: seq<string>, phases: seq<PlanPhase>, p: nat, line: string, i: nat)
    requires p < |phases| && phases[p].features != [] && i < |lines|
    requires FindFeatureLine(lines, LastTitleOf(phases[p])) == Some(i)
    ensures AddLine(lines, phases, p, line) == Some(Insert(lines, i + 1, line))
  {
    AboveIs(lines, phases[p], i);
    AddsBelow(lines, LineAbove(lines, phases[p]), line, i);
  }

  lemma AddsBelow(lines: seq<string>, above: Option<nat>, line: string, i: nat)
    requires i < |lines| && above == Some(i)
    ensures AddBelow(lines, above, line) == Some(Insert(lines, i + 1, line))
  {
  }

  lemma AboveIs(lines: seq<string>, phase: PlanPhase, i: nat)
    requires phase.features != [] && FindFeatureLine(lines, LastTitleOf(phase)) == Some(i)
    ensures LineAbove(lines, phase) == Some(i)
  {
  }

  lemma LineOfLast(lines: seq<string>, shapes: seq<Shape>, bare: seq<PlanPhase>, p: nat, g: PlanFeature) returns (i: nat)
    requires |shapes| == |lines| && bare == NonEmpty(RowsOf(shapes).phases)
    requires p < |bare| && bare[p].features != []
    requires OwnLine(lines, shapes, LastTitleOf(bare[p]))
    ensures i < |lines| && FindFeatureLine(lines, LastTitleOf(bare[p])) == Some(i)
    ensures NonEmpty(RowsOf(Insert(shapes, i + 1, FeatureShape(g))).phases) == bare[p := With(bare[p], [g])]
  {
    i := AddAfterLast(shapes, bare, p, g);
    OwnLineIs(lines, shapes, i, LastTitleOf(bare[p]));
  }

  /**
   Parsing after appending returns the plan with one more feature, the last of its phase: numbered above all
   others, with the given title and no other mark than planned (or deprecated, when its text says so).
   */
  lemma AppendReparses(lines: seq<string>, p: nat, title: string, description: string)
    requires p < |ParsePlan(lines)| && PlainTitle(title) && '\n' !in description
    requires ParsePlan(lines)[p].features != [] ==> FoundByTitle(lines, LastTitleOf(ParsePlan(lines)[p]))
    ensures
      var phases := ParsePlan(lines);
      var r := Append(lines, phases, p, title, description);
      && r.Some?
      && BareParse(r.value)
         == BareParse(lines)[p := With(BareParse(lines)[p], [Bare(NewFeature(NextId(phases), title, description))])]
  {
    var phases := ParsePlan(lines);
    var id := NextId(phases);
    NewLineParses(id, title, description);
    NonEmptyHoldFeatures(Outline(lines));
    BareParseIsRows(lines);
    var line := NewLine(id, title, description);
    var g := Bare(NewFeature(id, title, description));
    LineAddedReparses(LineShape, lines, Shapes(lines), phases, BareParse(lines), p, line, g);
    BareParseIsRows(AddLine(lines, phases, p, line).value);
  }

  /** A description without dashes and spaces around it is read as it was written. */
  lemma PlainDescriptionIsKept(description: string)
    requires description != [] ==>
      !IsWhitespace(description[0]) && description[0] !in [' ', EM_DASH, '-', EN_DASH]
      && !IsWhitespace(description[|description| - 1])
    ensures ReadDescription(description) == description
  {
    if description != [] {
      var d := Described(description);
      assert TrimEnd(d) == d;
      var set_ := [' ', EM_DASH, '-', EN_DASH];
      assert d[0] == ' ' && d[1..][0] == EM_DASH && d[1..][1..][0] == ' ' && d[1..][1..][1..] == description;
      assert TrimStartOf(description, set_) == description;
      assert TrimStartOf(d[1..][1..], set_) == TrimStartOf(description, set_);
      assert TrimStartOf(d[1..], set_) == TrimStartOf(d[1..][1..], set_);
      assert TrimStartOf(d, set_) == TrimStartOf(d[1..], set_);
    }
  }
}
