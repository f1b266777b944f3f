/**
 The PLAN.md engine (`crates/orrch-core/src/plan_parser.rs`): the region/phase automaton that the source writes twice, in
 `parse_plan` and in `lint_plan`. A document is its list of lines.
 */
module PlanParser {
  import opened Options
  import opened Text
  import opened PlanText

  datatype Region = Outside | Explicit | Implicit

  /** What a heading does to the phase being read. */
  datatype Action = Keep | Close | Open

  // ---- The automaton, once ------------------------------------------------------------------

  function Turn(region: Region, h: HeadingLine): (Region, Action) {
    if h.level == 2 && h.namesRegion then (Explicit, Close)
    else
      match region
      case Outside => if h.ImplicitPhase() then (Implicit, Open) else (Outside, Keep)
      case Explicit =>
        if h.level == 3 || (h.level == 2 && h.phaseLike) then (Explicit, Open)
        else if h.level == 2 then (Outside, Close)
        else (Explicit, Keep)
      case Implicit =>
        if h.ImplicitPhase() then (Implicit, Open)
        else if h.level <= 2 then (Outside, Close)
        else (Implicit, Keep)
  }

  /** `phases` are all the phases opened so far, empty ones included; the last is still open when `open`.
      `cont` says that the next text line continues the last feature. */
  datatype Scan = Scan(region: Region, open: bool, cont: bool, phases: seq<PlanPhase>)

  ghost predicate Coherent(st: Scan) {
    && (st.open ==> st.phases != [])
    && (st.cont ==> st.open && st.phases[|st.phases| - 1].features != [])
    && (st.region == Outside ==> !st.open)
  }

  function OnLast(phases: seq<PlanPhase>, features: seq<PlanFeature>): seq<PlanPhase>
    requires phases != []
  {
    phases[..|phases| - 1] + [phases[|phases| - 1].(features := features)]
  }

  function Continued(f: PlanFeature, text: string): PlanFeature {
    f.(description := if f.description == [] then text else f.description + " " + text)
  }

  function ScanHeading(st: Scan, h: HeadingLine): Scan {
    var (region, action) := Turn(st.region, h);
    match action
    case Keep => Scan(region, st.open, false, st.phases)
    case Close => Scan(region, false, false, st.phases)
    case Open => Scan(region, true, false, st.phases + [h.phase])
  }

  function ScanBody(st: Scan, line: PlanLine): Scan
    requires Coherent(st) && line.Body?
  {
    if !st.open then st
    else
      var features := st.phases[|st.phases| - 1].features;
      if line.feature.Some? then
        st.(cont := true, phases := OnLast(st.phases, features + [line.feature.value]))
      else if line.continues then
        if !st.cont then st
        else
          var last := |features| - 1;
          st.(phases := OnLast(st.phases, features[last := Continued(features[last], line.trimmed)]))
      else if line.trimmed == [] || "---" <= line.trimmed then st.(cont := false)
      else st
  }

  function ScanLine(st: Scan, line: PlanLine): (st': Scan)
    requires Coherent(st)
    ensures Coherent(st')
  {
    match line
    case Head(h) => ScanHeading(st, h)
    case Body(_, _, _, _) => ScanBody(st, line)
  }

  const START: Scan := Scan(Outside, false, false, [])

  function ScanAll(lines: seq<string>): (st: Scan)
    ensures Coherent(st)
  {
    if lines == [] then START else ScanLine(ScanAll(lines[..|lines| - 1]), Classify(lines[|lines| - 1]))
  }

  /** Every phase the document opens, in order, with the features read under it. */
  function Outline(lines: seq<string>): seq<PlanPhase> {
    ScanAll(lines).phases
  }

  function NonEmpty(phases: seq<PlanPhase>): seq<PlanPhase> {
    if phases == [] then []
    else
      var last := phases[|phases| - 1];
      NonEmpty(phases[..|phases| - 1]) + if last.features == [] then [] else [last]
  }

  /** What `parse_plan` returns: the opened phases that hold at least one feature. */
  function ParsePlan(lines: seq<string>): seq<PlanPhase> {
    NonEmpty(Outline(lines))
  }

  lemma NonEmptySnoc(phases: seq<PlanPhase>, last: PlanPhase)
    ensures NonEmpty(phases + [last]) == NonEmpty(phases) + if last.features == [] then [] else [last]
  {
    assert (phases + [last])[..|phases|] == phases;
  }

  // ---- parse_plan ---------------------------------------------------------------------------

  method FlushPhase(phases: seq<PlanPhase>, current: Option<PlanPhase>) returns (r: seq<PlanPhase>)
    ensures r == phases + if current.Some? && current.value.features != [] then [current.value] else []
  {
    r := phases;
    if current.Some? && current.value.features != [] {
      r := r + [current.value];
    }
  }

  /** The parser's variables agree with the automaton: `phases` holds the closed non-empty phases. */
  ghost predicate ParserAt(
    st: Scan, phases: seq<PlanPhase>, current: Option<PlanPhase>, lastFeature: Option<nat>, region: Region)
  {
    && region == st.region
    && (current.Some? <==> st.open)
    && (st.open ==> st.phases != [] && current == Some(st.phases[|st.phases| - 1]))
    && phases == NonEmpty(if st.open then st.phases[..|st.phases| - 1] else st.phases)
    && lastFeature == if st.cont && st.open then Some(|st.phases[|st.phases| - 1].features| - 1) else None
  }

  lemma FlushedIsNonEmpty(st: Scan, phases: seq<PlanPhase>, current: Option<PlanPhase>, last: Option<nat>, region: Region)
    requires ParserAt(st, phases, current, last, region)
    ensures NonEmpty(st.phases) == phases + if current.Some? && current.value.features != [] then [current.value] else []
  {
  }

  lemma ClosedAt(st: Scan, region: Region)
    ensures ParserAt(Scan(region, false, false, st.phases), NonEmpty(st.phases), None, None, region)
  {
  }

  lemma OpenedAt(st: Scan, region: Region, phase: PlanPhase)
    ensures ParserAt(Scan(region, true, false, st.phases + [phase]), NonEmpty(st.phases), Some(phase), None, region)
  {
    assert (st.phases + [phase])[..|st.phases|] == st.phases;
  }

  method ParsePlanLines(lines: seq<string>) returns (phases: seq<PlanPhase>)
    ensures phases == ParsePlan(lines)
  {
    phases := [];
    var current: Option<PlanPhase> := None;
    var lastFeature: Option<nat> := None;
    var region := Outside;
    var i := 0;
    while i < |lines|
      invariant i <= |lines|
      invariant ParserAt(ScanAll(lines[..i]), phases, current, lastFeature, region)
    {
      assert lines[..i + 1][..i] == lines[..i];
      phases, current, lastFeature, region :=
        ParseLine(ScanAll(lines[..i]), phases, current, lastFeature, region, Classify(lines[i]));
      i := i + 1;
    }
    assert lines[..i] == lines;
    FlushedIsNonEmpty(ScanAll(lines), phases, current, lastFeature, region);
    phases := FlushPhase(phases, current);
  }

  method ParseLine(
    ghost st: Scan, phases: seq<PlanPhase>, current: Option<PlanPhase>, lastFeature: Option<nat>, region: Region,
    line: PlanLine)
    returns (phases': seq<PlanPhase>, current': Option<PlanPhase>, lastFeature': Option<nat>, region': Region)
    requires Coherent(st) && ParserAt(st, phases, current, lastFeature, region)
    ensures ParserAt(ScanLine(st, line), phases', current', lastFeature', region')
  {
    phases', current', lastFeature', region' := phases, current, lastFeature, region;
    if line.Head? {
      phases', current', lastFeature', region' := ParseHeading(st, phases, current, lastFeature, region, line.heading);
    } else if region != Outside && current.Some? {
      current', lastFeature' := ParseBody(st, phases, current.value, lastFeature, region, line);
    }
  }

  method ParseHeading(
    ghost st: Scan, phases: seq<PlanPhase>, current: Option<PlanPhase>, lastFeature: Option<nat>, region: Region,
    h: HeadingLine)
    returns (phases': seq<PlanPhase>, current': Option<PlanPhase>, lastFeature': Option<nat>, region': Region)
    requires Coherent(st) && ParserAt(st, phases, current, lastFeature, region)
    ensures ParserAt(ScanHeading(st, h), phases', current', lastFeature', region')
  {
    FlushedIsNonEmpty(st, phases, current, lastFeature, region);
    phases', current', lastFeature', region' := phases, current, None, region;
    if h.level == 2 && h.namesRegion {
      phases' := FlushPhase(phases, current);
      current' := None;
      region' := Explicit;
      ClosedAt(st, Explicit);
      return;
    }
    if region == Outside && h.ImplicitPhase() {
      phases' := FlushPhase(phases, current);
      region' := Implicit;
      current' := Some(h.phase);
      OpenedAt(st, Implicit, h.phase);
      return;
    }
    if region == Explicit {
      if h.level == 3 || (h.level == 2 && h.phaseLike) {
        phases' := FlushPhase(phases, current);
        current' := Some(h.phase);
        OpenedAt(st, Explicit, h.phase);
        return;
      }
      if h.level == 2 {
        phases' := FlushPhase(phases, current);
        current' := None;
        region' := Outside;
        ClosedAt(st, Outside);
        return;
      }
    }
    if region == Implicit {
      if h.ImplicitPhase() {
        phases' := FlushPhase(phases, current);
        current' := Some(h.phase);
        OpenedAt(st, Implicit, h.phase);
        return;
      }
      if h.level <= 2 {
        phases' := FlushPhase(phases, current);
        current' := None;
        region' := Outside;
        ClosedAt(st, Outside);
        return;
      }
    }
  }

  method ContinueFeature(feat: PlanFeature, text: string) returns (r: PlanFeature)
    ensures r == Continued(feat, text)
  {
    var description := feat.description;
    if description != [] {
      description := description + " ";
    }
    description := description + text;
    assert [] + text == text;
    r := feat.(description := description);
  }

  method ParseBody(
    ghost st: Scan, ghost phases: seq<PlanPhase>, phase: PlanPhase, lastFeature: Option<nat>, ghost region: Region,
    line: PlanLine)
    returns (current': Option<PlanPhase>, lastFeature': Option<nat>)
    requires line.Body? && Coherent(st) && ParserAt(st, phases, Some(phase), lastFeature, region)
    ensures ParserAt(ScanBody(st, line), phases, current', lastFeature', region)
  {
    current', lastFeature' := Some(phase), lastFeature;
    if line.feature.Some? {
      current' := Some(phase.(features := phase.features + [line.feature.value]));
      lastFeature' := Some(|phase.features|);
      return;
    }
    if line.continues {
      if lastFeature.Some? {
        var feat := ContinueFeature(phase.features[lastFeature.value], line.trimmed);
        current' := Some(phase.(features := phase.features[lastFeature.value := feat]));
      }
      return;
    }
    if line.trimmed == [] || "---" <= line.trimmed {
      lastFeature' := None;
    }
  }

  // ---- lint_plan ----------------------------------------------------------------------------

  datatype Warning = NoRoadmapRegion | EmptyPhase(name: string) | IgnoredList(heading: string)

  /** `kept` lists each flushed phase with the feature count the linter had for it. */
  datatype Lint = Lint(
    region: Region, found: bool, current: Option<(string, nat)>, heading: Option<string>, ignored: set<string>,
    warnings: seq<Warning>, kept: seq<(string, nat)>)

  function FlushLint(l: Lint): Lint {
    if l.current.None? then l
    else
      var counted := l.current.value;
      l.(current := None, kept := l.kept + [counted],
         warnings := if counted.1 == 0 then l.warnings + [EmptyPhase(counted.0)] else l.warnings)
  }

  function LintHeading(l: Lint, h: HeadingLine): Lint {
    var (region, action) := Turn(l.region, h);
    var enters := (l.region == Outside && region != Outside) || (h.level == 2 && h.namesRegion);
    var l' := match action
      case Keep => l
      case Close => FlushLint(l)
      case Open => FlushLint(l).(current := Some((h.phase.name, 0)));
    l'.(region := region,
        found := l.found || enters,
        heading := if enters then None else if region == Outside then Some(h.text) else l.heading)
  }

  /** The heading a stray numbered list is reported under. */
  function ListHeading(heading: Option<string>): string {
    if heading.Some? then heading.value else "document"
  }

  function LintBody(l: Lint, line: PlanLine): Lint
    requires line.Body?
  {
    if l.region != Outside then
      if l.current.Some? && line.feature.Some?
      then l.(current := Some((l.current.value.0, l.current.value.1 + 1)))
      else l
    else if !line.numbered then l
    else
      var heading := ListHeading(l.heading);
      if heading in l.ignored then l
      else l.(ignored := l.ignored + {heading}, warnings := l.warnings + [IgnoredList(heading)])
  }

  function LintLine(l: Lint, line: PlanLine): Lint {
    match line
    case Head(h) => LintHeading(l, h)
    case Body(_, _, _, _) => LintBody(l, line)
  }

  function LintAll(lines: seq<string>): Lint {
    if lines == [] then Lint(Outside, false, None, None, {}, [], [])
    else LintLine(LintAll(lines[..|lines| - 1]), Classify(lines[|lines| - 1]))
  }

  function LintPlan(lines: seq<string>): seq<Warning> {
    var l := FlushLint(LintAll(lines));
    (if l.found then [] else [NoRoadmapRegion]) + l.warnings
  }

  /** The phases the linter opened, each with the count it kept. */
  function LintCounts(lines: seq<string>): seq<(string, nat)> {
    FlushLint(LintAll(lines)).kept
  }

  method LintPlanLines(lines: seq<string>) returns (warnings: seq<Warning>)
    ensures warnings == LintPlan(lines)
  {
    warnings := [];
    var region := Outside;
    var found := false;
    var current: Option<(string, nat)> := None;
    var nonRoadmap: Option<string> := None;
    var ignored: set<string> := {};
    var i := 0;
    while i < |lines|
      invariant i <= |lines|
      invariant LintAll(lines[..i]).(kept := []) == Lint(region, found, current, nonRoadmap, ignored, warnings, [])
    {
      assert lines[..i + 1][..i] == lines[..i];
      region, found, current, nonRoadmap, ignored, warnings :=
        LintOneLine(LintAll(lines[..i]), region, found, current, nonRoadmap, ignored, warnings, Classify(lines[i]));
      i := i + 1;
    }
    assert lines[..i] == lines;
    warnings := FlushLintPhase(warnings, current);
    if !found {
      warnings := [NoRoadmapRegion] + warnings;
    }
  }

  method LintOneLine(
    ghost l: Lint, region: Region, found: bool, current: Option<(string, nat)>, nonRoadmap: Option<string>,
    ignored: set<string>, warnings: seq<Warning>, line: PlanLine)
    returns (
      region': Region, found': bool, current': Option<(string, nat)>, nonRoadmap': Option<string>,
      ignored': set<string>, warnings': seq<Warning>)
    requires l.(kept := []) == Lint(region, found, current, nonRoadmap, ignored, warnings, [])
    ensures LintLine(l, line).(kept := []) == Lint(region', found', current', nonRoadmap', ignored', warnings', [])
  {
    region', found', current', nonRoadmap', ignored', warnings' :=
      region, found, current, nonRoadmap, ignored, warnings;
    if line.Head? {
      region', found', current', nonRoadmap', warnings' :=
        LintHeadingLine(l, region, found, current, nonRoadmap, warnings, line.heading);
    } else {
      current', ignored', warnings' :=
        LintBodyLine(l, region, found, current, nonRoadmap, ignored, warnings, line);
    }
  }

  method LintBodyLine(
    ghost l: Lint, region: Region, ghost found: bool, current: Option<(string, nat)>, nonRoadmap: Option<string>,
    ignored: set<string>, warnings: seq<Warning>, line: PlanLine)
    returns (current': Option<(string, nat)>, ignored': set<string>, warnings': seq<Warning>)
    requires line.Body? && l.(kept := []) == Lint(region, found, current, nonRoadmap, ignored, warnings, [])
    ensures LintBody(l, line).(kept := []) == Lint(region, found, current', nonRoadmap, ignored', warnings', [])
  {
    current', ignored', warnings' := current, ignored, warnings;
    if region != Outside {
      if current.Some? && line.feature.Some? {
        current' := Some((current.value.0, current.value.1 + 1));
      }
    } else if line.numbered {
      var heading := if nonRoadmap.Some? then nonRoadmap.value else "document";
      if heading !in ignored {
        ignored' := ignored + {heading};
        warnings' := warnings + [IgnoredList(heading)];
      }
    }
  }

  method LintHeadingLine(
    ghost l: Lint, region: Region, found: bool, current: Option<(string, nat)>, nonRoadmap: Option<string>,
    warnings: seq<Warning>, h: HeadingLine)
    returns (
      region': Region, found': bool, current': Option<(string, nat)>, nonRoadmap': Option<string>,
      warnings': seq<Warning>)
    requires l.(kept := []) == Lint(region, found, current, nonRoadmap, l.ignored, warnings, [])
    ensures LintHeading(l, h).(kept := []) == Lint(region', found', current', nonRoadmap', l.ignored, warnings', [])
  {
    region', found', current', nonRoadmap', warnings' := region, found, current, nonRoadmap, warnings;
    if h.level == 2 && h.namesRegion {
      warnings' := FlushLintPhase(warnings, current);
      current', found', region', nonRoadmap' := None, true, Explicit, None;
      return;
    }
    if region == Outside && h.ImplicitPhase() {
      warnings' := FlushLintPhase(warnings, current);
      found', region', nonRoadmap' := true, Implicit, None;
      current' := Some((h.phase.name, 0));
      return;
    }
    if region == Explicit {
      if h.level == 3 || (h.level == 2 && h.phaseLike) {
        warnings' := FlushLintPhase(warnings, current);
        current' := Some((h.phase.name, 0));
        return;
      }
      if h.level == 2 {
        warnings' := FlushLintPhase(warnings, current);
        current', region', nonRoadmap' := None, Outside, Some(h.text);
        return;
      }
    }
    if region == Implicit {
      if h.ImplicitPhase() {
        warnings' := FlushLintPhase(warnings, current);
        current' := Some((h.phase.name, 0));
        return;
      }
      if h.level <= 2 {
        warnings' := FlushLintPhase(warnings, current);
        current', region', nonRoadmap' := None, Outside, Some(h.text);
        return;
      }
    }
    if region == Outside {
      nonRoadmap' := Some(h.text);
    }
  }

  method FlushLintPhase(warnings: seq<Warning>, current: Option<(string, nat)>) returns (r: seq<Warning>)
    ensures r == warnings + if current.Some? && current.value.1 == 0 then [EmptyPhase(current.value.0)] else []
  {
    r := warnings;
    if current.Some? && current.value.1 == 0 {
      r := r + [EmptyPhase(current.value.0)];
    }
  }

  // ---- The two automata agree ---------------------------------------------------------------

  function Counts(phases: seq<PlanPhase>): seq<(string, nat)> {
    seq(|phases|, i requires 0 <= i < |phases| => (phases[i].name, |phases[i].features|))
  }

  /** The names that come with a count of zero, in order. */
  function Dropped(counts: seq<(string, nat)>): seq<string> {
    if counts == [] then []
    else
      var (name, count) := counts[|counts| - 1];
      Dropped(counts[..|counts| - 1]) + if count == 0 then [name] else []
  }

  function Returned(counts: seq<(string, nat)>): seq<(string, nat)> {
    if counts == [] then []
    else
      var (name, count) := counts[|counts| - 1];
      Returned(counts[..|counts| - 1]) + if count == 0 then [] else [(name, count)]
  }

  function EmptyPhaseNames(warnings: seq<Warning>): seq<string> {
    if warnings == [] then []
    else
      var w := warnings[|warnings| - 1];
      EmptyPhaseNames(warnings[..|warnings| - 1]) + if w.EmptyPhase? then [w.name] else []
  }

  /** The linter, its open phase flushed, has met exactly the phases the parser has opened. */
  predicate InStep(st: Scan, l: Lint) {
    && l.region == st.region
    && (l.current.Some? <==> st.open)
    && FlushLint(l).kept == Counts(st.phases)
    && (!l.found ==> st.region == Outside && st.phases == [])
  }

  /** So far, exactly the flushed phases with a count of zero have been reported. */
  predicate Reported(l: Lint) {
    EmptyPhaseNames(l.warnings) == Dropped(l.kept) && NoRoadmapRegion !in l.warnings
  }

  lemma WarningsSnoc(warnings: seq<Warning>, w: Warning)
    ensures EmptyPhaseNames(warnings + [w]) == EmptyPhaseNames(warnings) + if w.EmptyPhase? then [w.name] else []
  {
    assert (warnings + [w])[..|warnings|] == warnings;
  }

  lemma CountsSnoc(counts: seq<(string, nat)>, c: (string, nat))
    ensures Dropped(counts + [c]) == Dropped(counts) + if c.1 == 0 then [c.0] else []
    ensures Returned(counts + [c]) == Returned(counts) + if c.1 == 0 then [] else [c]
  {
    assert (counts + [c])[..|counts|] == counts;
  }

  lemma FlushReports(l: Lint)
    requires Reported(l)
    ensures Reported(FlushLint(l))
  {
    if l.current.Some? {
      CountsSnoc(l.kept, l.current.value);
      WarningsSnoc(l.warnings, EmptyPhase(l.current.value.0));
    }
  }

  lemma HeadingReports(l: Lint, h: HeadingLine)
    requires Reported(l)
    ensures Reported(LintHeading(l, h))
  {
    FlushReports(l);
  }

  lemma BodyReports(l: Lint, line: PlanLine)
    requires Reported(l) && line.Body?
    ensures Reported(LintBody(l, line))
  {
    WarningsSnoc(l.warnings, IgnoredList(ListHeading(l.heading)));
  }

  lemma HeadingInStep(st: Scan, l: Lint, h: HeadingLine)
    requires InStep(st, l) && h.phase.features == []
    ensures InStep(ScanHeading(st, h), LintHeading(l, h))
  {
    assert Counts(st.phases + [h.phase]) == Counts(st.phases) + [(h.phase.name, 0)];
  }

  lemma CountsOnLast(phases: seq<PlanPhase>, features: seq<PlanFeature>)
    requires phases != []
    ensures
      var n := |phases| - 1;
      Counts(OnLast(phases, features)) == Counts(phases[..n]) + [(phases[n].name, |features|)]
  {
  }

  lemma BodyInStep(st: Scan, l: Lint, line: PlanLine)
    requires line.Body? && Coherent(st) && InStep(st, l)
    ensures InStep(ScanBody(st, line), LintBody(l, line))
  {
    if st.open {
      var n := |st.phases| - 1;
      var features := st.phases[n].features;
      assert OnLast(st.phases, features) == st.phases;
      CountsOnLast(st.phases, features);
      assert l.kept + [l.current.value] == Counts(st.phases[..n]) + [(st.phases[n].name, |features|)];
      assert l.kept == (l.kept + [l.current.value])[..n] == Counts(st.phases[..n]);
      CountsOnLast(st.phases, ScanBody(st, line).phases[n].features);
      assert ScanBody(st, line).phases == OnLast(st.phases, ScanBody(st, line).phases[n].features);
    }
  }

  lemma {:induction false} AllInStep(lines: seq<string>)
    ensures InStep(ScanAll(lines), LintAll(lines)) && Reported(LintAll(lines))
  {
    if lines != [] {
      var st, l := ScanAll(lines[..|lines| - 1]), LintAll(lines[..|lines| - 1]);
      AllInStep(lines[..|lines| - 1]);
      match Classify(lines[|lines| - 1])
      case Head(h) =>
        HeadingInStep(st, l, h);
        HeadingReports(l, h);
      case Body(trimmed, feature, continues, numbered) =>
        BodyInStep(st, l, Body(trimmed, feature, continues, numbered));
        BodyReports(l, Body(trimmed, feature, continues, numbered));
    }
  }

  lemma {:induction false} ReturnedAreNonEmpty(phases: seq<PlanPhase>)
    ensures Returned(Counts(phases)) == Counts(NonEmpty(phases))
  {
    if phases != [] {
      var front, last := phases[..|phases| - 1], phases[|phases| - 1];
      ReturnedAreNonEmpty(front);
      assert Counts(phases) == Counts(front) + [(last.name, |last.features|)];
      CountsSnoc(Counts(front), (last.name, |last.features|));
      assert forall ps :: Counts(ps + [last]) == Counts(ps) + [(last.name, |last.features|)];
    }
  }

  /** The phases the linter reports as empty are exactly those the parser opens and drops, in order; every other
      phase is returned with the count the linter kept; and a document without a roadmap region has no phases. */
  lemma ParserAndLinterAgree(lines: seq<string>)
    ensures LintCounts(lines) == Counts(Outline(lines))
    ensures EmptyPhaseNames(LintPlan(lines)) == Dropped(Counts(Outline(lines)))
    ensures Counts(ParsePlan(lines)) == Returned(LintCounts(lines))
    ensures NoRoadmapRegion in LintPlan(lines) ==> Outline(lines) == [] && ParsePlan(lines) == []
  {
    AllInStep(lines);
    ReturnedAreNonEmpty(Outline(lines));
    ReportsOf(lines, LintAll(lines), Outline(lines));
  }

  lemma ReportsOf(lines: seq<string>, l: Lint, phases: seq<PlanPhase>)
    requires l == LintAll(lines) && Reported(l) && FlushLint(l).kept == Counts(phases)
    requires !l.found ==> l.current.None? && phases == []
    ensures EmptyPhaseNames(LintPlan(lines)) == Dropped(Counts(phases))
    ensures NoRoadmapRegion in LintPlan(lines) ==> phases == []
  {
    var warnings := FlushLint(l).warnings;
    FlushReports(l);
    if l.found {
      assert [] + warnings == warnings;
    } else {
      assert EmptyPhaseNames([NoRoadmapRegion]) == [];
      NoEmptyPhases([NoRoadmapRegion], warnings);
    }
  }

  lemma {:induction false} NoEmptyPhases(a: seq<Warning>, b: seq<Warning>)
    ensures EmptyPhaseNames(a + b) == EmptyPhaseNames(a) + EmptyPhaseNames(b)
  {
    if b == [] {
      assert a + b == a;
    } else {
      NoEmptyPhases(a, b[..|b| - 1]);
      assert a + b == (a + b[..|b| - 1]) + [b[|b| - 1]];
      WarningsSnoc(a + b[..|b| - 1], b[|b| - 1]);
    }
  }
}
