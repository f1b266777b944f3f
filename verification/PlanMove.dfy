/**
 Moving a feature up or down a PLAN.md file (`move_feature_in_plan` in `crates/orrch-core/src/plan_parser.rs`) and what
 parsing the rewritten file returns.
 */
module PlanMove {
  import opened Options
  import opened Text
  import opened PlanText
  import opened PlanParser
  import opened PlanRows

  datatype Direction = Up | Down

  /** `NotMoved` is the source's `Ok(false)`; `Panicked` is an insertion past the end of the line vector. */
  datatype MoveResult = NotMoved | Moved(lines: seq<string>) | Panicked

  // ---- The edit -----------------------------------------------------------------------------

  function Bold(title: string): string {
    "**" + title + "**"
  }

  predicate HasBold(line: string, title: string) {
    Contains(line, Bold(title))
  }

  /** The first line with the title in bold. */
  function FindFeatureLine(lines: seq<string>, title: string): (r: Option<nat>)
    ensures r.Some? ==> r.value < |lines|
  {
    if lines == [] then None
    else
      var r := FindFeatureLine(lines[..|lines| - 1], title);
      if r.Some? then r else if HasBold(lines[|lines| - 1], title) then Some(|lines| - 1) else None
  }

  lemma {:induction false} NoneWithBold(lines: seq<string>, title: string)
    requires forall j :: 0 <= j < |lines| ==> !HasBold(lines[j], title)
    ensures FindFeatureLine(lines, title) == None
  {
    if lines != [] {
      NoneWithBold(lines[..|lines| - 1], title);
    }
  }

  lemma {:induction false} FirstWithBold(lines: seq<string>, title: string, i: nat)
    requires i < |lines| && HasBold(lines[i], title) && forall j :: 0 <= j < i ==> !HasBold(lines[j], title)
    ensures FindFeatureLine(lines, title) == Some(i)
  {
    var front := lines[..|lines| - 1];
    if i < |front| {
      FirstWithBold(front, title, i);
    } else {
      NoneWithBold(front, title);
    }
  }

  predicate IsHeaderOf(line: string, phaseName: string) {
    var trimmed := Trim(line);
    ("## " <= trimmed || "### " <= trimmed) && Contains(trimmed, phaseName)
  }

  function FindPhaseHeaderLine(lines: seq<string>, phaseName: string): (r: Option<nat>)
    ensures r.Some? ==> r.value < |lines|
  {
    if lines == [] then None
    else
      var r := FindPhaseHeaderLine(lines[..|lines| - 1], phaseName);
      if r.Some? then r else if IsHeaderOf(lines[|lines| - 1], phaseName) then Some(|lines| - 1) else None
  }

  /** A line holds a title in bold, or is the header of a phase, exactly when it says so anywhere. */
  lemma LineSaysExactlyWhen(line: string, name: string)
    ensures HasBold(line, name) <==> Says(line, "**" + name + "**")
    ensures IsHeaderOf(line, name) <==> ("## " <= Trim(line) || "### " <= Trim(line)) && Says(Trim(line), name)
  {
    ContainsExactlyWhen(line, "**" + name + "**");
    ContainsExactlyWhen(Trim(line), name);
  }

  /** The search for a header returns the first one. */
  lemma {:induction false} FirstHeader(lines: seq<string>, name: string, i: nat)
    requires i <= |lines| && (i < |lines| ==> IsHeaderOf(lines[i], name)) && forall j :: 0 <= j < i ==> !IsHeaderOf(lines[j], name)
    ensures FindPhaseHeaderLine(lines, name) == if i < |lines| then Some(i) else None
  {
    if lines != [] {
      FirstHeader(lines[..|lines| - 1], name, if i == |lines| then i - 1 else i);
    }
  }

  function Relocate(lines: seq<string>, source: nat, insertAt: nat): MoveResult
    requires source < |lines|
  {
    if insertAt <= |lines| - 1 then Moved(Insert(Remove(lines, source), insertAt, lines[source])) else Panicked
  }

  function SwapWith(lines: seq<string>, source: nat, title: string): MoveResult
    requires source < |lines|
  {
    var other := FindFeatureLine(lines, title);
    if other.None? then NotMoved else Moved(Swap(lines, source, other.value))
  }

  function RelocateBelow(lines: seq<string>, source: nat, target: Option<nat>): MoveResult
    requires source < |lines|
  {
    if target.None? then NotMoved
    else Relocate(lines, source, if source < target.value then target.value else target.value + 1)
  }

  function RelocateAbove(lines: seq<string>, source: nat, target: Option<nat>): MoveResult
    requires source < |lines|
  {
    if target.None? then NotMoved
    else Relocate(lines, source, if source < target.value then target.value - 1 else target.value)
  }

  /** After the last feature of the previous phase. */
  function MoveToPrevious(lines: seq<string>, source: nat, previous: PlanPhase): MoveResult
    requires source < |lines|
  {
    if previous.features == [] then MoveBelowHeader(lines, source, previous.name)
    else RelocateBelow(lines, source, FindFeatureLine(lines, previous.features[|previous.features| - 1].title))
  }

  /** Before the first feature of the next phase. */
  function MoveToNext(lines: seq<string>, source: nat, next: PlanPhase): MoveResult
    requires source < |lines|
  {
    if next.features == [] then MoveBelowHeader(lines, source, next.name)
    else RelocateAbove(lines, source, FindFeatureLine(lines, next.features[0].title))
  }

  function MoveBelowHeader(lines: seq<string>, source: nat, name: string): MoveResult
    requires source < |lines|
  {
    var header := FindPhaseHeaderLine(lines, name);
    if header.None? then NotMoved
    else Relocate(lines, source, if source < header.value + 1 then header.value else header.value + 1)
  }

  function MoveFeature(lines: seq<string>, phaseIdx: nat, featureIdx: nat, direction: Direction): MoveResult {
    MoveAmong(lines, ParsePlan(lines), phaseIdx, featureIdx, direction)
  }

  function MoveAmong(
    lines: seq<string>, phases: seq<PlanPhase>, phaseIdx: nat, featureIdx: nat, direction: Direction): MoveResult
  {
    if phaseIdx >= |phases| || featureIdx >= |phases[phaseIdx].features| then NotMoved
    else
      var features := phases[phaseIdx].features;
      var source := FindFeatureLine(lines, features[featureIdx].title);
      if source.None? then NotMoved
      else
        match direction
        case Up =>
          if featureIdx > 0 then SwapWith(lines, source.value, features[featureIdx - 1].title)
          else if phaseIdx > 0 then MoveToPrevious(lines, source.value, phases[phaseIdx - 1])
          else NotMoved
        case Down =>
          if featureIdx + 1 < |features| then SwapWith(lines, source.value, features[featureIdx + 1].title)
          else if phaseIdx + 1 < |phases| then MoveToNext(lines, source.value, phases[phaseIdx + 1])
          else NotMoved
  }

  // ---- Every rewrite is a permutation -------------------------------------------------------

  lemma SwapPermutes<T>(s: seq<T>, i: nat, j: nat)
    requires i < |s| && j < |s|
    ensures multiset(Swap(s, i, j)) == multiset(s)
  {
  }

  lemma RelocatePermutes<T>(s: seq<T>, i: nat, at: nat)
    requires i < |s| && at < |s|
    ensures multiset(Insert(Remove(s, i), at, s[i])) == multiset(s)
  {
    var r := Remove(s, i);
    assert s == s[..i] + [s[i]] + s[i + 1..];
    assert r == r[..at] + r[at..];
    calc {
      multiset(Insert(r, at, s[i]));
      multiset(r[..at]) + multiset{s[i]} + multiset(r[at..]);
      multiset(r) + multiset{s[i]};
      multiset(s[..i]) + multiset(s[i + 1..]) + multiset{s[i]};
      multiset(s);
    }
  }

  predicate Permutes(r: MoveResult, lines: seq<string>) {
    r.Moved? ==> multiset(r.lines) == multiset(lines)
  }

  lemma RelocatePermutesLines(lines: seq<string>, source: nat, insertAt: nat)
    requires source < |lines|
    ensures Permutes(Relocate(lines, source, insertAt), lines)
  {
    if insertAt <= |lines| - 1 {
      RelocatePermutes(lines, source, insertAt);
    }
  }

  lemma SwapWithPermutes(lines: seq<string>, source: nat, title: string)
    requires source < |lines|
    ensures Permutes(SwapWith(lines, source, title), lines)
  {
    var other := FindFeatureLine(lines, title);
    if other.Some? {
      SwapPermutes(lines, source, other.value);
    }
  }

  lemma AnyRelocatePermutes(lines: seq<string>, source: nat)
    requires source < |lines|
    ensures forall at: nat :: Permutes(Relocate(lines, source, at), lines)
  {
    forall at: nat
      ensures Permutes(Relocate(lines, source, at), lines)
    {
      RelocatePermutesLines(lines, source, at);
    }
  }

  lemma ToPreviousPermutes(lines: seq<string>, source: nat, phase: PlanPhase)
    requires source < |lines|
    ensures Permutes(MoveToPrevious(lines, source, phase), lines)
  {
    AnyRelocatePermutes(lines, source);
  }

  lemma ToNextPermutes(lines: seq<string>, source: nat, phase: PlanPhase)
    requires source < |lines|
    ensures Permutes(MoveToNext(lines, source, phase), lines)
  {
    AnyRelocatePermutes(lines, source);
  }

  lemma AmongPermutes(lines: seq<string>, phases: seq<PlanPhase>, phaseIdx: nat, featureIdx: nat, direction: Direction)
    ensures Permutes(MoveAmong(lines, phases, phaseIdx, featureIdx, direction), lines)
  {
    if MoveAmong(lines, phases, phaseIdx, featureIdx, direction).Moved? {
      var features := phases[phaseIdx].features;
      var source := FindFeatureLine(lines, features[featureIdx].title).value;
      match direction
      case Up =>
        if featureIdx > 0 {
          SwapWithPermutes(lines, source, features[featureIdx - 1].title);
        } else {
          ToPreviousPermutes(lines, source, phases[phaseIdx - 1]);
        }
      case Down =>
        if featureIdx + 1 < |features| {
          SwapWithPermutes(lines, source, features[featureIdx + 1].title);
        } else {
          ToNextPermutes(lines, source, phases[phaseIdx + 1]);
        }
    }
  }

  /** A successful move rewrites the file to a permutation of its lines. */
  lemma MovePermutesLines(lines: seq<string>, phaseIdx: nat, featureIdx: nat, direction: Direction)
    requires MoveFeature(lines, phaseIdx, featureIdx, direction).Moved?
    ensures multiset(MoveFeature(lines, phaseIdx, featureIdx, direction).lines) == multiset(lines)
  {
    AmongPermutes(lines, ParsePlan(lines), phaseIdx, featureIdx, direction);
  }

  // ---- When the edit panics -----------------------------------------------------------------

  predicate BothOnLastLine(lines: seq<string>, phases: seq<PlanPhase>, p: nat) {
    && Boundary(phases, p) && lines != []
    && FindFeatureLine(lines, phases[p].features[0].title) == Some(|lines| - 1)
    && FindFeatureLine(lines, phases[p - 1].features[|phases[p - 1].features| - 1].title) == Some(|lines| - 1)
  }

  /** The insertion runs past the end exactly when a phase's first feature goes up while its title and that of
      the feature before it are both found, in bold, on the document's last line only. */
  lemma MovePanicsExactlyWhen(lines: seq<string>, p: nat, k: nat, direction: Direction)
    ensures MoveFeature(lines, p, k, direction).Panicked? <==>
      direction == Up && k == 0 && BothOnLastLine(lines, ParsePlan(lines), p)
  {
    NonEmptyHoldFeatures(Outline(lines));
    AmongPanicsExactlyWhen(lines, ParsePlan(lines), p, k, direction);
  }

  lemma AmongPanicsExactlyWhen(lines: seq<string>, phases: seq<PlanPhase>, p: nat, k: nat, direction: Direction)
    requires forall q :: q in phases ==> q.features != []
    ensures MoveAmong(lines, phases, p, k, direction).Panicked? <==>
      direction == Up && k == 0 && BothOnLastLine(lines, phases, p)
  {
  }

  // ---- move_feature_in_plan -----------------------------------------------------------------

  method ScanForFeature(lines: seq<string>, title: string) returns (r: Option<nat>)
    ensures r == FindFeatureLine(lines, title)
  {
    var i := 0;
    while i < |lines|
      invariant i <= |lines|
      invariant forall j :: 0 <= j < i ==> !HasBold(lines[j], title)
    {
      if HasBold(lines[i], title) {
        FirstWithBold(lines, title, i);
        return Some(i);
      }
      i := i + 1;
    }
    NoneWithBold(lines, title);
    return None;
  }

  method MoveFeatureInPlan(lines: seq<string>, phaseIdx: nat, featureIdx: nat, direction: Direction)
    returns (r: MoveResult)
    ensures r == MoveFeature(lines, phaseIdx, featureIdx, direction)
  {
    var phases := ParsePlanLines(lines);
    if phaseIdx >= |phases| || featureIdx >= |phases[phaseIdx].features| {
      return NotMoved;
    }
    var features := phases[phaseIdx].features;
    var source := ScanForFeature(lines, features[featureIdx].title);
    if source.None? {
      return NotMoved;
    }
    match direction
    case Up =>
      if featureIdx > 0 {
        r := SwapLines(lines, source.value, features[featureIdx - 1].title);
      } else if phaseIdx > 0 {
        r := RaiseLine(lines, source.value, phases[phaseIdx - 1]);
      } else {
        r := NotMoved;
      }
    case Down =>
      if featureIdx + 1 < |features| {
        r := SwapLines(lines, source.value, features[featureIdx + 1].title);
      } else if phaseIdx + 1 < |phases| {
        r := LowerLine(lines, source.value, phases[phaseIdx + 1]);
      } else {
        r := NotMoved;
      }
  }

  method SwapLines(lines: seq<string>, source: nat, title: string) returns (r: MoveResult)
    requires source < |lines|
    ensures r == SwapWith(lines, source, title)
  {
    var other := ScanForFeature(lines, title);
    if other.None? {
      return NotMoved;
    }
    var newLines := lines;
    newLines := newLines[source := lines[other.value]];
    newLines := newLines[other.value := lines[source]];
    r := Moved(newLines);
  }

  method RaiseLine(lines: seq<string>, source: nat, previous: PlanPhase) returns (r: MoveResult)
    requires source < |lines|
    ensures r == MoveToPrevious(lines, source, previous)
  {
    var insertAt;
    if previous.features == [] {
      var header := FindPhaseHeaderLine(lines, previous.name);
      if header.None? {
        return NotMoved;
      }
      var target := header.value + 1;
      insertAt := if source < target then target - 1 else target;
    } else {
      var target := ScanForFeature(lines, previous.features[|previous.features| - 1].title);
      if target.None? {
        return NotMoved;
      }
      insertAt := if source < target.value then target.value else target.value + 1;
    }
    r := RemoveAndInsert(lines, source, insertAt);
  }

  method LowerLine(lines: seq<string>, source: nat, next: PlanPhase) returns (r: MoveResult)
    requires source < |lines|
    ensures r == MoveToNext(lines, source, next)
  {
    var insertAt;
    if next.features == [] {
      var header := FindPhaseHeaderLine(lines, next.name);
      if header.None? {
        return NotMoved;
      }
      var target := header.value + 1;
      insertAt := if source < target then target - 1 else target;
    } else {
      var target := ScanForFeature(lines, next.features[0].title);
      if target.None? {
        return NotMoved;
      }
      insertAt := if source < target.value then target.value - 1 else target.value;
    }
    r := RemoveAndInsert(lines, source, insertAt);
  }

  method RemoveAndInsert(lines: seq<string>, source: nat, insertAt: nat) returns (r: MoveResult)
    requires source < |lines|
    ensures r == Relocate(lines, source, insertAt)
  {
    var removed := lines[source];
    var newLines := lines[..source] + lines[source + 1..];
    if insertAt > |newLines| {
      return Panicked;
    }
    newLines := newLines[..insertAt] + [removed] + newLines[insertAt..];
    r := Moved(newLines);
  }

  // ---- What parsing the moved file returns --------------------------------------------------

  /** Whatever line of these shapes is read as a feature of this title, it is the line the search finds. */
  predicate OwnLine(lines: seq<string>, shapes: seq<Shape>, title: string)
    requires |shapes| == |lines|
  {
    forall i: nat :: i < |lines| && Counted(shapes, i) && shapes[i].feature.title == title ==>
      FindFeatureLine(lines, title) == Some(i)
  }

  predicate FoundByTitle(lines: seq<string>, title: string) {
    OwnLine(lines, Shapes(lines), title)
  }

  /** A title that one line alone has in bold is found, if that line is the only one read as a feature of it. */
  lemma BoldOnceIsFound(lines: seq<string>, title: string, i: nat)
    requires i < |lines| && forall j :: 0 <= j < |lines| ==> (HasBold(lines[j], title) <==> j == i)
    requires forall j: nat :: j < |lines| && Counted(Shapes(lines), j) && Shapes(lines)[j].feature.title == title ==> j == i
    ensures FoundByTitle(lines, title)
  {
    FirstWithBold(lines, title, i);
  }

  lemma SwapRearranges(shapes: seq<Shape>, i: nat, j: nat)
    requires i < j < |shapes| && shapes[i].FeatureShape? && shapes[j].FeatureShape?
    ensures Swap(shapes, i, j) == Rearranged(shapes, i, [shapes[j].feature], j, [shapes[i].feature])
  {
  }

  lemma RaiseRearranges(shapes: seq<Shape>, i: nat, j: nat)
    requires i < j < |shapes| && shapes[i].FeatureShape? && shapes[j].FeatureShape?
    ensures Insert(Remove(shapes, j), i + 1, shapes[j])
         == Rearranged(shapes, i, [shapes[i].feature, shapes[j].feature], j, [])
  {
  }

  lemma LowerRearranges(shapes: seq<Shape>, i: nat, j: nat)
    requires i < j < |shapes| && shapes[i].FeatureShape? && shapes[j].FeatureShape?
    ensures Insert(Remove(shapes, i), j - 1, shapes[i])
         == Rearranged(shapes, i, [], j, [shapes[i].feature, shapes[j].feature])
  {
  }

  predicate ValidFeature(phases: seq<PlanPhase>, p: nat, k: nat) {
    p < |phases| && k < |phases[p].features|
  }

  function TitleAt(lines: seq<string>, p: nat, k: nat): string
    requires ValidFeature(ParsePlan(lines), p, k)
  {
    ParsePlan(lines)[p].features[k].title
  }

  function LastTitleOf(phase: PlanPhase): string
    requires phase.features != []
  {
    phase.features[|phase.features| - 1].title
  }

  predicate FoundAtBoundary(lines: seq<string>, p: nat)
    requires Boundary(ParsePlan(lines), p)
  {
    FoundByTitle(lines, LastTitleOf(ParsePlan(lines)[p - 1])) && FoundByTitle(lines, TitleAt(lines, p, 0))
  }

  lemma BareTitles(phases: seq<PlanPhase>, p: nat, k: nat)
    requires p < |phases|
    ensures |BarePhases(phases)[p].features| == |phases[p].features|
    ensures k < |phases[p].features| ==> BarePhases(phases)[p].features[k].title == phases[p].features[k].title
  {
    assert BarePhases(phases)[p] == BarePhase(phases[p]);
  }

  lemma MovesWithin(lines: seq<string>, phases: seq<PlanPhase>, p: nat, k: nat, i: nat, j: nat)
    requires ValidFeature(phases, p, k) && k > 0 && i < |lines| && j < |lines|
    requires FindFeatureLine(lines, phases[p].features[k - 1].title) == Some(i)
    requires FindFeatureLine(lines, phases[p].features[k].title) == Some(j)
    ensures MoveAmong(lines, phases, p, k, Up) == Moved(Swap(lines, i, j)) == MoveAmong(lines, phases, p, k - 1, Down)
  {
    assert Swap(lines, i, j) == Swap(lines, j, i);
    SwapsWith(lines, j, phases[p].features[k - 1].title, i);
    SwapsWith(lines, i, phases[p].features[k].title, j);
  }

  lemma SwapsWith(lines: seq<string>, source: nat, title: string, other: nat)
    requires source < |lines| && other < |lines| && FindFeatureLine(lines, title) == Some(other)
    ensures SwapWith(lines, source, title) == Moved(Swap(lines, source, other))
  {
  }

  lemma MovesUpAcross(lines: seq<string>, phases: seq<PlanPhase>, p: nat, i: nat, j: nat)
    requires Boundary(phases, p) && i < j < |lines|
    requires FindFeatureLine(lines, LastTitleOf(phases[p - 1])) == Some(i)
    requires FindFeatureLine(lines, phases[p].features[0].title) == Some(j)
    ensures MoveAmong(lines, phases, p, 0, Up) == Moved(Insert(Remove(lines, j), i + 1, lines[j]))
  {
    MovesToPrevious(lines, j, phases[p - 1], i);
  }

  lemma MovesToPrevious(lines: seq<string>, j: nat, previous: PlanPhase, i: nat)
    requires i < j < |lines| && previous.features != []
    requires FindFeatureLine(lines, LastTitleOf(previous)) == Some(i)
    ensures MoveToPrevious(lines, j, previous) == Moved(Insert(Remove(lines, j), i + 1, lines[j]))
  {
    GoesBelow(lines, j, FindFeatureLine(lines, LastTitleOf(previous)), i);
  }

  lemma GoesBelow(lines: seq<string>, j: nat, target: Option<nat>, i: nat)
    requires i < j < |lines| && target == Some(i)
    ensures RelocateBelow(lines, j, target) == Moved(Insert(Remove(lines, j), i + 1, lines[j]))
  {
  }

  lemma MovesDownAcross(lines: seq<string>, phases: seq<PlanPhase>, p: nat, i: nat, j: nat)
    requires Boundary(phases, p) && i < j < |lines|
    requires FindFeatureLine(lines, LastTitleOf(phases[p - 1])) == Some(i)
    requires FindFeatureLine(lines, phases[p].features[0].title) == Some(j)
    ensures MoveAmong(lines, phases, p - 1, |phases[p - 1].features| - 1, Down)
         == Moved(Insert(Remove(lines, i), j - 1, lines[i]))
  {
    MovesToNext(lines, i, phases[p], j);
  }

  lemma MovesToNext(lines: seq<string>, i: nat, next: PlanPhase, j: nat)
    requires i < j < |lines| && next.features != [] && FindFeatureLine(lines, next.features[0].title) == Some(j)
    ensures MoveToNext(lines, i, next) == Moved(Insert(Remove(lines, i), j - 1, lines[i]))
  {
    GoesAbove(lines, i, FindFeatureLine(lines, next.features[0].title), j);
  }

  lemma GoesAbove(lines: seq<string>, i: nat, target: Option<nat>, j: nat)
    requires i < j < |lines| && target == Some(j)
    ensures RelocateAbove(lines, i, target) == Moved(Insert(Remove(lines, i), j - 1, lines[i]))
  {
  }

  /** Moving a feature up inside its phase, or its upper neighbour down, swaps just these two in the parse. */
  lemma MoveWithinPhaseReparses(lines: seq<string>, p: nat, k: nat)
    requires ValidFeature(ParsePlan(lines), p, k) && k > 0
    requires FoundByTitle(lines, TitleAt(lines, p, k - 1)) && FoundByTitle(lines, TitleAt(lines, p, k))
    ensures
      var r := MoveFeature(lines, p, k, Up);
      && r.Moved? && r == MoveFeature(lines, p, k - 1, Down)
      && ValidFeature(BareParse(lines), p, k) && BareParse(r.lines) == SwapUp(BareParse(lines), p, k)
  {
    var shapes, phases := Shapes(lines), ParsePlan(lines);
    BareTitles(phases, p, k);
    BareTitles(phases, p, k - 1);
    BareParseIsRows(lines);
    var i, j, t, d := Neighbours(shapes, p, k);
    SwapReparses(shapes, i, j, t, d, p, k);
    OwnLineIs(lines, shapes, i, TitleAt(lines, p, k - 1));
    OwnLineIs(lines, shapes, j, TitleAt(lines, p, k));
    MovesWithin(lines, phases, p, k, i, j);
    SwapRearranges(shapes, i, j);
    MapSwap(LineShape, lines, i, j);
    BareParseIsRows(Swap(lines, i, j));
  }

  lemma BoundaryTitles(phases: seq<PlanPhase>, p: nat)
    requires Boundary(phases, p)
    ensures Boundary(BarePhases(phases), p)
    ensures LastTitleOf(BarePhases(phases)[p - 1]) == LastTitleOf(phases[p - 1])
    ensures BarePhases(phases)[p].features[0].title == phases[p].features[0].title
  {
    BareTitles(phases, p, 0);
    BareTitles(phases, p - 1, |phases[p - 1].features| - 1);
  }

  /** The lines of the last feature of phase `p - 1` and of the first of phase `p`, and their titles. */
  lemma BoundaryLines(lines: seq<string>, shapes: seq<Shape>, bare: seq<PlanPhase>, p: nat, last: string, first: string)
    returns (i: nat, j: nat)
    requires |shapes| == |lines| && bare == NonEmpty(RowsOf(shapes).phases) && Boundary(bare, p)
    requires last == LastTitleOf(bare[p - 1]) && OwnLine(lines, shapes, last)
    requires first == bare[p].features[0].title && OwnLine(lines, shapes, first)
    ensures i < j < |lines| && shapes[i].FeatureShape? && shapes[j].FeatureShape?
    ensures FindFeatureLine(lines, last) == Some(i) && FindFeatureLine(lines, first) == Some(j)
    ensures
      var f, g := shapes[i].feature, shapes[j].feature;
      && NonEmpty(RowsOf(Rearranged(shapes, i, [f, g], j, [])).phases) == RaiseFirst(bare, p)
      && NonEmpty(RowsOf(Rearranged(shapes, i, [], j, [f, g])).phases) == LowerLast(bare, p)
  {
    var t, d;
    i, j, t, d := Neighbours(shapes, p, 0);
    AcrossReparses(shapes, i, j, t, d, p);
    OwnLineIs(lines, shapes, i, last);
    OwnLineIs(lines, shapes, j, first);
  }

  lemma OwnLineIs(lines: seq<string>, shapes: seq<Shape>, i: nat, title: string)
    requires |shapes| == |lines| && OwnLine(lines, shapes, title)
    requires i < |lines| && Counted(shapes, i) && shapes[i].feature.title == title
    ensures FindFeatureLine(lines, title) == Some(i)
  {
  }

  lemma RaisedShapes<T>(read: T -> Shape, lines: seq<T>, shapes: seq<Shape>, i: nat, j: nat)
    requires shapes == Map(read, lines) && i < j < |lines| && shapes[i].FeatureShape? && shapes[j].FeatureShape?
    ensures Map(read, Insert(Remove(lines, j), i + 1, lines[j]))
         == Rearranged(shapes, i, [shapes[i].feature, shapes[j].feature], j, [])
  {
    RaiseRearranges(shapes, i, j);
    MapRelocate(read, lines, j, i + 1);
  }

  lemma LoweredShapes<T>(read: T -> Shape, lines: seq<T>, shapes: seq<Shape>, i: nat, j: nat)
    requires shapes == Map(read, lines) && i < j < |lines| && shapes[i].FeatureShape? && shapes[j].FeatureShape?
    ensures Map(read, Insert(Remove(lines, i), j - 1, lines[i]))
         == Rearranged(shapes, i, [], j, [shapes[i].feature, shapes[j].feature])
  {
    LowerRearranges(shapes, i, j);
    MapRelocate(read, lines, i, j - 1);
  }

  /** Moving a phase's first feature up appends it to the phase before. */
  lemma MoveUpAcrossReparses(lines: seq<string>, p: nat)
    requires Boundary(ParsePlan(lines), p) && FoundAtBoundary(lines, p)
    ensures Boundary(BareParse(lines), p)
    ensures
      var r := MoveFeature(lines, p, 0, Up);
      r.Moved? && BareParse(r.lines) == RaiseFirst(BareParse(lines), p)
  {
    var phases, shapes := ParsePlan(lines), Shapes(lines);
    BareParseIsRows(lines);
    BoundaryTitles(phases, p);
    var i, j := BoundaryLines(lines, shapes, BareParse(lines), p, LastTitleOf(phases[p - 1]), TitleAt(lines, p, 0));
    RaisedShapes(LineShape, lines, shapes, i, j);
    MovesUpAcross(lines, phases, p, i, j);
    BareParseIsRows(Insert(Remove(lines, j), i + 1, lines[j]));
  }

  /** Moving a phase's last feature down puts it at the head of the next phase. */
  lemma MoveDownAcrossReparses(lines: seq<string>, p: nat)
    requires Boundary(ParsePlan(lines), p) && FoundAtBoundary(lines, p)
    ensures Boundary(BareParse(lines), p)
    ensures
      var r := MoveFeature(lines, p - 1, |ParsePlan(lines)[p - 1].features| - 1, Down);
      r.Moved? && BareParse(r.lines) == LowerLast(BareParse(lines), p)
  {
    var phases, shapes := ParsePlan(lines), Shapes(lines);
    BareParseIsRows(lines);
    BoundaryTitles(phases, p);
    var i, j := BoundaryLines(lines, shapes, BareParse(lines), p, LastTitleOf(phases[p - 1]), TitleAt(lines, p, 0));
    LoweredShapes(LineShape, lines, shapes, i, j);
    MovesDownAcross(lines, phases, p, i, j);
    BareParseIsRows(Insert(Remove(lines, i), j - 1, lines[i]));
  }

  // ---- In terms of the flattened list of features -------------------------------------------

  function Flatten(phases: seq<PlanPhase>): seq<PlanFeature> {
    if phases == [] then [] else phases[0].features + Flatten(phases[1..])
  }

  lemma {:induction false} FlattenConcat(a: seq<PlanPhase>, b: seq<PlanPhase>)
    ensures Flatten(a + b) == Flatten(a) + Flatten(b)
  {
    if a == [] {
      assert a + b == b;
    } else {
      FlattenConcat(a[1..], b);
      assert a + b == [a[0]] + (a[1..] + b);
      FlattenCons(a[0], a[1..] + b);
      assert a[0].features + (Flatten(a[1..]) + Flatten(b)) == a[0].features + Flatten(a[1..]) + Flatten(b);
    }
  }

  lemma FlattenCons(phase: PlanPhase, rest: seq<PlanPhase>)
    ensures Flatten([phase] + rest) == phase.features + Flatten(rest)
  {
    assert ([phase] + rest)[1..] == rest;
  }

  lemma FlattenAround(before: seq<PlanPhase>, middle: seq<PlanPhase>, after: seq<PlanPhase>)
    ensures Flatten(before + middle + after) == Flatten(before) + Flatten(middle) + Flatten(after)
  {
    FlattenConcat(before + middle, after);
    FlattenConcat(before, middle);
  }

  lemma FlattenKept(phase: PlanPhase, features: seq<PlanFeature>)
    ensures Flatten(Kept(phase, features)) == features
  {
    if features != [] {
      assert Flatten([phase.(features := features)][1..]) == [];
    }
  }

  /** A move inside a phase is one adjacent transposition of the flattened features. */
  lemma SwapUpTransposes(phases: seq<PlanPhase>, p: nat, k: nat)
    requires p < |phases| && 0 < k < |phases[p].features|
    ensures
      var m := |Flatten(phases[..p])| + k;
      m < |Flatten(phases)| && Flatten(SwapUp(phases, p, k)) == Swap(Flatten(phases), m - 1, m)
  {
    var row, row' := phases[p], SwapUp(phases, p, k)[p];
    FlattenAround(phases[..p], [row], phases[p + 1..]);
    FlattenAround(phases[..p], [row'], phases[p + 1..]);
    FlattenKept(row, row.features);
    FlattenKept(row, row'.features);
    assert row.(features := row.features) == row && row.(features := row'.features) == row';
    assert phases == phases[..p] + [row] + phases[p + 1..];
    assert SwapUp(phases, p, k) == phases[..p] + [row'] + phases[p + 1..];
    SwapInside(Flatten(phases[..p]), row.features, Flatten(phases[p + 1..]), k);
  }

  lemma SwapInside<T>(a: seq<T>, b: seq<T>, c: seq<T>, k: nat)
    requires 0 < k < |b|
    ensures Swap(a + b + c, |a| + k - 1, |a| + k) == a + Swap(b, k - 1, k) + c
  {
  }

  /** A move across a phase boundary leaves the flattened features as they were. */
  lemma AcrossKeepsOrder(phases: seq<PlanPhase>, p: nat)
    requires Boundary(phases, p)
    ensures Flatten(RaiseFirst(phases, p)) == Flatten(phases) == Flatten(LowerLast(phases, p))
  {
    var a, b := phases[p - 1], phases[p];
    var m := |a.features| - 1;
    PairFlattens(phases[..p - 1], a, a.features, b, b.features, phases[p + 1..]);
    PairFlattens(phases[..p - 1], a, a.features + [b.features[0]], b, b.features[1..], phases[p + 1..]);
    PairFlattens(phases[..p - 1], a, a.features[..m], b, [a.features[m]] + b.features, phases[p + 1..]);
    assert a.(features := a.features) == a && b.(features := b.features) == b;
    assert phases == phases[..p - 1] + [a] + [b] + phases[p + 1..];
    assert a.features + [b.features[0]] + b.features[1..] == a.features + b.features;
    assert a.features[..m] + ([a.features[m]] + b.features) == a.features + b.features;
  }

  lemma PairFlattens(
    before: seq<PlanPhase>, a: PlanPhase, x: seq<PlanFeature>, b: PlanPhase, y: seq<PlanFeature>, after: seq<PlanPhase>)
    ensures Flatten(before + Kept(a, x) + Kept(b, y) + after) == Flatten(before) + (x + y) + Flatten(after)
  {
    FlattenConcat(before + Kept(a, x) + Kept(b, y), after);
    FlattenAround(before, Kept(a, x), Kept(b, y));
    FlattenKept(a, x);
    FlattenKept(b, y);
    assert Flatten(before) + x + y == Flatten(before) + (x + y);
  }
}
