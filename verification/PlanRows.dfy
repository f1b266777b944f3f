/**
 What the editing functions of `crates/orrch-core/src/plan_parser.rs` need to know of a parse: the rows of phases
 and features without description text, as a function of what each line is (its shape). Stretches of lines can be
 fed onto any state, so that the parse of a document can be taken apart around a feature, or around two
 neighbouring ones, and put together again after an edit. Nothing here is particular to one edit.
 */
module PlanRows {
  import opened Options
  import opened Text
  import opened PlanText
  import opened PlanParser

  // ---- Lists --------------------------------------------------------------------------------

  function Swap<T>(s: seq<T>, i: nat, j: nat): (r: seq<T>)
    requires i < |s| && j < |s|
    ensures |r| == |s|
  {
    s[i := s[j]][j := s[i]]
  }

  function Remove<T>(s: seq<T>, i: nat): (r: seq<T>)
    requires i < |s|
    ensures |r| == |s| - 1
  {
    s[..i] + s[i + 1..]
  }

  function Insert<T>(s: seq<T>, i: nat, x: T): (r: seq<T>)
    requires i <= |s|
    ensures |r| == |s| + 1
  {
    s[..i] + [x] + s[i..]
  }

  lemma {:induction false} NonEmptyHoldFeatures(phases: seq<PlanPhase>)
    ensures forall q :: q in NonEmpty(phases) ==> q.features != []
  {
    if phases != [] {
      NonEmptyHoldFeatures(phases[..|phases| - 1]);
    }
  }

  predicate Boundary(phases: seq<PlanPhase>, p: nat) {
    0 < p < |phases| && phases[p].features != [] && phases[p - 1].features != []
  }

  // ---- Rows: the parse without description text ---------------------------------------------

  function Bare(f: PlanFeature): PlanFeature {
    f.(description := [])
  }

  function BareAll(features: seq<PlanFeature>): seq<PlanFeature> {
    seq(|features|, i requires 0 <= i < |features| => Bare(features[i]))
  }

  function BarePhase(p: PlanPhase): PlanPhase {
    p.(features := BareAll(p.features))
  }

  function BarePhases(phases: seq<PlanPhase>): (r: seq<PlanPhase>)
    ensures |r| == |phases|
  {
    seq(|phases|, i requires 0 <= i < |phases| => BarePhase(phases[i]))
  }

  /** What a line means to the automaton once description text is ignored. */
  datatype Shape = HeadShape(heading: HeadingLine) | FeatureShape(feature: PlanFeature) | OtherShape

  function ShapeOf(line: PlanLine): Shape {
    match line
    case Head(h) => HeadShape(h)
    case Body(_, feature, _, _) => if feature.Some? then FeatureShape(Bare(feature.value)) else OtherShape
  }

  function LineShape(line: string): Shape {
    ShapeOf(Classify(line))
  }

  function Map<T, U>(f: T -> U, s: seq<T>): (r: seq<U>)
    ensures |r| == |s|
  {
    if s == [] then [] else Map(f, s[..|s| - 1]) + [f(s[|s| - 1])]
  }

  lemma {:induction false} MapAt<T, U>(f: T -> U, s: seq<T>, i: nat)
    requires i < |s|
    ensures Map(f, s)[i] == f(s[i])
  {
    if i < |s| - 1 {
      MapAt(f, s[..|s| - 1], i);
    }
  }

  lemma {:induction false} MapPrefix<T, U>(f: T -> U, s: seq<T>, n: nat)
    requires n <= |s|
    ensures Map(f, s)[..n] == Map(f, s[..n])
  {
    if n < |s| {
      MapPrefix(f, s[..|s| - 1], n);
      assert s[..|s| - 1][..n] == s[..n];
    } else {
      assert s[..n] == s;
    }
  }

  lemma SwapAt<T>(s: seq<T>, i: nat, j: nat, k: nat)
    requires i < |s| && j < |s| && k < |s|
    ensures Swap(s, i, j)[k] == if k == i then s[j] else if k == j then s[i] else s[k]
  {
  }

  lemma MapSwap<T, U>(f: T -> U, s: seq<T>, i: nat, j: nat)
    requires i < |s| && j < |s|
    ensures Map(f, Swap(s, i, j)) == Swap(Map(f, s), i, j)
  {
    MapAt(f, s, i);
    MapAt(f, s, j);
    forall k: nat | k < |s|
      ensures Map(f, Swap(s, i, j))[k] == Swap(Map(f, s), i, j)[k]
    {
      MapAt(f, Swap(s, i, j), k);
      MapAt(f, s, k);
      SwapAt(s, i, j, k);
      SwapAt(Map(f, s), i, j, k);
    }
  }

  lemma MapRemove<T, U>(f: T -> U, s: seq<T>, i: nat)
    requires i < |s|
    ensures Map(f, Remove(s, i)) == Remove(Map(f, s), i)
  {
    forall k: nat | k < |s| - 1
      ensures Map(f, Remove(s, i))[k] == Remove(Map(f, s), i)[k]
    {
      MapAt(f, Remove(s, i), k);
      RemoveAt(s, i, k);
      RemoveAt(Map(f, s), i, k);
      MapAt(f, s, if k < i then k else k + 1);
    }
  }

  lemma RemoveAt<T>(s: seq<T>, i: nat, k: nat)
    requires i < |s| && k < |s| - 1
    ensures Remove(s, i)[k] == if k < i then s[k] else s[k + 1]
  {
  }

  lemma MapInsert<T, U>(f: T -> U, s: seq<T>, at: nat, x: T)
    requires at <= |s|
    ensures Map(f, Insert(s, at, x)) == Insert(Map(f, s), at, f(x))
  {
    forall k: nat | k < |s| + 1
      ensures Map(f, Insert(s, at, x))[k] == Insert(Map(f, s), at, f(x))[k]
    {
      MapAt(f, Insert(s, at, x), k);
      InsertAt(s, at, x, k);
      InsertAt(Map(f, s), at, f(x), k);
      if k != at {
        MapAt(f, s, if k < at then k else k - 1);
      }
    }
  }

  lemma InsertAt<T>(s: seq<T>, at: nat, x: T, k: nat)
    requires at <= |s| && k <= |s|
    ensures Insert(s, at, x)[k] == if k < at then s[k] else if k == at then x else s[k - 1]
  {
  }

  lemma MapRelocate<T, U>(f: T -> U, s: seq<T>, i: nat, at: nat)
    requires i < |s| && at < |s|
    ensures Map(f, Insert(Remove(s, i), at, s[i])) == Insert(Remove(Map(f, s), i), at, Map(f, s)[i])
  {
    MapInsert(f, Remove(s, i), at, s[i]);
    MapRemove(f, s, i);
    MapAt(f, s, i);
  }

  /** The scan of lines that have been classified. */
  function ScanLines(read: seq<PlanLine>): (st: Scan)
    ensures Coherent(st)
  {
    if read == [] then START else ScanLine(ScanLines(read[..|read| - 1]), read[|read| - 1])
  }

  lemma {:induction false} ScanIsOfLines(lines: seq<string>)
    ensures ScanAll(lines) == ScanLines(Map(Classify, lines))
  {
    if lines != [] {
      ScanIsOfLines(lines[..|lines| - 1]);
    }
  }

  lemma ScanSnoc(front: seq<PlanLine>, last: PlanLine)
    ensures ScanLines(front + [last]) == ScanLine(ScanLines(front), last)
  {
    assert (front + [last])[..|front|] == front;
  }

  function Shapes(lines: seq<string>): (r: seq<Shape>)
    ensures |r| == |lines|
  {
    Map(LineShape, lines)
  }

  datatype Rows = Rows(region: Region, open: bool, phases: seq<PlanPhase>)

  function Grow(phases: seq<PlanPhase>, more: seq<PlanFeature>): seq<PlanPhase>
    requires phases != []
  {
    OnLast(phases, phases[|phases| - 1].features + more)
  }

  lemma GrowFacts(phases: seq<PlanPhase>, a: seq<PlanFeature>, b: seq<PlanFeature>)
    requires phases != []
    ensures Grow(phases, []) == phases
    ensures Grow(Grow(phases, a), b) == Grow(phases, a + b)
  {
    var features := phases[|phases| - 1].features;
    assert features + [] == features;
    assert features + a + b == features + (a + b);
  }

  predicate Fit(r: Rows) {
    r.open ==> r.phases != []
  }

  function Feed(r: Rows, shape: Shape): (r': Rows)
    requires Fit(r)
    ensures Fit(r')
  {
    match shape
    case OtherShape => r
    case FeatureShape(f) => if r.open then r.(phases := Grow(r.phases, [f])) else r
    case HeadShape(h) =>
      var (region, action) := Turn(r.region, h);
      match action
      case Keep => Rows(region, r.open, r.phases)
      case Close => Rows(region, false, r.phases)
      case Open => Rows(region, true, r.phases + [h.phase.(features := [])])
  }

  function FeedAll(r: Rows, shapes: seq<Shape>): (r': Rows)
    requires Fit(r)
    ensures Fit(r')
  {
    if shapes == [] then r else Feed(FeedAll(r, shapes[..|shapes| - 1]), shapes[|shapes| - 1])
  }

  const BLANK: Rows := Rows(Outside, false, [])

  function RowsOf(shapes: seq<Shape>): (r: Rows)
    ensures Fit(r)
  {
    FeedAll(BLANK, shapes)
  }

  lemma {:induction false} FeedAllConcat(r: Rows, a: seq<Shape>, b: seq<Shape>)
    requires Fit(r)
    ensures FeedAll(r, a + b) == FeedAll(FeedAll(r, a), b)
  {
    if b == [] {
      assert a + b == a;
    } else {
      FeedAllConcat(r, a, b[..|b| - 1]);
      assert (a + b)[..|a + b| - 1] == a + b[..|b| - 1];
    }
  }

  lemma ShapesSnoc(front: seq<string>, line: string)
    ensures Shapes(front + [line]) == Shapes(front) + [ShapeOf(Classify(line))]
  {
    assert (front + [line])[..|front|] == front;
  }

  lemma FeedSnoc(r: Rows, shapes: seq<Shape>, shape: Shape)
    requires Fit(r)
    ensures FeedAll(r, shapes + [shape]) == Feed(FeedAll(r, shapes), shape)
  {
    assert (shapes + [shape])[..|shapes|] == shapes;
  }

  /** The rows are the scanned phases with description text ignored. */
  predicate Mirrors(r: Rows, st: Scan) {
    r == Rows(st.region, st.open, BarePhases(st.phases))
  }

  lemma BareOnLast(phases: seq<PlanPhase>, features: seq<PlanFeature>)
    requires phases != []
    ensures BarePhases(OnLast(phases, features)) == OnLast(BarePhases(phases), BareAll(features))
  {
  }

  /** The last feature continued by a line of text. */
  function WithText(phases: seq<PlanPhase>, text: string): seq<PlanPhase>
    requires phases != [] && phases[|phases| - 1].features != []
  {
    OnLast(phases, Longer(phases[|phases| - 1].features, text))
  }

  function Longer(features: seq<PlanFeature>, text: string): (r: seq<PlanFeature>)
    requires features != []
    ensures |r| == |features|
  {
    var n := |features| - 1;
    features[n := Continued(features[n], text)]
  }

  lemma TextRead(st: Scan, line: PlanLine)
    requires Coherent(st) && line.Body? && st.open && line.feature.None? && line.continues && st.cont
    ensures ScanBody(st, line) == st.(phases := WithText(st.phases, line.trimmed))
  {
  }

  /** Continuing a description changes no row. */
  lemma ContinuingIsBare(phases: seq<PlanPhase>, text: string)
    requires phases != [] && phases[|phases| - 1].features != []
    ensures BarePhases(WithText(phases, text)) == BarePhases(phases)
  {
    var features := phases[|phases| - 1].features;
    BareOnLast(phases, Longer(features, text));
    assert BareAll(Longer(features, text)) == BareAll(features);
    BareOnLast(phases, features);
    assert OnLast(phases, features) == phases;
  }

  lemma LineFeeds(r: Rows, st: Scan, line: PlanLine)
    requires Fit(r) && Coherent(st) && Mirrors(r, st) && (line.Head? ==> line.heading.phase.features == [])
    ensures Mirrors(Feed(r, ShapeOf(line)), ScanLine(st, line))
  {
    match line
    case Head(h) => HeadingFeeds(r, st, h);
    case Body(_, _, _, _) => BodyFeeds(r, st, line);
  }

  lemma BodyFeeds(r: Rows, st: Scan, line: PlanLine)
    requires Fit(r) && Coherent(st) && Mirrors(r, st) && line.Body?
    ensures Mirrors(Feed(r, ShapeOf(line)), ScanBody(st, line))
  {
    if st.open && line.feature.Some? {
      FeatureLineFeeds(r, st, line);
    } else if st.open && line.continues && st.cont {
      TextLineFeeds(r, st, line);
    } else {
      assert ScanBody(st, line).phases == st.phases;
    }
  }

  lemma TextLineFeeds(r: Rows, st: Scan, line: PlanLine)
    requires Coherent(st) && Mirrors(r, st) && line.Body? && st.open && line.feature.None? && line.continues && st.cont
    ensures Mirrors(r, ScanBody(st, line))
  {
    TextRead(st, line);
    ContinuingIsBare(st.phases, line.trimmed);
  }

  lemma FeatureLineFeeds(r: Rows, st: Scan, line: PlanLine)
    requires Fit(r) && Coherent(st) && Mirrors(r, st) && line.Body? && st.open && line.feature.Some?
    ensures Mirrors(Feed(r, ShapeOf(line)), ScanBody(st, line))
  {
    FeatureFeeds(st.phases, line.feature.value);
  }

  lemma HeadingFeeds(r: Rows, st: Scan, h: HeadingLine)
    requires Fit(r) && Mirrors(r, st) && h.phase.features == []
    ensures Mirrors(Feed(r, HeadShape(h)), ScanHeading(st, h))
  {
    assert BareAll([]) == [];
    assert BarePhases(st.phases + [h.phase]) == BarePhases(st.phases) + [BarePhase(h.phase)];
  }

  lemma FeatureFeeds(phases: seq<PlanPhase>, f: PlanFeature)
    requires phases != []
    ensures BarePhases(OnLast(phases, phases[|phases| - 1].features + [f])) == Grow(BarePhases(phases), [Bare(f)])
  {
    var features := phases[|phases| - 1].features;
    BareOnLast(phases, features + [f]);
    assert BareAll(features + [f]) == BareAll(features) + [Bare(f)];
  }

  lemma {:induction false} RowsMirrorScan(lines: seq<string>)
    ensures Mirrors(RowsOf(Shapes(lines)), ScanAll(lines))
  {
    if lines != [] {
      var front, line := lines[..|lines| - 1], lines[|lines| - 1];
      assert lines == front + [line];
      RowsMirrorScan(front);
      ShapesSnoc(front, line);
      FeedSnoc(BLANK, Shapes(front), ShapeOf(Classify(line)));
      LineFeeds(RowsOf(Shapes(front)), ScanAll(front), Classify(line));
    }
  }

  lemma {:induction false} BareNonEmpty(phases: seq<PlanPhase>)
    ensures NonEmpty(BarePhases(phases)) == BarePhases(NonEmpty(phases))
  {
    if phases != [] {
      var front, last := phases[..|phases| - 1], phases[|phases| - 1];
      BareNonEmpty(front);
      assert BarePhases(phases) == BarePhases(front) + [BarePhase(last)];
      NonEmptySnoc(BarePhases(front), BarePhase(last));
      assert BarePhases(NonEmpty(front) + [last]) == BarePhases(NonEmpty(front)) + [BarePhase(last)];
    }
  }

  /** What `parse_plan` returns, description text ignored. */
  function BareParse(lines: seq<string>): seq<PlanPhase> {
    BarePhases(ParsePlan(lines))
  }

  lemma BareParseIsRows(lines: seq<string>)
    ensures BareParse(lines) == NonEmpty(RowsOf(Shapes(lines)).phases)
  {
    RowsMirrorScan(lines);
    BareNonEmpty(ScanAll(lines).phases);
  }

  // ---- Feeding a stretch of lines onto any state --------------------------------------------

  const BLANK_PHASE: PlanPhase := PlanPhase("", None, [])

  /** A state that reacts to what follows exactly as `r` does, but has read nothing yet. */
  function Seed(r: Rows): Rows {
    Rows(r.region, r.open, if r.open then [BLANK_PHASE] else [])
  }

  /** `d` is what a stretch of lines adds to `Seed(r)`; this is what it adds to `r`. */
  function Graft(r: Rows, d: Rows): Rows
    requires r.open ==> r.phases != [] && d.phases != []
  {
    Rows(d.region, d.open, if r.open then Grow(r.phases, d.phases[0].features) + d.phases[1..] else r.phases + d.phases)
  }

  lemma GraftFeed(r: Rows, d: Rows, shape: Shape)
    requires Fit(r) && Fit(d) && (r.open ==> d.phases != [])
    ensures Fit(Graft(r, d)) && (r.open ==> Feed(d, shape).phases != [])
    ensures Feed(Graft(r, d), shape) == Graft(r, Feed(d, shape))
  {
    if shape.FeatureShape? && d.open && r.open {
      var f := shape.feature;
      if |d.phases| == 1 {
        assert Feed(d, shape).phases[0].features == d.phases[0].features + [f];
        GrowFacts(r.phases, d.phases[0].features, [f]);
      } else {
        assert Feed(Graft(r, d), shape).phases == Graft(r, Feed(d, shape)).phases;
      }
    } else if shape.FeatureShape? && d.open {
      assert Grow(r.phases + d.phases, [shape.feature]) == r.phases + Grow(d.phases, [shape.feature]);
    }
  }

  lemma {:induction false} GraftAll(r: Rows, shapes: seq<Shape>)
    requires Fit(r)
    ensures r.open ==> FeedAll(Seed(r), shapes).phases != []
    ensures FeedAll(r, shapes) == Graft(r, FeedAll(Seed(r), shapes))
  {
    if shapes == [] {
      if r.open {
        GrowFacts(r.phases, [], []);
      }
    } else {
      var front := shapes[..|shapes| - 1];
      GraftAll(r, front);
      GraftFeed(r, FeedAll(Seed(r), front), shapes[|shapes| - 1]);
    }
  }

  function FeatureShapes(features: seq<PlanFeature>): seq<Shape> {
    seq(|features|, i requires 0 <= i < |features| => FeatureShape(features[i]))
  }

  lemma {:induction false} FeedFeatures(r: Rows, features: seq<PlanFeature>)
    requires r.open && r.phases != []
    ensures FeedAll(r, FeatureShapes(features)) == r.(phases := Grow(r.phases, features))
  {
    if features == [] {
      GrowFacts(r.phases, [], []);
    } else {
      var front, last := features[..|features| - 1], features[|features| - 1];
      FeedFeatures(r, front);
      assert FeatureShapes(features)[..|features| - 1] == FeatureShapes(front);
      assert front + [last] == features;
      GrowFacts(r.phases, front, [last]);
    }
  }

  // ---- Two neighbouring features and the lines around them ----------------------------------

  /** Line `i` is read as a feature of the phase that is open there. */
  predicate Counted(shapes: seq<Shape>, i: nat)
    requires i < |shapes|
  {
    shapes[i].FeatureShape? && RowsOf(shapes[..i]).open
  }

  predicate AllEmpty(phases: seq<PlanPhase>) {
    forall i :: 0 <= i < |phases| ==> phases[i].features == []
  }

  lemma {:induction false} AllEmptyDropped(phases: seq<PlanPhase>)
    ensures NonEmpty(phases) == [] <==> AllEmpty(phases)
  {
    if phases != [] {
      AllEmptyDropped(phases[..|phases| - 1]);
    }
  }

  lemma {:induction false} NonEmptyConcat(a: seq<PlanPhase>, b: seq<PlanPhase>)
    ensures NonEmpty(a + b) == NonEmpty(a) + NonEmpty(b)
  {
    if b == [] {
      assert a + b == a;
    } else {
      var front, last := b[..|b| - 1], b[|b| - 1];
      NonEmptyConcat(a, front);
      assert a + b == a + front + [last];
      NonEmptySnoc(a + front, last);
    }
  }

  lemma NonEmptyGrow(phases: seq<PlanPhase>, f: PlanFeature)
    requires phases != []
    ensures
      var m := |phases| - 1;
      NonEmpty(Grow(phases, [f])) == NonEmpty(phases[..m]) + [phases[m].(features := phases[m].features + [f])]
  {
    var m := |phases| - 1;
    NonEmptySnoc(phases[..m], phases[m].(features := phases[m].features + [f]));
  }

  lemma NotCountedKeeps(shapes: seq<Shape>)
    requires shapes != [] && !Counted(shapes, |shapes| - 1)
    ensures NonEmpty(RowsOf(shapes).phases) == NonEmpty(RowsOf(shapes[..|shapes| - 1]).phases)
  {
    var r, shape := RowsOf(shapes[..|shapes| - 1]), shapes[|shapes| - 1];
    if shape.HeadShape? {
      NonEmptySnoc(r.phases, shape.heading.phase.(features := []));
    }
  }

  /** The line of feature `k` of returned phase `p`, and what has been read when it is reached. */
  lemma {:induction false} Locate(shapes: seq<Shape>, p: nat, k: nat) returns (j: nat)
    requires p < |NonEmpty(RowsOf(shapes).phases)| && k < |NonEmpty(RowsOf(shapes).phases)[p].features|
    ensures j < |shapes| && Counted(shapes, j)
    ensures shapes[j].feature == NonEmpty(RowsOf(shapes).phases)[p].features[k]
    ensures
      var before := RowsOf(shapes[..j]).phases;
      |NonEmpty(before[..|before| - 1])| == p && |before[|before| - 1].features| == k
  {
    var n := |shapes| - 1;
    assert shapes != [];
    var front, shape := shapes[..n], shapes[n];
    var phases := RowsOf(front).phases;
    if Counted(shapes, n) && LastIs(phases, p, k) {
      NonEmptyGrow(phases, shape.feature);
      return n;
    }
    NotTheLast(shapes, p, k);
    j := Locate(front, p, k);
    assert front[..j] == shapes[..j];
  }

  /** The next feature of the open phase is feature `k` of returned phase `p`. */
  predicate LastIs(phases: seq<PlanPhase>, p: nat, k: nat)
    requires phases != []
  {
    p == |NonEmpty(phases[..|phases| - 1])| && k == |phases[|phases| - 1].features|
  }

  lemma NotTheLast(shapes: seq<Shape>, p: nat, k: nat)
    requires shapes != [] && p < |NonEmpty(RowsOf(shapes).phases)| && k < |NonEmpty(RowsOf(shapes).phases)[p].features|
    requires Counted(shapes, |shapes| - 1) ==> !LastIs(RowsOf(shapes[..|shapes| - 1]).phases, p, k)
    ensures
      var phases := NonEmpty(RowsOf(shapes[..|shapes| - 1]).phases);
      p < |phases| && k < |phases[p].features| && phases[p].features[k] == NonEmpty(RowsOf(shapes).phases)[p].features[k]
  {
    if Counted(shapes, |shapes| - 1) {
      var phases := RowsOf(shapes[..|shapes| - 1]).phases;
      NonEmptyGrow(phases, shapes[|shapes| - 1].feature);
      assert phases == phases[..|phases| - 1] + [phases[|phases| - 1]];
    } else {
      NotCountedKeeps(shapes);
    }
  }

  /** The last feature read before the end, with none read after it. */
  lemma {:induction false} LastFeature(shapes: seq<Shape>) returns (i: nat)
    requires NonEmpty(RowsOf(shapes).phases) != []
    ensures i < |shapes| && Counted(shapes, i)
    ensures AllEmpty(FeedAll(Seed(RowsOf(shapes[..i + 1])), shapes[i + 1..]).phases)
  {
    var n := |shapes| - 1;
    assert shapes != [];
    var front, shape := shapes[..n], shapes[n];
    if Counted(shapes, n) {
      i := n;
    } else {
      NotCountedKeeps(shapes);
      i := LastFeature(front);
      SlicesOfFront(shapes, i);
      StaysQuiet(shapes[..i + 1], front[i + 1..], shape);
    }
  }

  lemma SlicesOfFront<T>(s: seq<T>, i: nat)
    requires i + 1 < |s|
    ensures
      var front := s[..|s| - 1];
      && front[..i] == s[..i] && front[..i + 1] == s[..i + 1]
      && s[i + 1..] == front[i + 1..] + [s[|s| - 1]] && s[..i + 1] + front[i + 1..] == front
  {
  }

  lemma StaysQuiet(before: seq<Shape>, between: seq<Shape>, shape: Shape)
    requires AllEmpty(FeedAll(Seed(RowsOf(before)), between).phases)
    requires !(shape.FeatureShape? && RowsOf(before + between).open)
    ensures AllEmpty(FeedAll(Seed(RowsOf(before)), between + [shape]).phases)
  {
    FeedSnoc(Seed(RowsOf(before)), between, shape);
    FeedAllConcat(BLANK, before, between);
    GraftAll(RowsOf(before), between);
  }

  // ---- The shape of a document around two neighbours ----------------------------------------

  /** From `t`: features `x`, then what `d` adds, then features `y`, then what `e` adds. */
  function Build(t: Rows, x: seq<PlanFeature>, d: Rows, y: seq<PlanFeature>, e: Rows): Rows
    requires t.open && t.phases != [] && d.open && d.phases != [] && e.phases != []
  {
    var middle := Graft(t.(phases := Grow(t.phases, x)), d);
    Graft(middle.(phases := Grow(middle.phases, y)), e)
  }

  lemma BuildIsRows(
    before: seq<Shape>, x: seq<PlanFeature>, between: seq<Shape>, y: seq<PlanFeature>, after: seq<Shape>, d: Rows, e: Rows)
    requires
      var t := RowsOf(before);
      && t.open
      && d == FeedAll(Seed(t), between) && d.open
      && e == FeedAll(Rows(d.region, true, [BLANK_PHASE]), after)
    ensures d.phases != [] && e.phases != []
    ensures RowsOf(before + FeatureShapes(x) + between + FeatureShapes(y) + after) == Build(RowsOf(before), x, d, y, e)
  {
    var t := RowsOf(before);
    var t' := t.(phases := Grow(t.phases, x));
    var middle := Graft(t', d);
    var middle' := middle.(phases := Grow(middle.phases, y));
    FeedAllConcat(BLANK, before, FeatureShapes(x));
    FeedFeatures(t, x);
    FeedAllConcat(BLANK, before + FeatureShapes(x), between);
    GraftAll(t', between);
    FeedAllConcat(BLANK, before + FeatureShapes(x) + between, FeatureShapes(y));
    FeedFeatures(middle, y);
    FeedAllConcat(BLANK, before + FeatureShapes(x) + between + FeatureShapes(y), after);
    GraftAll(middle', after);
  }

  function Front(phases: seq<PlanPhase>): seq<PlanPhase>
    requires phases != []
  {
    phases[..|phases| - 1]
  }

  function LastOf(phases: seq<PlanPhase>): PlanPhase
    requires phases != []
  {
    phases[|phases| - 1]
  }

  function With(phase: PlanPhase, more: seq<PlanFeature>): PlanPhase {
    phase.(features := phase.features + more)
  }

  /** No phase opens in between: `x`, `y` and what follows land in one phase. */
  lemma BuildSamePhase(t: Rows, x: seq<PlanFeature>, d: Rows, y: seq<PlanFeature>, e: Rows)
    requires t.open && t.phases != [] && d.open && |d.phases| == 1 && AllEmpty(d.phases) && e.phases != []
    ensures Build(t, x, d, y, e).phases
         == Front(t.phases) + [With(LastOf(t.phases), x + y + e.phases[0].features)] + e.phases[1..]
  {
    GrowFacts(Grow(t.phases, x), [], []);
    GrowFacts(t.phases, x, y);
    GrowFacts(t.phases, x + y, e.phases[0].features);
  }

  /** Phases open in between: `x` ends the first phase and `y` begins the last. */
  lemma BuildAcross(t: Rows, x: seq<PlanFeature>, d: Rows, y: seq<PlanFeature>, e: Rows)
    requires t.open && t.phases != [] && d.open && |d.phases| > 1 && AllEmpty(d.phases) && e.phases != []
    ensures Build(t, x, d, y, e).phases
         == Front(t.phases) + [With(LastOf(t.phases), x)] + Front(d.phases[1..])
            + [LastOf(d.phases).(features := y + e.phases[0].features)] + e.phases[1..]
  {
    var grown, rest, more := Grow(t.phases, x), d.phases[1..], e.phases[0].features;
    assert d.phases[0].features == [];
    GrowFacts(grown, [], []);
    var middle := grown + rest;
    GrowFacts(middle, y, more);
    GrowAcross(grown, rest, y + more);
    assert LastOf(rest) == LastOf(d.phases) == d.phases[|d.phases| - 1];
    assert [] + (y + more) == y + more;
    assert With(LastOf(rest), y + more) == LastOf(d.phases).(features := y + more);
    assert Build(t, x, d, y, e).phases == Grow(middle, y + more) + e.phases[1..];
  }

  lemma GrowAcross(grown: seq<PlanPhase>, rest: seq<PlanPhase>, more: seq<PlanFeature>)
    requires rest != []
    ensures Grow(grown + rest, more) == grown + Front(rest) + [With(LastOf(rest), more)]
  {
  }

  /** Lines `i` and `j` hold neighbouring features: nothing between them is read as a feature. */
  ghost predicate Neighbouring(shapes: seq<Shape>, i: nat, j: nat, t: Rows, d: Rows) {
    && i < j < |shapes| && Counted(shapes, i) && shapes[j].FeatureShape?
    && t == RowsOf(shapes[..i])
    && d == FeedAll(Seed(t), shapes[i + 1..j]) && d.open && d.phases != [] && AllEmpty(d.phases)
  }

  /** Every returned feature but the first has a predecessor; it is in the same phase or ends the one before. */
  lemma Neighbours(shapes: seq<Shape>, p: nat, k: nat) returns (i: nat, j: nat, t: Rows, d: Rows)
    requires p < |NonEmpty(RowsOf(shapes).phases)| && k < |NonEmpty(RowsOf(shapes).phases)[p].features|
    requires p > 0 || k > 0
    ensures Neighbouring(shapes, i, j, t, d) && Counted(shapes, j)
    ensures t.open && t.phases != []
    ensures shapes[j].feature == NonEmpty(RowsOf(shapes).phases)[p].features[k]
    ensures k > 0 ==> |d.phases| == 1 && |NonEmpty(Front(t.phases))| == p && |LastOf(t.phases).features| == k - 1
    ensures k == 0 ==> |d.phases| > 1 && |NonEmpty(Front(t.phases))| == p - 1
  {
    j := Locate(shapes, p, k);
    var before := shapes[..j];
    var s := RowsOf(before).phases;
    assert s == Front(s) + [LastOf(s)];
    NonEmptySnoc(Front(s), LastOf(s));
    i, t, d := LastBefore(before);
    assert before[..i] == shapes[..i] && before[i + 1..] == shapes[i + 1..j];
    PlaceNeighbour(t, shapes[i].feature, d, s, p, k);
  }

  /** The last feature read in a document, and what was read before and after it. */
  lemma LastBefore(before: seq<Shape>) returns (i: nat, t: Rows, d: Rows)
    requires NonEmpty(RowsOf(before).phases) != []
    ensures i < |before| && Counted(before, i) && t == RowsOf(before[..i]) && t.open && t.phases != []
    ensures d == FeedAll(Seed(t), before[i + 1..]) && d.phases != [] && AllEmpty(d.phases)
    ensures d.open == RowsOf(before).open
    ensures RowsOf(before).phases == Grow(t.phases, [before[i].feature]) + d.phases[1..]
  {
    i := LastFeature(before);
    t := RowsOf(before[..i]);
    assert before[..i + 1] == before[..i] + [before[i]];
    FeedSnoc(BLANK, before[..i], before[i]);
    d := FeedAll(Seed(t), before[i + 1..]);
    assert before == before[..i] + [before[i]] + before[i + 1..];
    ReadAround(before[..i], before[i], before[i + 1..]);
  }

  lemma ReadAround(before: seq<Shape>, shape: Shape, after: seq<Shape>)
    requires shape.FeatureShape? && RowsOf(before).open
    ensures
      var t := RowsOf(before);
      var d := FeedAll(Seed(t), after);
      && t.phases != [] && d.phases != [] && Seed(RowsOf(before + [shape])) == Seed(t)
      && RowsOf(before + [shape] + after).open == d.open
      && (d.phases[0].features == [] ==>
            RowsOf(before + [shape] + after).phases == Grow(t.phases, [shape.feature]) + d.phases[1..])
  {
    FeedSnoc(BLANK, before, shape);
    FeedAllConcat(BLANK, before + [shape], after);
    var read := RowsOf(before + [shape]);
    GraftAll(read, after);
    GrowFacts(read.phases, [], []);
  }

  lemma GapIsDropped(phases: seq<PlanPhase>)
    requires |phases| > 1 && AllEmpty(phases)
    ensures NonEmpty(Front(phases[1..])) == []
  {
    var gap := Front(phases[1..]);
    forall m | 0 <= m < |gap|
      ensures gap[m].features == []
    {
      assert gap[m] == phases[m + 1];
    }
    AllEmptyDropped(gap);
  }

  lemma PlaceNeighbour(t: Rows, f: PlanFeature, d: Rows, s: seq<PlanPhase>, p: nat, k: nat)
    requires t.phases != [] && d.phases != [] && AllEmpty(d.phases)
    requires s == Grow(t.phases, [f]) + d.phases[1..]
    requires |NonEmpty(Front(s))| == p && |LastOf(s).features| == k
    ensures k > 0 ==> |d.phases| == 1 && |NonEmpty(Front(t.phases))| == p && |LastOf(t.phases).features| == k - 1
    ensures k == 0 ==> |d.phases| > 1 && |NonEmpty(Front(t.phases))| == p - 1
  {
    var grown := Grow(t.phases, [f]);
    if |d.phases| == 1 {
      assert Front(s) == Front(t.phases);
    } else {
      var rest := d.phases[1..];
      assert LastOf(s) == LastOf(d.phases);
      assert Front(s) == grown + Front(rest);
      NonEmptyConcat(grown, Front(rest));
      GapIsDropped(d.phases);
      NonEmptyGrow(t.phases, f);
    }
  }

  // ---- Reordering neighbours ----------------------------------------------------------------

  /** Feature `k` of phase `p` and the one before it change places. */
  function SwapUp(phases: seq<PlanPhase>, p: nat, k: nat): seq<PlanPhase>
    requires p < |phases| && 0 < k < |phases[p].features|
  {
    phases[p := phases[p].(features := Swap(phases[p].features, k - 1, k))]
  }

  function Kept(phase: PlanPhase, features: seq<PlanFeature>): seq<PlanPhase> {
    if features == [] then [] else [phase.(features := features)]
  }

  /** The first feature of phase `p` becomes the last of the phase before; a phase left empty disappears. */
  function RaiseFirst(phases: seq<PlanPhase>, p: nat): seq<PlanPhase>
    requires Boundary(phases, p)
  {
    var features := phases[p].features;
    phases[..p - 1] + [With(phases[p - 1], [features[0]])] + Kept(phases[p], features[1..]) + phases[p + 1..]
  }

  /** The last feature of phase `p - 1` becomes the first of phase `p`; a phase left empty disappears. */
  function LowerLast(phases: seq<PlanPhase>, p: nat): seq<PlanPhase>
    requires Boundary(phases, p)
  {
    var features := phases[p - 1].features;
    var m := |features| - 1;
    phases[..p - 1] + Kept(phases[p - 1], features[..m])
    + [phases[p].(features := [features[m]] + phases[p].features)] + phases[p + 1..]
  }

  lemma NonEmptyKept(phase: PlanPhase)
    ensures NonEmpty([phase]) == Kept(phase, phase.features)
  {
    assert NonEmpty([]) == [];
    NonEmptySnoc([], phase);
    assert [] + [phase] == [phase];
    assert phase.(features := phase.features) == phase;
  }

  lemma NonEmptyAround(before: seq<PlanPhase>, phase: PlanPhase, after: seq<PlanPhase>)
    ensures NonEmpty(before + [phase] + after) == NonEmpty(before) + Kept(phase, phase.features) + NonEmpty(after)
  {
    NonEmptyConcat(before + [phase], after);
    NonEmptyConcat(before, [phase]);
    NonEmptyKept(phase);
  }

  /** `y` after `x`, at the places of two neighbours. */
  function Rearranged(shapes: seq<Shape>, i: nat, x: seq<PlanFeature>, j: nat, y: seq<PlanFeature>): seq<Shape>
    requires i < j < |shapes|
  {
    shapes[..i] + FeatureShapes(x) + shapes[i + 1..j] + FeatureShapes(y) + shapes[j + 1..]
  }

  lemma RearrangedIsBuilt(
    shapes: seq<Shape>, i: nat, x: seq<PlanFeature>, j: nat, y: seq<PlanFeature>, t: Rows, d: Rows, e: Rows)
    requires Neighbouring(shapes, i, j, t, d) && t.open && t.phases != []
    requires e == FeedAll(Rows(d.region, true, [BLANK_PHASE]), shapes[j + 1..])
    ensures e.phases != [] && RowsOf(Rearranged(shapes, i, x, j, y)) == Build(t, x, d, y, e)
  {
    BuildIsRows(shapes[..i], x, shapes[i + 1..j], y, shapes[j + 1..], d, e);
  }

  lemma NothingRearranged(shapes: seq<Shape>, i: nat, j: nat)
    requires i < j < |shapes| && shapes[i].FeatureShape? && shapes[j].FeatureShape?
    ensures Rearranged(shapes, i, [shapes[i].feature], j, [shapes[j].feature]) == shapes
  {
  }

  lemma SwapReparses(shapes: seq<Shape>, i: nat, j: nat, t: Rows, d: Rows, p: nat, k: nat)
    requires Neighbouring(shapes, i, j, t, d) && t.open && t.phases != [] && |d.phases| == 1
    requires |NonEmpty(Front(t.phases))| == p && |LastOf(t.phases).features| == k - 1 && k > 0
    ensures
      var phases := NonEmpty(RowsOf(shapes).phases);
      && p < |phases| && k < |phases[p].features|
      && phases[p].features[k - 1] == shapes[i].feature && phases[p].features[k] == shapes[j].feature
      && NonEmpty(RowsOf(Rearranged(shapes, i, [shapes[j].feature], j, [shapes[i].feature])).phases) == SwapUp(phases, p, k)
  {
    var f, g := shapes[i].feature, shapes[j].feature;
    var e := FeedAll(Rows(d.region, true, [BLANK_PHASE]), shapes[j + 1..]);
    NothingRearranged(shapes, i, j);
    RearrangedIsBuilt(shapes, i, [f], j, [g], t, d, e);
    RearrangedIsBuilt(shapes, i, [g], j, [f], t, d, e);
    BuildSamePhase(t, [f], d, [g], e);
    BuildSamePhase(t, [g], d, [f], e);
    var row := LastOf(t.phases);
    var more := e.phases[0].features;
    NonEmptyAround(Front(t.phases), With(row, [f] + [g] + more), e.phases[1..]);
    NonEmptyAround(Front(t.phases), With(row, [g] + [f] + more), e.phases[1..]);
    SwapShape(NonEmpty(Front(t.phases)), row, f, g, more, NonEmpty(e.phases[1..]));
  }

  lemma SwapShape(
    before: seq<PlanPhase>, row: PlanPhase, f: PlanFeature, g: PlanFeature, more: seq<PlanFeature>, after: seq<PlanPhase>)
    ensures
      var features, features' := row.features + ([f] + [g] + more), row.features + ([g] + [f] + more);
      var phases := before + Kept(row, features) + after;
      var p, k := |before|, |row.features| + 1;
      && p < |phases| && phases[p].features == features && features[k - 1] == f && features[k] == g
      && SwapUp(phases, p, k) == before + Kept(row, features') + after
  {
    var features, features' := row.features + ([f] + [g] + more), row.features + ([g] + [f] + more);
    assert Swap(features, |row.features|, |row.features| + 1) == features';
  }

  lemma AcrossReparses(shapes: seq<Shape>, i: nat, j: nat, t: Rows, d: Rows, p: nat)
    requires Neighbouring(shapes, i, j, t, d) && t.open && t.phases != [] && |d.phases| > 1
    requires |NonEmpty(Front(t.phases))| == p - 1 && p > 0
    ensures
      var phases := NonEmpty(RowsOf(shapes).phases);
      var f, g := shapes[i].feature, shapes[j].feature;
      && Boundary(phases, p)
      && phases[p - 1].features[|phases[p - 1].features| - 1] == f && phases[p].features[0] == g
      && NonEmpty(RowsOf(Rearranged(shapes, i, [f, g], j, [])).phases) == RaiseFirst(phases, p)
      && NonEmpty(RowsOf(Rearranged(shapes, i, [], j, [f, g])).phases) == LowerLast(phases, p)
  {
    var f, g := shapes[i].feature, shapes[j].feature;
    var e := FeedAll(Rows(d.region, true, [BLANK_PHASE]), shapes[j + 1..]);
    NothingRearranged(shapes, i, j);
    AcrossRow(shapes, i, [f], j, [g], t, d, e);
    AcrossRow(shapes, i, [f, g], j, [], t, d, e);
    AcrossRow(shapes, i, [], j, [f, g], t, d, e);
    var before, after := NonEmpty(Front(t.phases)), NonEmpty(e.phases[1..]);
    RaiseShape(before, LastOf(t.phases), f, g, LastOf(d.phases), e.phases[0].features, after);
    LowerShape(before, LastOf(t.phases), f, g, LastOf(d.phases), e.phases[0].features, after);
  }

  lemma RaiseShape(
    before: seq<PlanPhase>, row: PlanPhase, f: PlanFeature, g: PlanFeature, next: PlanPhase, more: seq<PlanFeature>,
    after: seq<PlanPhase>)
    ensures
      var phases := before + Kept(row, row.features + [f]) + Kept(next, [g] + more) + after;
      var p := |before| + 1;
      && Boundary(phases, p) && phases[p].features[0] == g
      && RaiseFirst(phases, p) == before + Kept(row, row.features + [f, g]) + Kept(next, [] + more) + after
  {
    var phases := before + Kept(row, row.features + [f]) + Kept(next, [g] + more) + after;
    var p := |before| + 1;
    assert phases[..p - 1] == before && phases[p + 1..] == after;
    assert phases[p - 1] == row.(features := row.features + [f]) && phases[p] == next.(features := [g] + more);
    assert row.features + [f] + [g] == row.features + [f, g];
    assert ([g] + more)[1..] == [] + more;
  }

  lemma LowerShape(
    before: seq<PlanPhase>, row: PlanPhase, f: PlanFeature, g: PlanFeature, next: PlanPhase, more: seq<PlanFeature>,
    after: seq<PlanPhase>)
    ensures
      var phases := before + Kept(row, row.features + [f]) + Kept(next, [g] + more) + after;
      var p := |before| + 1;
      && Boundary(phases, p) && phases[p - 1].features[|phases[p - 1].features| - 1] == f
      && LowerLast(phases, p) == before + Kept(row, row.features + []) + Kept(next, [f, g] + more) + after
  {
    var phases := before + Kept(row, row.features + [f]) + Kept(next, [g] + more) + after;
    var p := |before| + 1;
    assert phases[..p - 1] == before && phases[p + 1..] == after;
    assert phases[p - 1] == row.(features := row.features + [f]) && phases[p] == next.(features := [g] + more);
    assert [f] + ([g] + more) == [f, g] + more;
    assert (row.features + [f])[..|row.features|] == row.features + [];
  }

  lemma AcrossRow(
    shapes: seq<Shape>, i: nat, x: seq<PlanFeature>, j: nat, y: seq<PlanFeature>, t: Rows, d: Rows, e: Rows)
    requires Neighbouring(shapes, i, j, t, d) && t.open && t.phases != [] && |d.phases| > 1
    requires e == FeedAll(Rows(d.region, true, [BLANK_PHASE]), shapes[j + 1..])
    ensures e.phases != []
    ensures NonEmpty(RowsOf(Rearranged(shapes, i, x, j, y)).phases)
         == NonEmpty(Front(t.phases)) + Kept(LastOf(t.phases), LastOf(t.phases).features + x)
            + Kept(LastOf(d.phases), y + e.phases[0].features) + NonEmpty(e.phases[1..])
  {
    RearrangedIsBuilt(shapes, i, x, j, y, t, d, e);
    BuildAcross(t, x, d, y, e);
    GapIsDropped(d.phases);
    NonEmptyAcross(Front(t.phases), LastOf(t.phases), LastOf(t.phases).features + x, Front(d.phases[1..]),
                   LastOf(d.phases), y + e.phases[0].features, e.phases[1..]);
  }

  lemma NonEmptyAcross(
    before: seq<PlanPhase>, first: PlanPhase, x: seq<PlanFeature>, gap: seq<PlanPhase>,
    last: PlanPhase, y: seq<PlanFeature>, after: seq<PlanPhase>)
    requires NonEmpty(gap) == []
    ensures NonEmpty(before + [first.(features := x)] + gap + [last.(features := y)] + after)
         == NonEmpty(before) + Kept(first, x) + Kept(last, y) + NonEmpty(after)
  {
    NonEmptyAround(before + [first.(features := x)] + gap, last.(features := y), after);
    NonEmptyAround(before, first.(features := x), gap);
    assert NonEmpty(before) + Kept(first, x) + [] == NonEmpty(before) + Kept(first, x);
    assert Kept(first.(features := x), x) == Kept(first, x) && Kept(last.(features := y), y) == Kept(last, y);
  }
}
