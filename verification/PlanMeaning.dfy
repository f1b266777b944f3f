/**
 What a PLAN.md file means (`crates/orrch-core/src/plan_parser.rs`), read off its list of lines without the automaton:
 which lines lie in a roadmap region, which headings open a phase, which lines are features of it and what continues them.
 */
module PlanMeaning {
  import opened Options
  import opened Text
  import opened PlanText
  import opened PlanParser
  import opened PlanRows

  // ---- Regions ------------------------------------------------------------------------------

  predicate AtLevel(c: PlanLine, level: nat) {
    c.Head? && c.heading.level == level
  }

  /** A level-2 heading that names the roadmap. */
  predicate NamesRegion(c: PlanLine) {
    AtLevel(c, 2) && c.heading.namesRegion
  }

  /** A level-2 heading that names neither the roadmap nor a phase. */
  predicate IsPlain(c: PlanLine) {
    AtLevel(c, 2) && !c.heading.namesRegion && !c.heading.phaseLike
  }

  /** A heading that reads like a phase and does not name the roadmap at level 2. */
  predicate ReadsLikePhase(c: PlanLine) {
    (AtLevel(c, 2) && c.heading.phaseLike && !c.heading.namesRegion) || (AtLevel(c, 3) && c.heading.phaseLike)
  }

  /** Ends whatever phase is open. */
  predicate EndsPhase(c: PlanLine) {
    NamesRegion(c) || IsPlain(c)
  }

  /** Some heading names the roadmap, and no plain level-2 heading follows it. */
  ghost predicate ExplicitAt(read: seq<PlanLine>, n: nat)
    requires n <= |read|
  {
    exists i :: 0 <= i < n && NamesRegion(read[i]) && forall j :: i < j < n ==> !IsPlain(read[j])
  }

  /** Some heading reads like a phase, and no heading that ends a phase follows it. */
  ghost predicate PhaseRunsAt(read: seq<PlanLine>, n: nat)
    requires n <= |read|
  {
    exists i :: 0 <= i < n && ReadsLikePhase(read[i]) && forall j :: i < j < n ==> !EndsPhase(read[j])
  }

  ghost function RegionAt(read: seq<PlanLine>, n: nat): Region
    requires n <= |read|
  {
    if ExplicitAt(read, n) then Explicit else if PhaseRunsAt(read, n) then Implicit else Outside
  }

  /** In an explicit region any level-3 heading opens a phase too. */
  ghost predicate OpensPhase(read: seq<PlanLine>, i: nat)
    requires i < |read|
  {
    ReadsLikePhase(read[i]) || (AtLevel(read[i], 3) && ExplicitAt(read, i))
  }

  ghost predicate PhaseOpenAt(read: seq<PlanLine>, n: nat)
    requires n <= |read|
  {
    exists i :: 0 <= i < n && OpensPhase(read, i) && forall j :: i < j < n ==> !EndsPhase(read[j])
  }

  /** Headings start at level 2. */
  predicate Headed(read: seq<PlanLine>) {
    forall i :: 0 <= i < |read| ==> ProperHeading(read[i])
  }

  predicate ProperHeading(c: PlanLine) {
    c.Head? ==> c.heading.level >= 2 && c.heading.phase.features == []
  }

  lemma ExplicitNext(read: seq<PlanLine>, n: nat)
    requires n < |read|
    ensures ExplicitAt(read, n + 1) <==> NamesRegion(read[n]) || (ExplicitAt(read, n) && !IsPlain(read[n]))
  {
    if ExplicitAt(read, n) && !IsPlain(read[n]) {
      var i :| 0 <= i < n && NamesRegion(read[i]) && forall j :: i < j < n ==> !IsPlain(read[j]);
      assert forall j :: i < j < n + 1 ==> !IsPlain(read[j]);
    }
  }

  lemma PhaseRunsNext(read: seq<PlanLine>, n: nat)
    requires n < |read|
    ensures PhaseRunsAt(read, n + 1) <==> ReadsLikePhase(read[n]) || (PhaseRunsAt(read, n) && !EndsPhase(read[n]))
  {
    if PhaseRunsAt(read, n) && !EndsPhase(read[n]) {
      var i :| 0 <= i < n && ReadsLikePhase(read[i]) && forall j :: i < j < n ==> !EndsPhase(read[j]);
      assert forall j :: i < j < n + 1 ==> !EndsPhase(read[j]);
    }
  }

  lemma OpenNext(read: seq<PlanLine>, n: nat)
    requires n < |read|
    ensures PhaseOpenAt(read, n + 1) <==> OpensPhase(read, n) || (PhaseOpenAt(read, n) && !EndsPhase(read[n]))
  {
    if PhaseOpenAt(read, n) && !EndsPhase(read[n]) {
      var i :| 0 <= i < n && OpensPhase(read, i) && forall j :: i < j < n ==> !EndsPhase(read[j]);
      assert forall j :: i < j < n + 1 ==> !EndsPhase(read[j]);
    }
  }

  /** One line of the automaton, in these terms. */
  lemma HeadingTurns(region: Region, runs: bool, open: bool, c: PlanLine)
    requires c.Head? && ProperHeading(c)
    requires region == Outside ==> !runs && !open
    requires region == Implicit ==> runs
    requires runs && region != Explicit ==> region == Implicit
    ensures
      var (region', action) := Turn(region, c.heading);
      var explicit' := NamesRegion(c) || (region == Explicit && !IsPlain(c));
      var runs' := ReadsLikePhase(c) || (runs && !EndsPhase(c));
      var opens := ReadsLikePhase(c) || (AtLevel(c, 3) && region == Explicit);
      && region' == (if explicit' then Explicit else if runs' then Implicit else Outside)
      && (action == Open <==> opens)
      && (EndsPhase(c) ==> action != Open && (open ==> action == Close))
      && (action == Close ==> EndsPhase(c))
  {
  }

  ghost predicate RegionsMatch(read: seq<PlanLine>, n: nat, st: Scan)
    requires n <= |read|
  {
    && st.region == RegionAt(read, n) && (st.open <==> PhaseOpenAt(read, n))
    && (PhaseOpenAt(read, n) ==> RegionAt(read, n) != Outside)
  }

  lemma RegionsMatchNext(read: seq<PlanLine>, n: nat, st: Scan)
    requires n < |read| && ProperHeading(read[n]) && Coherent(st) && RegionsMatch(read, n, st)
    ensures RegionsMatch(read, n + 1, ScanLine(st, read[n]))
  {
    ExplicitNext(read, n);
    PhaseRunsNext(read, n);
    OpenNext(read, n);
    if read[n].Head? {
      HeadingTurns(st.region, PhaseRunsAt(read, n), st.open, read[n]);
    } else {
      BodyStays(st, read[n]);
    }
  }

  lemma {:induction false} AlwaysRegionsMatch(read: seq<PlanLine>, n: nat)
    requires n <= |read| && Headed(read)
    ensures RegionsMatch(read, n, ScanLines(read[..n]))
  {
    if n > 0 {
      AlwaysRegionsMatch(read, n - 1);
      assert read[..n] == read[..n - 1] + [read[n - 1]];
      ScanSnoc(read[..n - 1], read[n - 1]);
      RegionsMatchNext(read, n - 1, ScanLines(read[..n - 1]));
    }
  }

  /** The automaton is in the region, and has a phase open, exactly where the headings so far say so. */
  lemma RegionsAreRead(read: seq<PlanLine>, n: nat)
    requires n <= |read| && Headed(read)
    ensures ScanLines(read[..n]).region == RegionAt(read, n)
    ensures ScanLines(read[..n]).open <==> PhaseOpenAt(read, n)
    ensures PhaseOpenAt(read, n) ==> RegionAt(read, n) != Outside
  {
    AlwaysRegionsMatch(read, n);
  }

  lemma BodyStays(st: Scan, c: PlanLine)
    requires Coherent(st) && c.Body?
    ensures ScanLine(st, c).region == st.region && ScanLine(st, c).open == st.open
  {
  }

  // ---- Features and what continues them -----------------------------------------------------

  predicate IsFeature(c: PlanLine) {
    c.Body? && c.feature.Some?
  }

  /** Ends the text of the feature above: a heading, the next feature, a blank line or a rule. */
  predicate EndsText(c: PlanLine) {
    c.Head? || c.feature.Some? || (!c.continues && (c.trimmed == [] || "---" <= c.trimmed))
  }

  /** The lines from `k` on that continue the feature above them. */
  function TextFrom(read: seq<PlanLine>, k: nat): seq<string>
    decreases |read| - k
  {
    if k >= |read| || EndsText(read[k]) then []
    else (if read[k].continues then [read[k].trimmed] else []) + TextFrom(read, k + 1)
  }

  /** Nothing from `k` on ends the text. */
  predicate RunsOn(read: seq<PlanLine>, k: nat) {
    forall j :: k <= j < |read| ==> !EndsText(read[j])
  }

  /** The feature with these texts behind its description. */
  function Described(f: PlanFeature, texts: seq<string>): PlanFeature {
    if texts == [] then f else Continued(Described(f, texts[..|texts| - 1]), texts[|texts| - 1])
  }

  /** The heading of the phase that lines are in before line `n`. */
  ghost function HeadingOf(read: seq<PlanLine>, n: nat): PlanPhase
    requires n <= |read|
  {
    if n == 0 then BLANK_PHASE
    else if OpensPhase(read, n - 1) && read[n - 1].Head? then read[n - 1].heading.phase
    else HeadingOf(read, n - 1)
  }

  ghost predicate IsKept(read: seq<PlanLine>, j: nat)
    requires j < |read|
  {
    IsFeature(read[j]) && PhaseOpenAt(read, j)
  }

  /** The lines that are kept, and the heading that each line is under. */
  datatype Marks = Marks(kept: seq<bool>, headings: seq<PlanPhase>)

  ghost function MarksOf(read: seq<PlanLine>): Marks {
    Marks(seq(|read|, j requires 0 <= j < |read| => IsKept(read, j)),
          seq(|read|, j requires 0 <= j < |read| => HeadingOf(read, j)))
  }

  predicate Fitting(read: seq<PlanLine>, m: Marks) {
    |m.kept| == |m.headings| == |read| && forall j :: 0 <= j < |read| && m.kept[j] ==> IsFeature(read[j])
  }

  function Entry(read: seq<PlanLine>, m: Marks, j: nat): (PlanPhase, PlanFeature)
    requires j < |read| && Fitting(read, m) && m.kept[j]
  {
    (m.headings[j], Described(read[j].feature.value, TextFrom(read, j + 1)))
  }

  /** The kept lines before line `n`, each as a feature with its whole text under its heading. */
  function EntriesBelow(read: seq<PlanLine>, m: Marks, n: nat): seq<(PlanPhase, PlanFeature)>
    requires n <= |read| && Fitting(read, m)
  {
    if n == 0 then [] else EntriesBelow(read, m, n - 1) + if m.kept[n - 1] then [Entry(read, m, n - 1)] else []
  }

  /** The feature lines that are in a phase, each with its heading and its whole text. */
  ghost function Entries(read: seq<PlanLine>): seq<(PlanPhase, PlanFeature)> {
    EntriesBelow(read, MarksOf(read), |read|)
  }

  function TagAll(heading: PlanPhase, features: seq<PlanFeature>): seq<(PlanPhase, PlanFeature)> {
    seq(|features|, i requires 0 <= i < |features| => (heading, features[i]))
  }

  /** The features of a plan in order, each with the heading it is under. */
  function Tagged(phases: seq<PlanPhase>): seq<(PlanPhase, PlanFeature)> {
    if phases == [] then []
    else
      var last := phases[|phases| - 1];
      Tagged(phases[..|phases| - 1]) + TagAll(last.(features := []), last.features)
  }

  // ---- One more line ------------------------------------------------------------------------

  lemma PrefixOpens(front: seq<PlanLine>, c: PlanLine, n: nat)
    requires n <= |front|
    ensures ExplicitAt(front + [c], n) == ExplicitAt(front, n) && PhaseOpenAt(front + [c], n) == PhaseOpenAt(front, n)
    ensures n < |front| ==> OpensPhase(front + [c], n) == OpensPhase(front, n)
  {
    var read := front + [c];
    ExplicitPrefix(front, c, n);
    forall i: nat | i < n ensures OpensPhase(read, i) == OpensPhase(front, i) {
      ExplicitPrefix(front, c, i);
    }
    assert forall i :: 0 <= i < n ==> read[i] == front[i];
    if PhaseOpenAt(front, n) {
      var i :| 0 <= i < n && OpensPhase(front, i) && forall j :: i < j < n ==> !EndsPhase(front[j]);
      assert OpensPhase(read, i) && forall j :: i < j < n ==> !EndsPhase(read[j]);
    }
    if PhaseOpenAt(read, n) {
      var i :| 0 <= i < n && OpensPhase(read, i) && forall j :: i < j < n ==> !EndsPhase(read[j]);
      assert OpensPhase(front, i) && forall j :: i < j < n ==> !EndsPhase(front[j]);
    }
  }

  lemma ExplicitPrefix(front: seq<PlanLine>, c: PlanLine, n: nat)
    requires n <= |front|
    ensures ExplicitAt(front + [c], n) == ExplicitAt(front, n)
  {
    var read := front + [c];
    assert forall i :: 0 <= i < n ==> read[i] == front[i];
    if ExplicitAt(front, n) {
      var i :| 0 <= i < n && NamesRegion(front[i]) && forall j :: i < j < n ==> !IsPlain(front[j]);
      assert NamesRegion(read[i]) && forall j :: i < j < n ==> !IsPlain(read[j]);
    }
    if ExplicitAt(read, n) {
      var i :| 0 <= i < n && NamesRegion(read[i]) && forall j :: i < j < n ==> !IsPlain(read[j]);
      assert NamesRegion(front[i]) && forall j :: i < j < n ==> !IsPlain(front[j]);
    }
  }

  lemma {:induction false} PrefixHeading(front: seq<PlanLine>, c: PlanLine, n: nat)
    requires n <= |front|
    ensures HeadingOf(front + [c], n) == HeadingOf(front, n)
  {
    if n > 0 {
      PrefixOpens(front, c, n - 1);
      PrefixHeading(front, c, n - 1);
    }
  }

  lemma {:induction false} TextGrows(front: seq<PlanLine>, c: PlanLine, k: nat)
    requires k <= |front|
    ensures
      TextFrom(front + [c], k)
      == TextFrom(front, k) + if RunsOn(front, k) && !EndsText(c) && c.continues then [c.trimmed] else []
    decreases |front| - k
  {
    var read := front + [c];
    if k == |front| {
      assert TextFrom(read, k + 1) == [];
    } else {
      TextGrows(front, c, k + 1);
      assert read[k] == front[k];
      assert RunsOn(front, k) <==> !EndsText(front[k]) && RunsOn(front, k + 1);
    }
  }

  /** The last kept line before line `n`. */
  function LastKept(m: Marks, n: nat): (j: Option<nat>)
    requires n <= |m.kept|
    ensures j.Some? ==> j.value < n && m.kept[j.value]
  {
    if n == 0 then None else if m.kept[n - 1] then Some(n - 1) else LastKept(m, n - 1)
  }

  /** The text of the last kept line before line `n` reaches the end. */
  predicate StillRuns(read: seq<PlanLine>, m: Marks, n: nat)
    requires n <= |m.kept|
  {
    LastKept(m, n).Some? && RunsOn(read, LastKept(m, n).value + 1)
  }

  function WithTextOf(entries: seq<(PlanPhase, PlanFeature)>, text: string): seq<(PlanPhase, PlanFeature)>
    requires entries != []
  {
    var last := entries[|entries| - 1];
    entries[..|entries| - 1] + [(last.0, Continued(last.1, text))]
  }

  /** One more line, kept or not, under a heading. */
  function More(m: Marks, kept: bool, heading: PlanPhase): Marks {
    Marks(m.kept + [kept], m.headings + [heading])
  }

  lemma {:induction false} LastKeptStays(m: Marks, kept: bool, heading: PlanPhase, n: nat)
    requires n <= |m.kept|
    ensures LastKept(More(m, kept, heading), n) == LastKept(m, n)
  {
    if n > 0 {
      LastKeptStays(m, kept, heading, n - 1);
    }
  }

  /** The line continues the last of the entries before line `n`. */
  predicate Continues(front: seq<PlanLine>, m: Marks, c: PlanLine, n: nat)
    requires n <= |m.kept|
  {
    StillRuns(front, m, n) && !EndsText(c) && c.continues
  }

  lemma FittingMore(front: seq<PlanLine>, m: Marks, c: PlanLine, kept: bool, heading: PlanPhase)
    requires Fitting(front, m) && (kept ==> IsFeature(c))
    ensures Fitting(front + [c], More(m, kept, heading))
  {
  }

  /** The entries below line `n` before and after `c` is put behind all lines. */
  predicate Grown(
    front: seq<PlanLine>, m: Marks, c: PlanLine, n: nat,
    before: seq<(PlanPhase, PlanFeature)>, after: seq<(PlanPhase, PlanFeature)>)
    requires n <= |m.kept|
  {
    if Continues(front, m, c, n) then before != [] && after == WithTextOf(before, c.trimmed) else after == before
  }

  /** A line behind them changes earlier entries only by continuing the last one. */
  lemma {:induction false} EntriesGrow(
    front: seq<PlanLine>, m: Marks, c: PlanLine, kept: bool, heading: PlanPhase, n: nat)
    requires n <= |front| && Fitting(front, m) && Fitting(front + [c], More(m, kept, heading))
    ensures
      Grown(front, m, c, n, EntriesBelow(front, m, n), EntriesBelow(front + [c], More(m, kept, heading), n))
  {
    if n > 0 {
      EntriesGrow(front, m, c, kept, heading, n - 1);
      var before := EntriesBelow(front, m, n - 1);
      var after := EntriesBelow(front + [c], More(m, kept, heading), n - 1);
      if m.kept[n - 1] {
        EntryGrows(front, m, c, kept, heading, n - 1);
        GrownByEntry(front, m, c, n, before, after, Entry(front, m, n - 1), Entry(front + [c], More(m, kept, heading), n - 1));
      } else {
        NotGrown(front, m, c, n, before, after);
      }
    }
  }

  lemma NotGrown(
    front: seq<PlanLine>, m: Marks, c: PlanLine, n: nat,
    before: seq<(PlanPhase, PlanFeature)>, after: seq<(PlanPhase, PlanFeature)>)
    requires 0 < n <= |m.kept| && !m.kept[n - 1] && Grown(front, m, c, n - 1, before, after)
    ensures Grown(front, m, c, n, before + [], after + [])
  {
    assert before + [] == before && after + [] == after;
  }

  lemma GrownByEntry(
    front: seq<PlanLine>, m: Marks, c: PlanLine, n: nat,
    before: seq<(PlanPhase, PlanFeature)>, after: seq<(PlanPhase, PlanFeature)>,
    e: (PlanPhase, PlanFeature), e': (PlanPhase, PlanFeature))
    requires 0 < n <= |m.kept| == |front| && m.kept[n - 1] && IsFeature(front[n - 1])
    requires Grown(front, m, c, n - 1, before, after)
    requires e' == if RunsOn(front, n) && !EndsText(c) && c.continues then (e.0, Continued(e.1, c.trimmed)) else e
    ensures Grown(front, m, c, n, before + [e], after + [e'])
  {
    KeptEndsRuns(front, m, n - 1);
    if Continues(front, m, c, n) {
      TextOfSnoc(before, e, c.trimmed);
    }
  }

  lemma TextOfSnoc(before: seq<(PlanPhase, PlanFeature)>, e: (PlanPhase, PlanFeature), text: string)
    ensures WithTextOf(before + [e], text) == before + [(e.0, Continued(e.1, text))]
  {
    assert (before + [e])[..|before|] == before;
  }

  lemma KeptEndsRuns(read: seq<PlanLine>, m: Marks, j: nat)
    requires j < |read| == |m.kept| && IsFeature(read[j])
    ensures !StillRuns(read, m, j)
  {
    assert EndsText(read[j]);
  }

  lemma EntryGrows(front: seq<PlanLine>, m: Marks, c: PlanLine, kept: bool, heading: PlanPhase, j: nat)
    requires j < |front| && Fitting(front, m) && m.kept[j]
    requires Fitting(front + [c], More(m, kept, heading))
    ensures
      var before, after := Entry(front, m, j), Entry(front + [c], More(m, kept, heading), j);
      after == if RunsOn(front, j + 1) && !EndsText(c) && c.continues then (before.0, Continued(before.1, c.trimmed)) else before
  {
    var f, texts := front[j].feature.value, TextFrom(front, j + 1);
    TextGrows(front, c, j + 1);
    assert (front + [c])[j] == front[j] && texts + [] == texts;
    if RunsOn(front, j + 1) && !EndsText(c) && c.continues {
      DescribedSnoc(f, texts, c.trimmed);
    }
  }

  lemma DescribedSnoc(f: PlanFeature, texts: seq<string>, text: string)
    ensures Described(f, texts + [text]) == Continued(Described(f, texts), text)
  {
    assert (texts + [text])[..|texts|] == texts;
  }

  lemma MarkAt(front: seq<PlanLine>, c: PlanLine, j: nat)
    requires j <= |front|
    ensures HeadingOf(front + [c], j) == HeadingOf(front, j)
    ensures j < |front| ==> IsKept(front + [c], j) == IsKept(front, j)
    ensures j == |front| ==> IsKept(front + [c], j) == (IsFeature(c) && PhaseOpenAt(front, j))
  {
    PrefixHeading(front, c, j);
    PrefixOpens(front, c, j);
  }

  lemma MarksFit(read: seq<PlanLine>)
    ensures Fitting(read, MarksOf(read))
  {
  }

  /** The marks of a document are those of the lines before the last, and one more. */
  lemma MarksGrow(front: seq<PlanLine>, c: PlanLine)
    ensures
      MarksOf(front + [c])
      == More(MarksOf(front), IsFeature(c) && PhaseOpenAt(front, |front|), HeadingOf(front, |front|))
  {
    var read, m := front + [c], MarksOf(front + [c]);
    var m' := More(MarksOf(front), IsFeature(c) && PhaseOpenAt(front, |front|), HeadingOf(front, |front|));
    forall j: nat | j <= |front| ensures m.kept[j] == m'.kept[j] && m.headings[j] == m'.headings[j] {
      MarkAt(front, c, j);
    }
    assert m.kept == m'.kept && m.headings == m'.headings;
  }

  // ---- The automaton reads exactly these entries --------------------------------------------

  lemma TaggedSnoc(phases: seq<PlanPhase>, last: PlanPhase)
    ensures Tagged(phases + [last]) == Tagged(phases) + TagAll(last.(features := []), last.features)
  {
    assert (phases + [last])[..|phases|] == phases;
  }

  lemma TaggedOnLast(phases: seq<PlanPhase>, f: PlanFeature)
    requires phases != []
    ensures
      var last := phases[|phases| - 1];
      Tagged(OnLast(phases, last.features + [f])) == Tagged(phases) + [(last.(features := []), f)]
  {
    var front, last := phases[..|phases| - 1], phases[|phases| - 1];
    assert phases == front + [last];
    TaggedSnoc(front, last);
    TaggedSnoc(front, last.(features := last.features + [f]));
    assert TagAll(last.(features := []), last.features + [f])
        == TagAll(last.(features := []), last.features) + [(last.(features := []), f)];
  }

  lemma TaggedLast(front: seq<PlanPhase>, last: PlanPhase)
    requires last.features != []
    ensures
      var n := |last.features| - 1;
      Tagged(front + [last]) == TaggedBut(front, last) + [(last.(features := []), last.features[n])]
  {
    var n := |last.features| - 1;
    TaggedSnoc(front, last);
    assert TagAll(last.(features := []), last.features)
        == TagAll(last.(features := []), last.features[..n]) + [(last.(features := []), last.features[n])];
  }

  /** All but the last feature. */
  function TaggedBut(front: seq<PlanPhase>, last: PlanPhase): seq<(PlanPhase, PlanFeature)>
    requires last.features != []
  {
    Tagged(front) + TagAll(last.(features := []), last.features[..|last.features| - 1])
  }

  lemma {:induction false} TaggedWithText(phases: seq<PlanPhase>, text: string)
    requires phases != [] && phases[|phases| - 1].features != []
    ensures Tagged(phases) != []
    ensures Tagged(WithText(phases, text)) == WithTextOf(Tagged(phases), text)
  {
    var front, last := phases[..|phases| - 1], phases[|phases| - 1];
    var longer := last.(features := Longer(last.features, text));
    TaggedLast(front, last);
    TaggedLast(front, longer);
    assert phases == front + [last] && WithText(phases, text) == front + [longer];
    assert TaggedBut(front, longer) == TaggedBut(front, last) by {
      assert longer.features[..|last.features| - 1] == last.features[..|last.features| - 1];
    }
  }

  /** What the automaton has read, in these terms. */
  ghost predicate ReadsEntries(read: seq<PlanLine>, m: Marks, st: Scan, heading: PlanPhase, open: bool)
    requires Fitting(read, m)
  {
    && Coherent(st) && st.open == open
    && Tagged(st.phases) == EntriesBelow(read, m, |read|)
    && (st.open ==> st.phases[|st.phases| - 1].(features := []) == heading)
    && (st.cont <==> StillRuns(read, m, |read|))
  }

  lemma HeadingReads(front: seq<PlanLine>, m: Marks, st: Scan, heading: PlanPhase, c: PlanLine, opens: bool, open: bool)
    requires Fitting(front, m) && ReadsEntries(front, m, st, heading, st.open) && c.Head? && ProperHeading(c)
    requires ScanLine(st, c).open == open && (Turn(st.region, c.heading).1 == Open <==> opens)
    ensures Fitting(front + [c], More(m, false, heading))
    ensures
      ReadsEntries(front + [c], More(m, false, heading), ScanLine(st, c), if opens then c.heading.phase else heading, open)
  {
    FittingMore(front, m, c, false, heading);
    EntriesGrow(front, m, c, false, heading, |front|);
    LastKeptStays(m, false, heading, |front|);
    TaggedSnoc(st.phases, c.heading.phase);
    assert TagAll(c.heading.phase.(features := []), []) == [];
    assert EndsText((front + [c])[|front|]);
  }

  lemma FeatureReads(front: seq<PlanLine>, m: Marks, st: Scan, heading: PlanPhase, c: PlanLine)
    requires Fitting(front, m) && ReadsEntries(front, m, st, heading, st.open) && IsFeature(c)
    ensures Fitting(front + [c], More(m, st.open, heading))
    ensures ReadsEntries(front + [c], More(m, st.open, heading), ScanLine(st, c), heading, st.open)
  {
    var read := front + [c];
    FittingMore(front, m, c, st.open, heading);
    EntriesGrow(front, m, c, st.open, heading, |front|);
    LastKeptStays(m, st.open, heading, |front|);
    assert read[|front|] == c && EndsText(read[|front|]);
    assert TextFrom(read, |read|) == [];
    if st.open {
      TaggedOnLast(st.phases, c.feature.value);
    }
  }

  lemma TextReads(front: seq<PlanLine>, m: Marks, st: Scan, heading: PlanPhase, c: PlanLine)
    requires Fitting(front, m) && ReadsEntries(front, m, st, heading, st.open) && c.Body? && c.feature.None?
    ensures Fitting(front + [c], More(m, false, heading))
    ensures ReadsEntries(front + [c], More(m, false, heading), ScanLine(st, c), heading, st.open)
  {
    FittingMore(front, m, c, false, heading);
    EntriesGrow(front, m, c, false, heading, |front|);
    StillRunsNext(front, m, c, heading);
    if st.cont && c.continues {
      TextRead(st, c);
      TaggedWithText(st.phases, c.trimmed);
    }
  }

  lemma StillRunsNext(front: seq<PlanLine>, m: Marks, c: PlanLine, heading: PlanPhase)
    requires |m.kept| == |front|
    ensures
      StillRuns(front + [c], More(m, false, heading), |front| + 1) <==> StillRuns(front, m, |front|) && !EndsText(c)
  {
    var read := front + [c];
    LastKeptStays(m, false, heading, |front|);
    if StillRuns(read, More(m, false, heading), |read|) {
      assert forall j :: 0 <= j < |front| ==> read[j] == front[j];
      assert read[|front|] == c;
    }
  }

  lemma {:induction false} EntriesAreRead(read: seq<PlanLine>)
    requires Headed(read)
    ensures Fitting(read, MarksOf(read))
    ensures ReadsEntries(read, MarksOf(read), ScanLines(read), HeadingOf(read, |read|), PhaseOpenAt(read, |read|))
  {
    MarksFit(read);
    if read != [] {
      var front, c := read[..|read| - 1], read[|read| - 1];
      assert read == front + [c];
      EntriesAreRead(front);
      ScanSnoc(front, c);
      MarksGrow(front, c);
      OpenAfter(front, c);
      HeadingNext(front, c);
      NextEntries(front, MarksOf(front), ScanLines(front), HeadingOf(front, |front|), c,
                  c.Head? && OpensPhase(read, |front|), PhaseOpenAt(read, |read|));
    }
  }

  lemma NextEntries(front: seq<PlanLine>, m: Marks, st: Scan, heading: PlanPhase, c: PlanLine, opens: bool, open: bool)
    requires Fitting(front, m) && ReadsEntries(front, m, st, heading, st.open) && ProperHeading(c)
    requires ScanLine(st, c).open == open
    requires if c.Head? then Turn(st.region, c.heading).1 == Open <==> opens else !opens
    ensures
      var m' := More(m, IsFeature(c) && st.open, heading);
      && Fitting(front + [c], m')
      && ReadsEntries(front + [c], m', ScanLine(st, c), if opens then c.heading.phase else heading, open)
  {
    if c.Head? {
      HeadingReads(front, m, st, heading, c, opens, open);
    } else if c.feature.Some? {
      FeatureReads(front, m, st, heading, c);
    } else {
      TextReads(front, m, st, heading, c);
    }
  }

  lemma HeadingNext(front: seq<PlanLine>, c: PlanLine)
    requires Headed(front + [c])
    ensures
      HeadingOf(front + [c], |front| + 1)
      == if c.Head? && OpensPhase(front + [c], |front|) then c.heading.phase else HeadingOf(front, |front|)
    ensures c.Head? ==> (Turn(ScanLines(front).region, c.heading).1 == Open <==> OpensPhase(front + [c], |front|))
  {
    PrefixHeading(front, c, |front|);
    assert (front + [c])[|front|] == c;
    if c.Head? {
      TurnOpens(front, c);
    }
  }

  lemma OpenAfter(front: seq<PlanLine>, c: PlanLine)
    requires Headed(front + [c])
    ensures ScanLine(ScanLines(front), c).open <==> PhaseOpenAt(front + [c], |front| + 1)
  {
    var read := front + [c];
    RegionsAreRead(read, |read|);
    assert read[..|read|] == read;
    ScanSnoc(front, c);
  }

  lemma TurnOpens(front: seq<PlanLine>, c: PlanLine)
    requires Headed(front + [c]) && c.Head?
    ensures Turn(ScanLines(front).region, c.heading).1 == Open <==> OpensPhase(front + [c], |front|)
  {
    var read := front + [c];
    RegionsAreRead(read, |front|);
    assert read[..|front|] == front && read[|front|] == c;
    HeadingTurns(ScanLines(front).region, PhaseRunsAt(read, |front|), ScanLines(front).open, c);
  }

  // ---- The plan -----------------------------------------------------------------------------

  lemma {:induction false} TaggedNonEmpty(phases: seq<PlanPhase>)
    ensures Tagged(NonEmpty(phases)) == Tagged(phases)
  {
    if phases != [] {
      var front, last := phases[..|phases| - 1], phases[|phases| - 1];
      TaggedNonEmpty(front);
      if last.features != [] {
        TaggedSnoc(NonEmpty(front), last);
      } else {
        assert Tagged(front) + TagAll(last.(features := []), last.features) == Tagged(front);
        assert NonEmpty(phases) == NonEmpty(front);
      }
    }
  }

  lemma ClassifiedIsHeaded(lines: seq<string>)
    ensures Headed(Map(Classify, lines))
  {
    forall i: nat | i < |lines| ensures ProperHeading(Map(Classify, lines)[i]) {
      MapAt(Classify, lines, i);
      ClassifyHeads(lines[i]);
    }
  }

  lemma ClassifyHeads(line: string)
    ensures ProperHeading(Classify(line))
  {
  }

  /**
   The plan is the feature lines that lie in a phase, in order, each under the heading that opened the phase and with
   the text lines that continue it.
   */
  lemma PlanIsItsEntries(lines: seq<string>)
    ensures Tagged(ParsePlan(lines)) == Entries(Map(Classify, lines))
  {
    ClassifiedIsHeaded(lines);
    EntriesAreRead(Map(Classify, lines));
    ScanIsOfLines(lines);
    TaggedNonEmpty(ScanAll(lines).phases);
  }

  /** The automaton's region and whether a phase is open, after any number of lines. */
  lemma RegionsOfPlan(lines: seq<string>, n: nat)
    requires n <= |lines|
    ensures
      var read, st := Map(Classify, lines), ScanAll(lines[..n]);
      st.region == RegionAt(read, n) && (st.open <==> PhaseOpenAt(read, n))
  {
    ClassifiedIsHeaded(lines);
    RegionsAreRead(Map(Classify, lines), n);
    MapPrefix(Classify, lines, n);
    ScanIsOfLines(lines[..n]);
  }

  /** The description of an entry is its own and the texts, one blank between any two. */
  lemma {:induction false} DescriptionIsJoined(f: PlanFeature, texts: seq<string>)
    requires forall i :: 0 <= i < |texts| ==> texts[i] != []
    ensures Described(f, texts) == f.(description := Join((if f.description == [] then [] else [f.description]) + texts, " "))
  {
    var own := if f.description == [] then [] else [f.description];
    if texts == [] {
      assert own + texts == own;
    } else {
      var front, last := texts[..|texts| - 1], texts[|texts| - 1];
      DescriptionIsJoined(f, front);
      assert own + texts == (own + front) + [last];
      JoinSnoc(own + front, last);
      JoinIsEmpty(own + front);
    }
  }

  lemma {:induction false} JoinSnoc(parts: seq<string>, last: string)
    ensures Join(parts + [last], " ") == if parts == [] then last else Join(parts, " ") + " " + last
  {
    if parts == [] {
      assert parts + [last] == [last];
    } else {
      var all := parts + [last];
      assert all[1..] == parts[1..] + [last];
      JoinSnoc(parts[1..], last);
      if |parts| > 1 {
        assert parts[0] + " " + (Join(parts[1..], " ") + " " + last) == parts[0] + " " + Join(parts[1..], " ") + " " + last;
      }
    }
  }

  lemma JoinIsEmpty(parts: seq<string>)
    requires forall i :: 0 <= i < |parts| ==> parts[i] != []
    ensures Join(parts, " ") == [] <==> parts == []
  {
  }

  // ---- What the linter reports --------------------------------------------------------------

  function LintRead(read: seq<PlanLine>): Lint {
    if read == [] then Lint(Outside, false, None, None, {}, [], [])
    else LintLine(LintRead(read[..|read| - 1]), read[|read| - 1])
  }

  lemma {:induction false} LintIsOfLines(lines: seq<string>)
    ensures LintAll(lines) == LintRead(Map(Classify, lines))
  {
    if lines != [] {
      LintIsOfLines(lines[..|lines| - 1]);
    }
  }

  /** The text of the last heading before line `n`. */
  function HeadingBefore(read: seq<PlanLine>, n: nat): Option<string>
    requires n <= |read|
  {
    if n == 0 then None else if read[n - 1].Head? then Some(read[n - 1].heading.text) else HeadingBefore(read, n - 1)
  }

  /** A line of a numbered list outside every region. */
  ghost predicate Stray(read: seq<PlanLine>, j: nat)
    requires j < |read|
  {
    read[j].Body? && read[j].numbered && RegionAt(read, j) == Outside
  }

  /** Some stray list line before line `n` stands under this heading. */
  ghost predicate StrayUnder(read: seq<PlanLine>, n: nat, heading: string)
    requires n <= |read|
  {
    exists j :: 0 <= j < n && Stray(read, j) && heading == ListHeading(HeadingBefore(read, j))
  }

  /** Some heading before line `n` starts a region. */
  predicate HasRegion(read: seq<PlanLine>, n: nat)
    requires n <= |read|
  {
    exists i :: 0 <= i < n && (NamesRegion(read[i]) || ReadsLikePhase(read[i]))
  }

  ghost predicate PlainWarnings(l: Lint) {
    NoRoadmapRegion !in l.warnings && forall t :: IgnoredList(t) in l.warnings <==> t in l.ignored
  }

  ghost predicate LintsAt(read: seq<PlanLine>, n: nat, l: Lint)
    requires n <= |read|
  {
    && l.region == RegionAt(read, n) && (l.found <==> HasRegion(read, n))
    && (l.region == Outside ==> l.heading == HeadingBefore(read, n))
    && (forall t :: t in l.ignored <==> StrayUnder(read, n, t))
    && PlainWarnings(l)
  }

  lemma StrayNext(read: seq<PlanLine>, n: nat)
    requires n < |read|
    ensures
      forall t :: StrayUnder(read, n + 1, t) <==>
        StrayUnder(read, n, t) || (Stray(read, n) && t == ListHeading(HeadingBefore(read, n)))
  {
    forall t
      ensures
        StrayUnder(read, n + 1, t) <==>
          StrayUnder(read, n, t) || (Stray(read, n) && t == ListHeading(HeadingBefore(read, n)))
    {
      if StrayUnder(read, n + 1, t) {
        var j :| 0 <= j < n + 1 && Stray(read, j) && t == ListHeading(HeadingBefore(read, j));
        assert j < n ==> StrayUnder(read, n, t);
      }
      if StrayUnder(read, n, t) {
        var j :| 0 <= j < n && Stray(read, j) && t == ListHeading(HeadingBefore(read, j));
        assert 0 <= j < n + 1;
      }
    }
  }

  lemma FlushKeepsPlain(l: Lint)
    requires PlainWarnings(l)
    ensures PlainWarnings(FlushLint(l)) && FlushLint(l).ignored == l.ignored
  {
  }

  lemma RegionMeansHeading(read: seq<PlanLine>, n: nat)
    requires n <= |read| && RegionAt(read, n) != Outside
    ensures HasRegion(read, n)
  {
  }

  lemma HasRegionNext(read: seq<PlanLine>, n: nat)
    requires n < |read|
    ensures HasRegion(read, n + 1) <==> HasRegion(read, n) || NamesRegion(read[n]) || ReadsLikePhase(read[n])
  {
    if HasRegion(read, n) {
      var i :| 0 <= i < n && (NamesRegion(read[i]) || ReadsLikePhase(read[i]));
      assert 0 <= i < n + 1;
    }
  }

  lemma LintHeadingAt(read: seq<PlanLine>, n: nat, l: Lint)
    requires n < |read| && LintsAt(read, n, l) && read[n].Head? && ProperHeading(read[n])
    ensures LintsAt(read, n + 1, LintHeading(l, read[n].heading))
  {
    ExplicitNext(read, n);
    PhaseRunsNext(read, n);
    HasRegionNext(read, n);
    StrayNext(read, n);
    HeadingTurns(l.region, PhaseRunsAt(read, n), false, read[n]);
    FlushKeepsPlain(l);
    if RegionAt(read, n) != Outside {
      RegionMeansHeading(read, n);
    }
  }

  lemma LintBodyAt(read: seq<PlanLine>, n: nat, l: Lint)
    requires n < |read| && LintsAt(read, n, l) && read[n].Body?
    ensures LintsAt(read, n + 1, LintBody(l, read[n]))
  {
    ExplicitNext(read, n);
    PhaseRunsNext(read, n);
    HasRegionNext(read, n);
    StrayNext(read, n);
  }

  lemma {:induction false} LintReads(read: seq<PlanLine>, n: nat)
    requires n <= |read| && Headed(read)
    ensures LintsAt(read, n, LintRead(read[..n]))
  {
    if n > 0 {
      var m, l := n - 1, LintRead(read[..n - 1]);
      LintReads(read, m);
      assert ProperHeading(read[m]);
      LintReadNext(read, m);
      LintLineAt(read, m, l);
    }
  }

  lemma LintReadNext(read: seq<PlanLine>, n: nat)
    requires n < |read|
    ensures LintRead(read[..n + 1]) == LintLine(LintRead(read[..n]), read[n])
  {
    assert read[..n + 1][..n] == read[..n];
  }

  lemma LintLineAt(read: seq<PlanLine>, n: nat, l: Lint)
    requires n < |read| && LintsAt(read, n, l) && ProperHeading(read[n])
    ensures LintsAt(read, n + 1, LintLine(l, read[n]))
  {
    if read[n].Head? {
      LintHeadingAt(read, n, l);
    } else {
      LintBodyAt(read, n, l);
    }
  }

  lemma ReportOf(l: Lint)
    requires PlainWarnings(l)
    ensures
      var warnings := (if FlushLint(l).found then [] else [NoRoadmapRegion]) + FlushLint(l).warnings;
      (NoRoadmapRegion in warnings <==> !l.found) && forall t :: IgnoredList(t) in warnings <==> t in l.ignored
  {
    FlushKeepsPlain(l);
  }

  /**
   A document without a heading that starts a region is reported as such, and no other is; and an ignored list is
   reported under a heading exactly when a numbered line outside every region stands under it.
   */
  lemma LinterReports(lines: seq<string>)
    ensures
      var read, warnings := Map(Classify, lines), LintPlan(lines);
      && (NoRoadmapRegion in warnings <==> !HasRegion(read, |lines|))
      && forall t :: IgnoredList(t) in warnings <==> StrayUnder(read, |lines|, t)
  {
    var read := Map(Classify, lines);
    ClassifiedIsHeaded(lines);
    LintReads(read, |lines|);
    assert read[..|lines|] == read;
    LintIsOfLines(lines);
    ReportOf(LintAll(lines));
  }
}
