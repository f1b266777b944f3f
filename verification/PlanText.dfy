/**
 Line-level reading of a PLAN.md file (`crates/orrch-core/src/plan_parser.rs`): markdown headings, the tests for
 roadmap regions and phases, and feature lines, whether bullets, numbered items, checkpoints or table rows. `Classify`
 reads a line once; everything the parser and the linter do depends on a line only through it.
 */
module PlanText {
  import opened Options
  import opened Text

  const EM_DASH: char := '\U{2014}'
  const EN_DASH: char := '\U{2013}'
  const U8_MAX: nat := 0xFF
  const U32_MAX: nat := 0xFFFF_FFFF

  datatype FeatureStatus =
    | Planned | Implementing | Implemented | Testing | Verified | UserConfirmed | Done | Deprecated

  datatype PlanFeature = PlanFeature(
    id: Option<nat>, title: string, description: string, status: FeatureStatus, userVerified: bool)

  datatype PlanPhase = PlanPhase(name: string, number: Option<nat>, features: seq<PlanFeature>)

  // ---- Headings -----------------------------------------------------------------------------

  function HashCount(s: string): nat {
    if s != [] && s[0] == '#' then 1 + HashCount(s[1..]) else 0
  }

  lemma HashCountBound(s: string)
    ensures HashCount(s) <= |s|
  {
  }

  function MarkdownHeading(line: string): Option<(nat, string)> {
    HashCountBound(line);
    var level := HashCount(line);
    if 2 <= level <= 6 && " " <= line[level..] then Some((level, Trim(line[level..]))) else None
  }

  function NormalizedHeading(heading: string): string {
    ToLower(Trim(TrimEndOf(Trim(RemoveAll(heading, "~~")), "#")))
  }

  const ROADMAP_HEADINGS: seq<string> :=
    ["feature roadmap", "roadmap", "development phases", "phases", "plan", "milestones", "critical path"]

  predicate AnnotatedRoadmap(rest: string) {
    var r := TrimStart(rest);
    r != [] && r[0] in [':', '-', EM_DASH, EN_DASH, '(']
  }

  predicate StartsWithNumber(normalized: string) {
    var pos := Find(normalized, "feature roadmap");
    var prefix := if pos.Some? then Trim(normalized[..pos.value]) else [];
    prefix != [] && forall c :: c in prefix ==> IsDigit(c) || c == '.'
  }

  predicate StartsWithName(normalized: string) {
    exists candidate :: candidate in ROADMAP_HEADINGS && candidate <= normalized
      && (candidate == normalized || AnnotatedRoadmap(normalized[|candidate|..]))
  }

  predicate IsRoadmapRegionHeading(heading: string) {
    var normalized := NormalizedHeading(heading);
    StartsWithNumber(normalized) || StartsWithName(normalized)
  }

  predicate IsPhaseLikeHeading(heading: string) {
    var lower := NormalizedHeading(heading);
    || "phase " <= lower
    || Contains(lower, "critical path")
    || Contains(lower, "cross-cutting")
    || Contains(lower, "cross cutting")
  }

  /** Where a phase's name starts: after an em dash, else an en dash, else a colon before any parenthesis. */
  function NameSeparator(clean: string): (r: Option<nat>)
    ensures r.Some? ==> r.value < |clean|
  {
    var paren := Find(clean, "(");
    var colon := Find(clean, ":");
    if Find(clean, [EM_DASH]).Some? then Find(clean, [EM_DASH])
    else if Find(clean, [EN_DASH]).Some? then Find(clean, [EN_DASH])
    else if colon.Some? && (paren.None? || colon.value < paren.value) then colon
    else None
  }

  function ParsePhaseHeading(heading: string): PlanPhase {
    var clean := Trim(RemoveAll(heading, "~~"));
    var lower := ToLower(clean);
    if "phase " <= lower then
      var number := ParseUnsigned(LeadingDigits(lower[6..]), U8_MAX);
      var sep := NameSeparator(clean);
      PlanPhase(if sep.Some? then Trim(clean[sep.value + 1..]) else clean, number, [])
    else PlanPhase(clean, None, [])
  }

  predicate IsNumberedListLine(line: string) {
    var digits := LeadingDigits(line);
    digits != [] && ". " <= line[|digits|..]
  }

  // ---- Features -----------------------------------------------------------------------------

  /** The status named by the marker `s` begins with; every marker is three characters. */
  function ParseStatusMarker(s: string): (r: Option<FeatureStatus>)
    ensures r.Some? ==> |s| >= 3
  {
    if "[\U{2713}]" <= s then Some(UserConfirmed)
    else if "[x]" <= s || "[X]" <= s then Some(Done)
    else if "[ ]" <= s then Some(Planned)
    else if "[~]" <= s then Some(Implementing)
    else if "[=]" <= s then Some(Implemented)
    else if "[t]" <= s || "[T]" <= s then Some(Testing)
    else if "[v]" <= s || "[V]" <= s then Some(Verified)
    else None
  }

  /** What the character between the brackets means; any other one, and any other beginning, names no status. */
  lemma MarkerMeans(s: string, c: char)
    ensures ['[', c, ']'] <= s ==>
            && (ParseStatusMarker(s) == Some(Planned) <==> c == ' ')
            && (ParseStatusMarker(s) == Some(Implementing) <==> c == '~')
            && (ParseStatusMarker(s) == Some(Implemented) <==> c == '=')
            && (ParseStatusMarker(s) == Some(Testing) <==> c in "tT")
            && (ParseStatusMarker(s) == Some(Verified) <==> c in "vV")
            && (ParseStatusMarker(s) == Some(UserConfirmed) <==> c == '\U{2713}')
            && (ParseStatusMarker(s) == Some(Done) <==> c in "xX")
            && ParseStatusMarker(s) != Some(Deprecated)
    ensures !(|s| >= 3 && s[0] == '[' && s[2] == ']') ==> ParseStatusMarker(s).None?
  {
    assert |s| >= 3 ==> s[..3] == [s[0], s[1], s[2]];
  }

  function ParseTitleDescription(text: string): (string, string) {
    var close := if "**" <= text then Find(text[2..], "**") else None;
    if close.Some? then
      var afterOpen := text[2..];
      (afterOpen[..close.value], Trim(TrimStartOf(afterOpen[close.value + 2..], [' ', EM_DASH, '-', EN_DASH])))
    else
      var dash := Find(text, [EM_DASH]);
      if dash.Some? then (Trim(text[..dash.value]), Trim(text[dash.value + 1..])) else (Trim(text), [])
  }

  /** The leading number, bullet or checkpoint label; `None` when the line has none. */
  function StripFeaturePrefix(line: string): Option<(Option<nat>, string)> {
    var trimmed := TrimStart(line);
    var checkpoint := if "CP-" <= trimmed then LeadingDigits(trimmed[3..]) else [];
    var digits := LeadingDigits(trimmed);
    if checkpoint != [] then
      Some((None, TrimStart(TrimStartOf(trimmed[3 + |checkpoint|..], "."))))
    else if digits != [] && "." <= trimmed[|digits|..] then
      Some((ParseUnsigned(digits, U32_MAX), TrimStart(trimmed[|digits| + 1..])))
    else if "- " <= trimmed then Some((None, TrimStart(trimmed[2..])))
    else None
  }

  function ParseStatusCell(cell: string): Option<FeatureStatus> {
    ParseStatusMarker(Trim(TrimEndOf(TrimStartOf(Trim(cell), "`"), "`")))
  }

  function TrimAll(cells: seq<string>): (r: seq<string>)
    ensures |r| == |cells|
  {
    seq(|cells|, i requires 0 <= i < |cells| => Trim(cells[i]))
  }

  function FirstStatusCell(cells: seq<string>): (r: Option<nat>)
    ensures r.Some? ==> r.value < |cells| && ParseStatusCell(cells[r.value]).Some?
  {
    if cells == [] then None
    else if ParseStatusCell(cells[0]).Some? then Some(0)
    else
      var rest := FirstStatusCell(cells[1..]);
      if rest.Some? then Some(rest.value + 1) else None
  }

  function FirstNonEmpty(cells: seq<string>): string {
    if cells == [] then [] else if cells[0] != [] then cells[0] else FirstNonEmpty(cells[1..])
  }

  /** The cells from index `from` on that are neither empty nor the status cell. */
  function DescriptionCells(cells: seq<string>, from: nat, statusCell: nat): seq<string>
    decreases |cells| - from
  {
    if from >= |cells| then []
    else (if from != statusCell && cells[from] != [] then [cells[from]] else []) + DescriptionCells(cells, from + 1, statusCell)
  }

  predicate IsRuleCell(cell: string) {
    cell != [] && forall c :: c in cell ==> c in "-: "
  }

  /** What stands between the bars at the ends of a row. */
  function Inner(s: string): string {
    TrimEndOf(TrimStartOf(s, "|"), "|")
  }

  /** The pieces between the bars of a row. */
  function RowPieces(s: string): seq<string> {
    Split(Inner(s), '|')
  }

  predicate IsRow(s: string) {
    "|" <= s && EndsWith(s, "|")
  }

  /** The feature of a row whose status cell is `q`. */
  function RowFeature(cells: seq<string>, q: nat, status: FeatureStatus): Option<PlanFeature>
    requires q < |cells| && |cells| >= 3
  {
    var titleCell := if q >= 1 then cells[1] else FirstNonEmpty(cells[1..]);
    var (title, parsed) := ParseTitleDescription(titleCell);
    var description := if parsed == [] then Join(DescriptionCells(cells, 2, q), " | ") else parsed;
    if title == [] then None
    else Some(PlanFeature(ParseUnsigned(cells[0], U32_MAX), title, description, status, status == Verified))
  }

  function ReadRow(cells: seq<string>): Option<PlanFeature> {
    var statusCell := FirstStatusCell(cells);
    if |cells| < 3 || (forall cell :: cell in cells ==> IsRuleCell(cell)) || statusCell.None? then None
    else if ToLower(cells[0]) == "id" then None
    else RowFeature(cells, statusCell.value, ParseStatusCell(cells[statusCell.value]).value)
  }

  function ParseTableFeatureLine(line: string): Option<PlanFeature> {
    if IsRow(line) then ReadRow(TrimAll(RowPieces(line))) else None
  }

  predicate LooksLikeMetadata(rest: string) {
    || rest == [] || "#" <= rest || "---" <= rest || "|" <= rest || ">" <= rest || "```" <= rest
  }

  function ParseBulletFeatureLine(trimmed: string): Option<PlanFeature> {
    var prefix := StripFeaturePrefix(trimmed);
    if prefix.None? then None
    else
      var (id, rest) := prefix.value;
      var marker := ParseStatusMarker(rest);
      if marker.None? && LooksLikeMetadata(rest) then None
      else
        var (title, description) := ParseTitleDescription(if marker.Some? then TrimStart(rest[3..]) else rest);
        var read := if marker.Some? then marker.value else Planned;
        var retired :=
          Contains(ToUpper(description), "DEPRECATED") || Contains(description, "MOVED") || Contains(ToUpper(title), "DEPRECATED");
        var status := if read == Planned && retired then Deprecated else read;
        if title == [] then None else Some(PlanFeature(id, title, description, status, status == Verified))
  }

  function ParseFeatureLine(line: string): Option<PlanFeature> {
    var trimmed := Trim(line);
    var table := ParseTableFeatureLine(trimmed);
    if table.Some? then table else ParseBulletFeatureLine(trimmed)
  }

  /** A line that may continue the description of the feature above it. */
  predicate IsContinuation(trimmed: string) {
    trimmed != [] && !("#" <= trimmed) && !("---" <= trimmed) && !("```" <= trimmed) && !("|" <= trimmed)
    && !(">" <= trimmed) && !("_" <= trimmed)
  }

  // ---- A line, read once --------------------------------------------------------------------

  /** A heading, and what the region automaton wants to know of its text. */
  datatype HeadingLine = HeadingLine(level: nat, text: string, namesRegion: bool, phaseLike: bool, phase: PlanPhase)
  {
    predicate ImplicitPhase() {
      (level == 2 || level == 3) && phaseLike
    }
  }

  datatype PlanLine =
    | Head(heading: HeadingLine)
    | Body(trimmed: string, feature: Option<PlanFeature>, continues: bool, numbered: bool)

  function Classify(line: string): (c: PlanLine)
    ensures c.Head? ==> c.heading.phase.features == []
  {
    var trimmed := Trim(line);
    var heading := MarkdownHeading(trimmed);
    if heading.Some? then
      var (level, text) := heading.value;
      Head(HeadingLine(level, text, IsRoadmapRegionHeading(text), IsPhaseLikeHeading(text), ParsePhaseHeading(text)))
    else Body(trimmed, ParseFeatureLine(trimmed), IsContinuation(trimmed), IsNumberedListLine(trimmed))
  }
}
